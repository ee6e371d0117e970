/** One HTTP request inside the running server: its handler and the continuations other threads
    hold for it, what its trace must look like, and the invariant every event keeps. */
module Connections {
  import opened AsgiMessages
  import opened HttpSteps

  /** `base` is the request message that the application should see. `tasks` are callbacks that
      the pump has scheduled with their data; `posted` counts posted completions. */
  datatype Connection = Connection(
    base: AsgiHttpRequestMsg, h: Handler, status: Status, tasks: seq<Payload>, posted: nat)

  // ----- The trace that a sequence of responses must produce -----

  function Writes(m: AsgiHttpResponseMsg): seq<Event> {
    if m.content == "" then [] else [Wrote(m.content)]
  }

  /** A response is applied, then its content is written if there is any, and if more is to come
      the connection is flushed before the next wait. */
  function Round(m: AsgiHttpResponseMsg): seq<Event> {
    [Applied(m)] + Writes(m) + if m.moreContent then [Flushed, AwaitReply] else []
  }

  function Init<T>(s: seq<T>): seq<T>
    requires s != []
  {
    s[..|s| - 1]
  }

  function Last<T>(s: seq<T>): T
    requires s != []
  {
    s[|s| - 1]
  }

  /** The whole trace of a request that has processed the responses `ms`. */
  function Script(base: AsgiHttpRequestMsg, ms: seq<AsgiHttpResponseMsg>): seq<Event> {
    if ms == [] then [Sent(base), AwaitReply] else Script(base, Init(ms)) + Round(Last(ms))
  }

  /** The response bytes handed to IIS, in order. */
  function Written(trace: seq<Event>): Bytes {
    if trace == [] then ""
    else Written(Init(trace)) + if Last(trace).Wrote? then Last(trace).content else ""
  }

  // ----- The invariant -----

  /** Each chunk starts where the previous one ended, and together they end at `upTo`. */
  predicate Contiguous(chunks: seq<(nat, nat)>, upTo: nat) {
    if chunks == [] then upTo == 0
    else Last(chunks).0 + Last(chunks).1 == upTo && Contiguous(Init(chunks), Last(chunks).0)
  }

  /** Between two reads: the buffer holds what has been read, and is exactly as large as what has
      been read and what remains. */
  predicate Reading(base: AsgiHttpRequestMsg, h: Handler) {
    && h.step.ReadBody? && h.step.request.Some?
    && h.step.bytesRead == h.position <= |h.entity|
    && (var body := h.step.request.value.body;
        && |body| == |h.entity|
        && body[..h.position] == h.entity[..h.position]
        && h.step.request.value == base.(body := body))
    && Contiguous(h.chunks, h.position)
    && h.trace == [] && h.applied == []
  }

  predicate CompleteTrace(base: AsgiHttpRequestMsg, h: Handler) {
    && h.trace == Script(base, h.applied)
    && h.applied != [] && Continuing(Init(h.applied)) && !Last(h.applied).moreContent
  }

  /** The trace up to the response that is being worked on. */
  predicate InRound(base: AsgiHttpRequestMsg, h: Handler, m: AsgiHttpResponseMsg, tail: seq<Event>) {
    && h.applied != [] && m == Last(h.applied) && Continuing(Init(h.applied))
    && h.trace == Script(base, Init(h.applied)) + [Applied(m)] + tail
  }

  /** None of the first `calls` calls to IIS was refused. */
  predicate Unrefused(oracle: nat -> IisReply, calls: nat) {
    calls == 0 || (Unrefused(oracle, calls - 1) && !oracle(calls - 1).Failed?)
  }

  /** The last call was refused, and no other. */
  predicate LastRefused(h: Handler) {
    h.calls > 0 && h.oracle(h.calls - 1).Failed? && Unrefused(h.oracle, h.calls - 1)
  }

  /** The request failed at its current step. A read was refused, or was reported as failed; or a
      write or a flush was refused, and then it is not on the trace. */
  predicate BrokenTrace(base: AsgiHttpRequestMsg, h: Handler) {
    if h.applied == [] then
      h.trace == [Broken] && h.step.ReadBody? && (LastRefused(h) || Unrefused(h.oracle, h.calls))
    else
      var m := Last(h.applied);
      && LastRefused(h)
      && match h.step
         case WriteResponse(_, _) => m.content != "" && InRound(base, h, m, [Broken])
         case FlushResponse(_) => m.moreContent && InRound(base, h, m, Writes(m) + [Broken])
         case _ => false
  }

  predicate AtWait(base: AsgiHttpRequestMsg, h: Handler) {
    h.trace == Script(base, h.applied) && Continuing(h.applied)
  }

  function Continuations(r: Connection, registered: bool): nat {
    r.h.io + r.h.sending + r.posted + |r.tasks| + if registered then 1 else 0
  }

  predicate ConnectionInv(c: string, r: Connection, registered: bool) {
    && r.h.id == c == r.base.replyChannel && r.base.body == r.h.entity
    && match r.status {
         case Crashed => false
         case Finished =>
           && Continuations(r, registered) == 0
           && ((CompleteTrace(r.base, r.h) && Unrefused(r.h.oracle, r.h.calls)) || BrokenTrace(r.base, r.h))
         case Pending =>
           Unrefused(r.h.oracle, r.h.calls) &&
           match r.h.step
           case ReadBody(_, _) =>
             && r.h.io == 1 == Continuations(r, registered)
             && Reading(r.base, r.h) && r.h.Remaining() > 0
           case SendToApplication(request) =>
             && r.h.sending + r.posted == 1 == Continuations(r, registered)
             && request == Some(r.base) && Contiguous(r.h.chunks, |r.h.entity|)
             && r.h.trace == (if r.h.sending == 1 then [] else [Sent(r.base)]) && r.h.applied == []
           case WaitForResponse(channel, response) =>
             && r.h.io == 0 && r.h.sending == 0 && Continuations(r, registered) <= 1
             && channel == c && (r.posted == 1 <==> response.Some?) && AtWait(r.base, r.h)
             && Contiguous(r.h.chunks, |r.h.entity|)
           case WriteResponse(response, channel) =>
             && r.h.io == 1 == Continuations(r, registered)
             && response.Some? && response.value.content != "" && channel == c
             && InRound(r.base, r.h, response.value, [Wrote(response.value.content)])
             && Contiguous(r.h.chunks, |r.h.entity|)
           case FlushResponse(channel) =>
             && r.h.io == 1 == Continuations(r, registered)
             && channel == c && r.h.applied != [] && Last(r.h.applied).moreContent
             && InRound(r.base, r.h, Last(r.h.applied), Writes(Last(r.h.applied)) + [Flushed])
             && Contiguous(r.h.chunks, |r.h.entity|)
       }
  }

  /** Waiting with nothing on its way: the only state in which a callback is registered. */
  predicate Quiet(r: Connection) {
    && r.status == Pending && r.h.step.WaitForResponse? && r.h.step.response.None?
    && r.tasks == [] && r.posted == 0
  }

  /** Responses that have been applied, or have reached the request and wait to be. */
  function Absorbed(r: Connection): seq<Payload> {
    Responses(r.h.applied)
    + (if r.status == Pending && r.h.step.WaitForResponse? && r.h.step.response.Some?
       then [Response(r.h.step.response.value)] else [])
    + r.tasks
  }

  // ----- Every driver call re-establishes the invariant -----

  /** What a driver call must leave behind: the invariant, no other registration touched, and
      the given responses absorbed. */
  predicate Settled(base: AsgiHttpRequestMsg, w: World, d: Driven, absorbed: seq<AsgiHttpResponseMsg>) {
    var c := w.h.id;
    var r := Connection(base, d.w.h, d.status, [], 0);
    && d.w.callbacks - {c} == w.callbacks - {c}
    && (c in d.w.callbacks ==> d.w.callbacks[c] == c && Quiet(r))
    && ConnectionInv(c, r, c in d.w.callbacks)
    && (d.status == Pending ==> Continuations(r, c in d.w.callbacks) == 1)
    && Absorbed(r) == Responses(absorbed)
  }

  /** A world between two steps: the handler has started nothing, is registered nowhere, and has
      been refused nothing. */
  predicate Between(base: AsgiHttpRequestMsg, w: World) {
    && w.h.id == base.replyChannel && base.body == w.h.entity
    && w.h.io == 0 && w.h.sending == 0 && w.h.id !in w.callbacks
    && Unrefused(w.h.oracle, w.h.calls)
  }

  /** If IIS refuses the call that `w` is about to make, the request finishes there: the failure is on
      its trace, and the refused write or flush is neither on it nor among the reported ones. */
  predicate RefusedAt(w: World, d: Driven) {
    w.h.oracle(w.h.calls).Failed? ==>
      && d.status == Finished && d.w.h.trace == w.h.trace + [Broken] && d.w.h.outcomes == w.h.outcomes
      && d.w.h.calls == w.h.calls + 1 && d.w.callbacks == w.callbacks
  }

  lemma EnterWait(base: AsgiHttpRequestMsg, w: World)
    requires Between(base, w) && w.h.step == WaitForResponse(w.h.id, None)
    requires AtWait(base, w.h.Log(AwaitReply)) && Contiguous(w.h.chunks, |w.h.entity|)
    ensures Settled(base, w, Continue(Enter(w)), w.h.applied)
  {
    var d := Continue(Enter(w));
    assert d.w.callbacks - {w.h.id} == w.callbacks - {w.h.id};
  }

  /** A flush that fails or goes asynchronous. */
  lemma FlushPauses(base: AsgiHttpRequestMsg, w: World)
    requires Between(base, w) && w.h.step == FlushResponse(w.h.id) && !w.h.oracle(w.h.calls).Sync?
    requires w.h.applied != [] && InRound(base, w.h, Last(w.h.applied), Writes(Last(w.h.applied)))
    requires Last(w.h.applied).moreContent && Contiguous(w.h.chunks, |w.h.entity|)
    ensures Settled(base, w, Continue(Enter(w)), w.h.applied)
    ensures RefusedAt(w, Continue(Enter(w)))
  {
    var m := Last(w.h.applied);
    var e := if w.h.oracle(w.h.calls).Failed? then Broken else Flushed;
    assert w.h.trace + [e] == Script(base, Init(w.h.applied)) + [Applied(m)] + (Writes(m) + [e]);
  }

  lemma EnterFlush(base: AsgiHttpRequestMsg, w: World)
    requires Between(base, w) && w.h.step == FlushResponse(w.h.id)
    requires w.h.applied != [] && InRound(base, w.h, Last(w.h.applied), Writes(Last(w.h.applied)))
    requires Last(w.h.applied).moreContent && Contiguous(w.h.chunks, |w.h.entity|)
    ensures Settled(base, w, Continue(Enter(w)), w.h.applied)
    ensures RefusedAt(w, Continue(Enter(w)))
  {
    if w.h.oracle(w.h.calls).Sync? {
      var next := w.(h := w.h.(calls := w.h.calls + 1).Log(Flushed).Report(Flushed, true)
                          .(step := WaitForResponse(w.h.id, None)));
      assert Continue(Enter(w)) == Continue(Enter(next));
      assert Script(base, w.h.applied) == w.h.trace + [Flushed] + [AwaitReply];
      assert w.h.applied == Init(w.h.applied) + [Last(w.h.applied)];
      EnterWait(base, next);
    } else {
      FlushPauses(base, w);
    }
  }

  /** A write that fails or goes asynchronous. */
  lemma WritePauses(base: AsgiHttpRequestMsg, w: World)
    requires Between(base, w) && w.h.applied != [] && w.h.step == WriteResponse(Some(Last(w.h.applied)), w.h.id)
    requires InRound(base, w.h, Last(w.h.applied), []) && Last(w.h.applied).content != ""
    requires Contiguous(w.h.chunks, |w.h.entity|) && !w.h.oracle(w.h.calls).Sync?
    ensures Settled(base, w, Continue(Enter(w)), w.h.applied)
    ensures RefusedAt(w, Continue(Enter(w)))
  {
    assert w.h.trace + [Broken] == Script(base, Init(w.h.applied)) + [Applied(Last(w.h.applied))] + [Broken];
  }

  lemma EnterWrite(base: AsgiHttpRequestMsg, w: World)
    requires Between(base, w) && w.h.applied != [] && w.h.step == WriteResponse(Some(Last(w.h.applied)), w.h.id)
    requires InRound(base, w.h, Last(w.h.applied), []) && Last(w.h.applied).content != ""
    requires Contiguous(w.h.chunks, |w.h.entity|)
    ensures Settled(base, w, Continue(Enter(w)), w.h.applied)
    ensures RefusedAt(w, Continue(Enter(w)))
  {
    var reply := w.h.oracle(w.h.calls);
    if reply.Sync? {
      var next := w.(h := w.h.(calls := w.h.calls + 1).Log(Wrote(Last(w.h.applied).content)));
      assert Continue(Enter(w)) == Complete(next, true, reply.bytes);
      AfterWrite(base, next, true, reply.bytes);
    } else {
      WritePauses(base, w);
    }
  }

  /** The completion of a write. */
  lemma AfterWrite(base: AsgiHttpRequestMsg, w: World, ok: bool, n: nat)
    requires Between(base, w) && w.h.applied != [] && w.h.step == WriteResponse(Some(Last(w.h.applied)), w.h.id)
    requires InRound(base, w.h, Last(w.h.applied), [Wrote(Last(w.h.applied).content)])
    requires Last(w.h.applied).content != "" && Contiguous(w.h.chunks, |w.h.entity|)
    ensures Settled(base, w, Complete(w, ok, n), w.h.applied)
  {
    var m := Last(w.h.applied);
    if m.moreContent {
      var next := w.(h := w.h.Report(Wrote(m.content), ok).(step := FlushResponse(w.h.id)));
      assert Complete(w, ok, n) == Continue(Enter(next));
      EnterFlush(base, next);
    } else {
      LastWrite(base, w, ok, n);
    }
  }

  /** The completion of the final write. */
  lemma LastWrite(base: AsgiHttpRequestMsg, w: World, ok: bool, n: nat)
    requires Between(base, w) && w.h.applied != [] && w.h.step == WriteResponse(Some(Last(w.h.applied)), w.h.id)
    requires InRound(base, w.h, Last(w.h.applied), [Wrote(Last(w.h.applied).content)])
    requires Last(w.h.applied).content != "" && !Last(w.h.applied).moreContent
    ensures Settled(base, w, Complete(w, ok, n), w.h.applied)
  {
    assert Script(base, w.h.applied) == w.h.trace;
  }

  /** The completion of a flush. */
  lemma AfterFlush(base: AsgiHttpRequestMsg, w: World, ok: bool, n: nat)
    requires Between(base, w) && w.h.applied != [] && w.h.step == FlushResponse(w.h.id)
    requires Last(w.h.applied).moreContent && Contiguous(w.h.chunks, |w.h.entity|)
    requires InRound(base, w.h, Last(w.h.applied), Writes(Last(w.h.applied)) + [Flushed])
    ensures Settled(base, w, Complete(w, ok, n), w.h.applied)
  {
    var h := w.h.Report(Flushed, ok).(step := WaitForResponse(w.h.id, None));
    assert w.h.applied == Init(w.h.applied) + [Last(w.h.applied)];
    assert Script(base, w.h.applied) == w.h.trace + [AwaitReply];
    EnterWait(base, w.(h := h));
  }

  /** The completion posted by the callback that brought a response. */
  lemma AfterWait(base: AsgiHttpRequestMsg, w: World, ok: bool, n: nat)
    requires Between(base, w) && w.h.step.WaitForResponse? && w.h.step.response.Some?
    requires w.h.step.replyChannel == w.h.id
    requires AtWait(base, w.h) && Contiguous(w.h.chunks, |w.h.entity|)
    ensures Settled(base, w, Complete(w, ok, n), w.h.applied + [w.h.step.response.value])
  {
    var m := w.h.step.response.value;
    var h := w.h.(applied := w.h.applied + [m]).Log(Applied(m));
    assert Init(h.applied) == w.h.applied;
    if m.content == "" && !m.moreContent {
      assert Complete(w, ok, n) == Driven(w.(h := h), Finished);
      assert h.trace == Script(base, h.applied);
    } else {
      var next := w.(h := h.(step := NextStep(h.step).value));
      assert Complete(w, ok, n) == Continue(Enter(next));
      assert h.trace == h.trace + [];
      if m.content != "" {
        EnterWrite(base, next);
      } else {
        EnterFlush(base, next);
      }
    }
  }

  /** The completion posted by the task that sent the request. */
  lemma AfterSend(base: AsgiHttpRequestMsg, w: World, ok: bool, n: nat)
    requires Between(base, w) && w.h.step == SendToApplication(Some(base))
    requires w.h.trace == [Sent(base)] && w.h.applied == [] && Contiguous(w.h.chunks, |w.h.entity|)
    ensures Settled(base, w, Complete(w, ok, n), [])
  {
    EnterWait(base, w.(h := w.h.(step := WaitForResponse(w.h.id, None))));
  }

  // ----- Reading the body -----

  /** One chunk handed over by IIS and accounted for by the step. */
  function ReadChunk(h: Handler, n: nat): Handler
    requires CanRead(h) && n <= h.Remaining()
  {
    var h' := Deliver(h, n);
    h'.(step := ReadBody(h'.step.request, h.step.bytesRead + n))
  }

  lemma ChunkKeepsReading(base: AsgiHttpRequestMsg, h: Handler, n: nat)
    requires Reading(base, h) && n <= h.Remaining()
    ensures CanRead(h) && Reading(base, ReadChunk(h, n))
  {
    var h' := ReadChunk(h, n);
    assert Init(h'.chunks) == h.chunks;
  }

  /** When nothing remains, the message that is passed on holds the whole entity. */
  lemma ReadingEnds(base: AsgiHttpRequestMsg, w: World)
    requires Reading(base, w.h) && w.h.Remaining() == 0 && Between(base, w)
    ensures Settled(base, w, Drive(w, GotoNext), [])
  {
    var body := w.h.step.request.value.body;
    assert body[..|body|] == body && w.h.entity[..|body|] == w.h.entity;
  }

  /** One round of the reading loop. */
  lemma ReadRound(base: AsgiHttpRequestMsg, w: World)
    requires Between(base, w) && Reading(base, w.h) && w.h.Remaining() > 0 && !w.h.oracle(w.h.calls).Sync?
    ensures Settled(base, w, Continue(Enter(w)), [])
  {
    assert w.h.trace + [Broken] == [Broken];
  }

  /** The handler after a read that was answered at once. */
  function ReadOnce(h: Handler): Handler
    requires CanRead(h) && h.Remaining() > 0 && h.oracle(h.calls).Sync?
  {
    ReadChunk(h.(calls := h.calls + 1), ReadSize(h.oracle(h.calls).bytes, h.Remaining()))
  }

  lemma SyncRound(base: AsgiHttpRequestMsg, w: World)
    requires Between(base, w) && Reading(base, w.h) && w.h.Remaining() > 0 && w.h.oracle(w.h.calls).Sync?
    ensures CanRead(w.h) && Reading(base, ReadOnce(w.h)) && ReadOnce(w.h).Remaining() < w.h.Remaining()
  {
    var h := w.h.(calls := w.h.calls + 1);
    ChunkKeepsReading(base, h, ReadSize(w.h.oracle(w.h.calls).bytes, w.h.Remaining()));
  }

  lemma SyncRead(w: World)
    requires CanRead(w.h) && w.h.Remaining() > 0 && w.h.oracle(w.h.calls).Sync?
    ensures var next := w.(h := ReadOnce(w.h));
            Continue(Enter(w)) == (if next.h.Remaining() == 0 then Drive(next, GotoNext) else Continue(Enter(next)))
  {
  }

  /** The reading loop, from any point between two reads and for any answers from IIS. */
  lemma {:induction false} ReadLoop(base: AsgiHttpRequestMsg, w: World)
    requires Between(base, w) && Reading(base, w.h)
    ensures Settled(base, w, Continue(Enter(w)), [])
    decreases w.h.Remaining()
  {
    if w.h.Remaining() == 0 {
      ReadingEnds(base, w);
    } else if !w.h.oracle(w.h.calls).Sync? {
      ReadRound(base, w);
    } else {
      SyncRound(base, w);
      SyncRead(w);
      var next := w.(h := ReadOnce(w.h));
      if next.h.Remaining() == 0 {
        ReadingEnds(base, next);
      } else {
        ReadLoop(base, next);
      }
    }
  }

  /** The completion of an asynchronous read, whose data has arrived. */
  lemma AfterRead(base: AsgiHttpRequestMsg, w: World, n: nat)
    requires Between(base, w) && Reading(base, w.h) && n <= w.h.Remaining()
    ensures CanRead(w.h)
    ensures var arrived := w.(h := Deliver(w.h, n)); Settled(base, arrived, Complete(arrived, true, n), [])
  {
    ChunkKeepsReading(base, w.h, n);
    var next := w.(h := ReadChunk(w.h, n));
    if next.h.Remaining() == 0 {
      ReadingEnds(base, next);
    } else {
      ReadLoop(base, next);
    }
  }

  /** The completion of an asynchronous read that failed. */
  lemma AfterFailedRead(base: AsgiHttpRequestMsg, w: World, n: nat)
    requires Between(base, w) && Reading(base, w.h)
    ensures Settled(base, w, Complete(w, false, n), [])
    ensures var d := Complete(w, false, n); d.status == Finished && d.w.h.trace == [Broken] && d.w.h.step == w.h.step
  {
    assert w.h.trace + [Broken] == [Broken];
  }

  // ----- What the trace says about the bytes -----

  lemma {:induction false} WrittenOfConcat(a: seq<Event>, b: seq<Event>)
    ensures Written(a + b) == Written(a) + Written(b)
  {
    if b == [] {
      assert a + b == a;
    } else {
      assert Init(a + b) == a + Init(b) && Last(a + b) == Last(b);
      WrittenOfConcat(a, Init(b));
      var last := if Last(b).Wrote? then Last(b).content else "";
      assert Written(a + b) == (Written(a) + Written(Init(b))) + last;
      assert Written(b) == Written(Init(b)) + last;
    }
  }

  lemma {:induction false} ScriptWrites(base: AsgiHttpRequestMsg, ms: seq<AsgiHttpResponseMsg>)
    ensures Written(Script(base, ms)) == Contents(ms)
  {
    if ms == [] {
      assert Script(base, ms) == [Sent(base)] + [AwaitReply];
      WrittenOfConcat([Sent(base)], [AwaitReply]);
    } else {
      ScriptWrites(base, Init(ms));
      var m := Last(ms);
      WrittenOfConcat(Script(base, Init(ms)), Round(m));
      RoundWrites(m);
    }
  }

  lemma RoundWrites(m: AsgiHttpResponseMsg)
    ensures Written([Applied(m)] + Writes(m)) == m.content
    ensures Written(Round(m)) == m.content
  {
    var tail := if m.moreContent then [Flushed, AwaitReply] else [];
    WrittenOfConcat([Applied(m)] + Writes(m), tail);
    WrittenOfConcat([Applied(m)], Writes(m));
    assert Init([Flushed, AwaitReply]) == [Flushed];
    assert Written([Applied(m)]) == "";
  }
}
