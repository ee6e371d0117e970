/** What IIS reports of writes and flushes it has accepted. The steps do not look at these reports,
    so a response can be lost on the way without the request noticing; here is exactly when. */
module Completions {
  import opened AsgiMessages
  import opened HttpSteps
  import opened Connections
  import opened Protocol
  import opened Delivery

  // ----- Reports follow the trace -----

  /** The writes and flushes of a trace. */
  function Calls(trace: seq<Event>): seq<Event> {
    if trace == [] then []
    else Calls(Init(trace)) + if Last(trace).Wrote? || Last(trace).Flushed? then [Last(trace)] else []
  }

  function Reported(outcomes: seq<(Event, bool)>): (calls: seq<Event>)
    ensures |calls| == |outcomes|
    ensures forall i | 0 <= i < |calls| :: calls[i] == outcomes[i].0
  {
    seq(|outcomes|, i requires 0 <= i < |outcomes| => outcomes[i].0)
  }

  /** The call whose report a pending step waits for. */
  function InFlight(step: Step): seq<Event> {
    match step
    case WriteResponse(Some(m), _) => [Wrote(m.content)]
    case FlushResponse(_) => [Flushed]
    case _ => []
  }

  /** Every write and flush has been reported, in order, but for those in flight. */
  predicate Tallied(h: Handler, inFlight: seq<Event>) {
    Calls(h.trace) == Reported(h.outcomes) + inFlight
  }

  lemma LogTallies(h: Handler, e: Event)
    requires Tallied(h, [])
    ensures Tallied(h.Log(e), if e.Wrote? || e.Flushed? then [e] else [])
  {
    assert Init(h.trace + [e]) == h.trace;
  }

  lemma ReportTallies(h: Handler, e: Event, ok: bool)
    requires Tallied(h, [e])
    ensures Tallied(h.Report(e, ok), [])
  {
    assert Reported(h.outcomes + [(e, ok)]) == Reported(h.outcomes) + [e];
  }

  lemma CompletionTallies(w: World, ok: bool, bytes: nat)
    requires Tallied(w.h, InFlight(w.h.step))
    ensures var out := OnAsyncCompletion(w, ok, bytes); out.Outcome? ==> Tallied(out.w.h, [])
  {
    var h := w.h;
    match h.step
    case ReadBody(_, _) => LogTallies(h, Broken);
    case WaitForResponse(_, Some(m)) => LogTallies(h.(applied := h.applied + [m]), Applied(m));
    case WriteResponse(Some(m), _) => ReportTallies(h, Wrote(m.content), ok);
    case FlushResponse(_) => ReportTallies(h, Flushed, ok);
    case _ =>
  }

  lemma {:induction false} ReadTallies(w: World)
    requires Tallied(w.h, []) && w.h.step.ReadBody?
    ensures var out := ReadEntity(w); out.Outcome? ==> Tallied(out.w.h, []) && out.w.h.step.ReadBody?
    decreases w.h.Remaining()
  {
    var h := w.h;
    if h.Remaining() > 0 && CanRead(h) {
      var h' := h.(calls := h.calls + 1);
      match h.oracle(h.calls)
      case Failed => LogTallies(h', Broken);
      case Async =>
      case Sync(offered) =>
        var n := ReadSize(offered, h.Remaining());
        var out := OnAsyncCompletion(w.(h := Deliver(h', n)), true, n);
        SyncReadTallies(w.(h := h'), n);
        if out.Outcome? && out.result == Rerun {
          ReadTallies(out.w);
        }
    }
  }

  lemma SyncReadTallies(w: World, n: nat)
    requires Tallied(w.h, []) && CanRead(w.h) && n <= w.h.Remaining()
    ensures var out := OnAsyncCompletion(w.(h := Deliver(w.h, n)), true, n);
            out.Outcome? && Tallied(out.w.h, []) && out.w.h.step.ReadBody?
  {
    CompletionTallies(w.(h := Deliver(w.h, n)), true, n);
  }

  lemma CallTallies(w: World, done: Event)
    requires Tallied(w.h, []) && InFlight(w.h.step) == [done] && (done.Wrote? || done.Flushed?)
    ensures var out := Call(w, done);
            out.Outcome? ==> Tallied(out.w.h, if out.result == AsyncPending then [done] else [])
  {
    var h := w.h.(calls := w.h.calls + 1);
    LogTallies(h, Broken);
    LogTallies(h, done);
    if w.h.oracle(w.h.calls).Sync? {
      CompletionTallies(w.(h := h.Log(done)), true, w.h.oracle(w.h.calls).bytes);
    }
  }

  /** What is in flight after a step has been entered. */
  function Awaited(out: Outcome): seq<Event> {
    if out.Outcome? && out.result == AsyncPending then InFlight(out.w.h.step) else []
  }

  lemma EnterTallies(w: World)
    requires Tallied(w.h, [])
    ensures var out := Enter(w); out.Outcome? ==> Tallied(out.w.h, Awaited(out))
  {
    match w.h.step
    case ReadBody(_, _) => ReadTallies(w);
    case SendToApplication(_) =>
    case WaitForResponse(_, _) => LogTallies(w.h, AwaitReply);
    case WriteResponse(None, _) =>
    case WriteResponse(Some(m), _) => CallTallies(w, Wrote(m.content));
    case FlushResponse(_) => CallTallies(w, Flushed);
  }

  predicate DrivenTallied(h: Handler, status: Status) {
    match status
    case Pending => Tallied(h, InFlight(h.step))
    case Finished => Tallied(h, [])
    case Crashed => true
  }

  lemma {:induction false} DriveTallies(w: World, result: StepResult)
    requires Tallied(w.h, if result == AsyncPending then InFlight(w.h.step) else [])
    ensures var d := Drive(w, result); DrivenTallied(d.w.h, d.status)
    decreases Fuel(w.h.step, result)
  {
    var next := if result == GotoNext then NextStep(w.h.step) else Some(w.h.step);
    if (result == GotoNext && next.Some?) || result == Rerun {
      var w' := w.(h := w.h.(step := next.value));
      EnterTallies(w');
      var out := Enter(w');
      if out.Outcome? {
        DriveTallies(out.w, out.result);
      }
    }
  }

  lemma CompleteTallies(w: World, ok: bool, bytes: nat)
    requires Tallied(w.h, InFlight(w.h.step))
    ensures var d := Complete(w, ok, bytes); DrivenTallied(d.w.h, d.status)
  {
    CompletionTallies(w, ok, bytes);
    var out := OnAsyncCompletion(w, ok, bytes);
    if out.Outcome? {
      DriveTallies(out.w, out.result);
    }
  }

  // ----- In every schedule -----

  predicate TalliedAt(core: Core, c: string) {
    c in core.conns ==> DrivenTallied(core.conns[c].h, core.conns[c].status)
  }

  lemma ArrivalTallies(s: State, l: Label, c: string)
    requires Enabled(s, l) && l.Arrive? && TalliedAt(s.core, c)
    ensures TalliedAt(Effect(s, l).core, c)
  {
    if c == l.channel {
      var w := World(FirstHandler(l.request.(replyChannel := c), l.entity, l.oracle), s.core.callbacks);
      EnterTallies(w);
      var out := Enter(w);
      if out.Outcome? {
        DriveTallies(out.w, out.result);
      }
    }
  }

  lemma SentTallies(r: Connection, m: AsgiHttpRequestMsg)
    requires r.h.sending > 0 && r.status == Pending && r.h.step.SendToApplication? && DrivenTallied(r.h, r.status)
    ensures DrivenTallied(AfterSendTask(r, m).h, r.status)
  {
    LogTallies(r.h.(sending := r.h.sending - 1), Sent(m));
  }

  lemma SendTaskTallies(s: State, l: Label, c: string)
    requires Enabled(s, l) && l.SendTask? && TalliedAt(s.core, c)
    ensures TalliedAt(Effect(s, l).core, c)
  {
    var r := s.core.conns[l.channel];
    if c == l.channel && TaskSends(r).Some? {
      SentTallies(r, TaskSends(r).value);
    }
  }

  lemma PostedTallies(core: Core, d: string, c: string)
    requires d in core.conns && core.conns[d].posted > 0 && TalliedAt(core, c)
    ensures TalliedAt(RunPosted(core, d), c)
  {
    if d == c && core.conns[c].status == Pending {
      CompleteTallies(World(core.conns[c].h, core.callbacks), true, 0);
    }
  }

  lemma IoTallies(core: Core, d: string, ok: bool, bytes: nat, c: string)
    requires d in core.conns && core.conns[d].h.io > 0 && TalliedAt(core, c)
    ensures TalliedAt(RunIo(core, d, ok, bytes), c)
  {
    var r := core.conns[d];
    var h := r.h.(io := r.h.io - 1);
    if d == c && r.status == Pending {
      if !h.step.ReadBody? {
        CompleteTallies(World(h, core.callbacks), ok, bytes);
      } else if CanRead(h) && h.Remaining() > 0 {
        var n := ReadSize(bytes, h.Remaining());
        CompleteTallies(World(if ok then Deliver(h, n) else h, core.callbacks), ok, n);
      }
    }
  }

  lemma TaskTallies(s: State, l: Label, c: string)
    requires Enabled(s, l) && (l.CallbackTask? || l.Dispatch?) && TalliedAt(s.core, c)
    ensures TalliedAt(Effect(s, l).core, c)
  {
  }

  lemma StepTallies(s: State, l: Label, c: string)
    requires Enabled(s, l) && TalliedAt(s.core, c)
    ensures TalliedAt(Effect(s, l).core, c)
  {
    match l
    case Arrive(_, _, _, _) => ArrivalTallies(s, l, c);
    case SendTask(_, _) => SendTaskTallies(s, l, c);
    case PostedCompletion(d) => PostedTallies(s.core, d, c);
    case IoCompletion(d, ok, bytes) => IoTallies(s.core, d, ok, bytes, c);
    case CallbackTask(_, _) => TaskTallies(s, l, c);
    case Dispatch => TaskTallies(s, l, c);
    case _ =>
  }

  lemma {:induction false} TalliedAlways(labels: seq<Label>, c: string)
    ensures TalliedAt(Exec(labels).core, c)
  {
    if labels != [] {
      TalliedAlways(Init(labels), c);
      if Enabled(Exec(Init(labels)), Last(labels)) {
        StepTallies(Exec(Init(labels)), Last(labels), c);
      }
    }
  }

  // ----- Confirmed bytes -----

  /** The bytes of the writes that IIS reported as completed. */
  function Confirmed(outcomes: seq<(Event, bool)>): Bytes {
    if outcomes == [] then ""
    else
      var (call, ok) := Last(outcomes);
      Confirmed(Init(outcomes)) + if call.Wrote? && ok then call.content else ""
  }

  predicate NoWriteFailed(outcomes: seq<(Event, bool)>) {
    forall i | 0 <= i < |outcomes| :: outcomes[i].0.Wrote? ==> outcomes[i].1
  }

  /** The request ended, and IIS reported no failure of a write or flush either. */
  predicate Succeeded(r: Connection) {
    Ended(r) && forall i | 0 <= i < |r.h.outcomes| :: r.h.outcomes[i].1
  }

  predicate NonEmptyWrites(calls: seq<Event>) {
    forall i | 0 <= i < |calls| :: calls[i].Wrote? ==> calls[i].content != ""
  }

  /** As many bytes are confirmed as were written exactly when no write failed. */
  lemma {:induction false} ConfirmedLength(outcomes: seq<(Event, bool)>)
    requires NonEmptyWrites(Reported(outcomes))
    ensures |Confirmed(outcomes)| <= |Written(Reported(outcomes))|
    ensures |Confirmed(outcomes)| == |Written(Reported(outcomes))| <==> NoWriteFailed(outcomes)
    ensures NoWriteFailed(outcomes) ==> Confirmed(outcomes) == Written(Reported(outcomes))
  {
    if outcomes != [] {
      var before := Init(outcomes);
      assert Init(Reported(outcomes)) == Reported(before);
      assert outcomes == before + [Last(outcomes)];
      assert Reported(outcomes)[|before|] == Last(outcomes).0;
      ConfirmedLength(before);
    }
  }

  lemma {:induction false} WrittenCalls(trace: seq<Event>)
    ensures Written(Calls(trace)) == Written(trace)
  {
    if trace != [] {
      var tail := if Last(trace).Wrote? || Last(trace).Flushed? then [Last(trace)] else [];
      WrittenCalls(Init(trace));
      WrittenOfConcat(Calls(Init(trace)), tail);
      assert tail != [] ==> Init(tail) == [];
    }
  }

  lemma {:induction false} CallsComeFromTrace(trace: seq<Event>)
    ensures forall e | e in Calls(trace) :: e in trace
  {
    if trace != [] {
      CallsComeFromTrace(Init(trace));
      assert trace == Init(trace) + [Last(trace)];
    }
  }

  lemma {:induction false} ScriptWritesNothingEmpty(base: AsgiHttpRequestMsg, ms: seq<AsgiHttpResponseMsg>)
    ensures Wrote("") !in Script(base, ms)
  {
    if ms != [] {
      ScriptWritesNothingEmpty(base, Init(ms));
    }
  }

  lemma NothingEmptyIn(base: AsgiHttpRequestMsg, ms: seq<AsgiHttpResponseMsg>, trace: seq<Event>)
    requires Unbroken(trace) <= Script(base, ms)
    ensures Wrote("") !in trace
  {
    ScriptWritesNothingEmpty(base, ms);
    assert trace == Unbroken(trace) || trace == Unbroken(trace) + [Broken];
  }

  /** No request ever asks IIS to write nothing. */
  lemma NothingEmptyReported(labels: seq<Label>, c: string)
    requires c in Exec(labels).core.conns
    ensures NonEmptyWrites(Reported(Exec(labels).core.conns[c].h.outcomes))
  {
    var r := Exec(labels).core.conns[c];
    var calls := Reported(r.h.outcomes);
    OneContinuation(labels, c);
    TalliedAlways(labels, c);
    TraceFollowsScript(labels, c);
    NothingEmptyIn(r.base, r.h.applied, r.h.trace);
    CallsComeFromTrace(r.h.trace);
    forall i | 0 <= i < |calls|
      ensures calls[i] != Wrote("")
    {
      assert Calls(r.h.trace)[i] == calls[i];
    }
  }

  /** What has been reported is an initial part of what was written, all of it at the end. */
  lemma ReportsFollowWrites(labels: seq<Label>, c: string)
    requires c in Exec(labels).core.conns
    ensures var h := Exec(labels).core.conns[c].h;
            && Written(Reported(h.outcomes)) <= Written(h.trace)
            && (Exec(labels).core.conns[c].status == Finished ==> Written(Reported(h.outcomes)) == Written(h.trace))
  {
    var r := Exec(labels).core.conns[c];
    OneContinuation(labels, c);
    TalliedAlways(labels, c);
    WrittenCalls(r.h.trace);
    if r.status == Pending {
      WrittenOfConcat(Reported(r.h.outcomes), InFlight(r.h.step));
    } else {
      assert Reported(r.h.outcomes) + [] == Reported(r.h.outcomes);
    }
  }

  /** In every schedule: as long as no write of a request has been reported as failed, the bytes
      that IIS has confirmed are an initial part of the contents of the responses applied; and once
      the request has ended, they are all of them exactly when no write was reported as failed. */
  lemma ConfirmedExactly(labels: seq<Label>, c: string)
    requires c in Exec(labels).core.conns
    ensures var r := Exec(labels).core.conns[c];
            && (NoWriteFailed(r.h.outcomes) ==> Confirmed(r.h.outcomes) <= Contents(r.h.applied))
            && (Ended(r) ==> (Confirmed(r.h.outcomes) == Contents(r.h.applied) <==> NoWriteFailed(r.h.outcomes)))
  {
    var r := Exec(labels).core.conns[c];
    StreamingInOrder(labels, c);
    ReportsFollowWrites(labels, c);
    NothingEmptyReported(labels, c);
    ConfirmedLength(r.h.outcomes);
  }

  /** A request that succeeded, with no failure reported either, has all its bytes confirmed. */
  lemma SucceededIsConfirmed(labels: seq<Label>, c: string)
    requires c in Exec(labels).core.conns && Succeeded(Exec(labels).core.conns[c])
    ensures var h := Exec(labels).core.conns[c].h; Confirmed(h.outcomes) == Contents(h.applied)
  {
    ConfirmedExactly(labels, c);
  }

  /** The client's stream is an initial part of `response`, all of it at the end: as handed to IIS
      in any case, as confirmed by IIS exactly if no write failed. */
  predicate Delivered(r: Connection, response: Bytes) {
    && Written(r.h.trace) <= response
    && (NoWriteFailed(r.h.outcomes) ==> Confirmed(r.h.outcomes) <= response)
    && (Ended(r) ==> Written(r.h.trace) == response)
    && (Ended(r) ==> (Confirmed(r.h.outcomes) == response <==> NoWriteFailed(r.h.outcomes)))
  }

  /** If nothing sent to the channel was lost, what is delivered is the response that was sent to
      it: the contents up to and including the first message without more content. */
  lemma ConfirmedResponse(labels: seq<Label>, c: string)
    requires c in Exec(labels).core.conns && HistoryOf(Exec(labels).core, c).Lossless()
    ensures var core := Exec(labels).core;
            && AllResponses(SentOn(core, c))
            && Delivered(core.conns[c], Contents(UpToFinal(Unpacked(SentOn(core, c)))))
  {
    StreamingComplete(labels, c);
    ReportsFollowWrites(labels, c);
    NothingEmptyReported(labels, c);
    ConfirmedLength(Exec(labels).core.conns[c].h.outcomes);
  }

  /** Whatever was lost, what is delivered is the response that the messages passed on spell out. */
  lemma ConfirmedPassed(labels: seq<Label>, c: string)
    requires c in Exec(labels).core.conns
    ensures var core := Exec(labels).core;
            && AllResponses(HistoryOf(core, c).Passed())
            && Delivered(core.conns[c], Contents(UpToFinal(Unpacked(HistoryOf(core, c).Passed()))))
  {
    StreamingPassed(labels, c);
    ReportsFollowWrites(labels, c);
    NothingEmptyReported(labels, c);
    ConfirmedLength(Exec(labels).core.conns[c].h.outcomes);
  }

  /** In every schedule: a confirmed write is at its place in the client's stream, behind exactly
      the bytes that were written before it, if and only if none of the writes before it failed. */
  lemma ConfirmedInPlace(labels: seq<Label>, c: string, k: nat)
    requires c in Exec(labels).core.conns && k <= |Exec(labels).core.conns[c].h.outcomes|
    ensures var r := Exec(labels).core.conns[c];
            var before := r.h.outcomes[..k];
            && Written(Reported(before)) <= Contents(r.h.applied)
            && (|Confirmed(before)| == |Written(Reported(before))| <==> NoWriteFailed(before))
            && (NoWriteFailed(before) ==> Confirmed(before) == Written(Reported(before)))
  {
    var outcomes := Exec(labels).core.conns[c].h.outcomes;
    StreamingInOrder(labels, c);
    ReportsFollowWrites(labels, c);
    NothingEmptyReported(labels, c);
    EarlierReports(outcomes, k);
    ConfirmedLength(outcomes[..k]);
  }

  lemma EarlierReports(outcomes: seq<(Event, bool)>, k: nat)
    requires k <= |outcomes|
    ensures Written(Reported(outcomes[..k])) <= Written(Reported(outcomes))
    ensures NonEmptyWrites(Reported(outcomes)) ==> NonEmptyWrites(Reported(outcomes[..k]))
  {
    var calls := Reported(outcomes);
    assert Reported(outcomes[..k]) == calls[..k];
    assert calls == calls[..k] + calls[k..];
    WrittenOfConcat(calls[..k], calls[k..]);
  }

  // ----- A lost response -----

  lemma {:induction false} ScriptIsUnbroken(base: AsgiHttpRequestMsg, ms: seq<AsgiHttpResponseMsg>)
    ensures Broken !in Script(base, ms)
  {
    if ms != [] {
      ScriptIsUnbroken(base, Init(ms));
    }
  }

  lemma FailedFinalWrite(c: string, r: Connection, callbacks: map<string, string>, bytes: nat)
    requires ConnectionInv(c, r, c in callbacks) && r.status == Pending && r.h.step.WriteResponse?
    requires !r.h.step.response.value.moreContent
    ensures r.h.io == 1 && Broken !in r.h.trace
    ensures var w := World(r.h.(io := 0), callbacks);
            Complete(w, false, bytes) ==
            Driven(w.(h := w.h.Report(Wrote(r.h.step.response.value.content), false)), Finished)
  {
    ScriptIsUnbroken(r.base, Init(r.h.applied));
  }

  /** From any state in which IIS has accepted a request's final write and not yet reported on it:
      if the report is a failure, the request ends as if nothing had happened, and not all of its
      response is confirmed. */
  lemma FailedWriteIsSilent(labels: seq<Label>, c: string, bytes: nat)
    requires c in Exec(labels).core.conns
    requires var r := Exec(labels).core.conns[c];
             r.status == Pending && r.h.step.WriteResponse? && r.h.step.response.Some?
             && !r.h.step.response.value.moreContent
    ensures var after := Exec(labels + [IoCompletion(c, false, bytes)]).core;
            && c in after.conns && Ended(after.conns[c])
            && after.conns[c].h.applied == Exec(labels).core.conns[c].h.applied
            && Confirmed(after.conns[c].h.outcomes) != Contents(after.conns[c].h.applied)
  {
    var after := labels + [IoCompletion(c, false, bytes)];
    var h := Exec(labels).core.conns[c].h;
    FailedWriteEnds(labels, c, bytes);
    assert Exec(after).core.conns[c].h.outcomes[|h.outcomes|] == (Wrote(h.step.response.value.content), false);
    ConfirmedExactly(after, c);
  }

  lemma FailedWriteEnds(labels: seq<Label>, c: string, bytes: nat)
    requires c in Exec(labels).core.conns
    requires var r := Exec(labels).core.conns[c];
             r.status == Pending && r.h.step.WriteResponse? && r.h.step.response.Some?
             && !r.h.step.response.value.moreContent
    ensures var h, after := Exec(labels).core.conns[c].h, Exec(labels + [IoCompletion(c, false, bytes)]).core;
            && c in after.conns && Ended(after.conns[c])
            && after.conns[c].h == h.(io := 0).Report(Wrote(h.step.response.value.content), false)
  {
    var core, l := Exec(labels).core, IoCompletion(c, false, bytes);
    GoodAt(labels, c);
    FailedFinalWrite(c, core.conns[c], core.callbacks, bytes);
    assert Init(labels + [l]) == labels && Last(labels + [l]) == l;
  }

  // ----- Such a run -----

  const CHANNEL := "http.request!0"
  const REQUEST := AsgiHttpRequestMsg(CHANNEL, "1.1", "GET", "http", "/", "", "", [], "")
  const REPLY := AsgiHttpResponseMsg(200, [], "x", false)
  const ALWAYS_LATER: nat -> IisReply := _ => Async

  /** The request of the run, between two steps. */
  function At(step: Step, calls: nat, io: nat, sending: nat, applied: seq<AsgiHttpResponseMsg>, trace: seq<Event>,
      tasks: seq<Payload>, posted: nat): Connection
  {
    Connection(REQUEST, Handler(CHANNEL, "", ALWAYS_LATER, 0, calls, step, io, sending, [], applied, trace, []),
               Pending, tasks, posted)
  }

  const SENDING := At(SendToApplication(Some(REQUEST)), 0, 0, 1, [], [], [], 0)
  const SENT := At(SendToApplication(Some(REQUEST)), 0, 0, 0, [], [Sent(REQUEST)], [], 1)
  const WAITING := At(WaitForResponse(CHANNEL, None), 0, 0, 0, [], [Sent(REQUEST), AwaitReply], [], 0)
  const SCHEDULED := WAITING.(tasks := [Response(REPLY)])
  const ANSWERED := At(WaitForResponse(CHANNEL, Some(REPLY)), 0, 0, 0, [], [Sent(REQUEST), AwaitReply], [], 1)
  const WRITING :=
    At(WriteResponse(Some(REPLY), CHANNEL), 1, 1, 0, [REPLY],
       [Sent(REQUEST), AwaitReply, Applied(REPLY), Wrote("x")], [], 0)

  /** What matters of the state after `labels`. */
  ghost predicate Stage(labels: seq<Label>, r: Connection, callbacks: map<string, string>, pump: Pump,
      queue: seq<Payload>)
  {
    var s := Exec(labels);
    && CHANNEL in s.core.conns && s.core.conns[CHANNEL] == r && s.core.callbacks == callbacks && s.core.pump == pump
    && Queue(s, CHANNEL) == queue
  }

  lemma ExecSnoc(labels: seq<Label>, l: Label)
    ensures Exec(labels + [l]) == Next(Exec(labels), l)
  {
    assert Init(labels + [l]) == labels;
  }

  lemma Arrives()
    ensures Stage([Arrive(CHANNEL, REQUEST, "", ALWAYS_LATER)], SENDING, map[], Idle, [])
  {
    var l := Arrive(CHANNEL, REQUEST, "", ALWAYS_LATER);
    assert Init([l]) == [] && Exec([]) == INITIAL;
    var h := Handler(CHANNEL, "", ALWAYS_LATER, 0, 0, ReadBody(Some(REQUEST), 0), 0, 0, [], [], [], []);
    assert REQUEST.(body := seq(0, _ => '\0')) == REQUEST;
    assert Enter(World(h, map[])) == Outcome(World(h, map[]), GotoNext);
    assert REPLY_PREFIX == CHANNEL[..13];
    assert Enabled(INITIAL, l);
  }

  lemma IsSentOff(labels: seq<Label>)
    requires Stage(labels, SENDING, map[], Idle, [])
    ensures Stage(labels + [SendTask(CHANNEL, false)], SENT, map[], Idle, [])
  {
    ExecSnoc(labels, SendTask(CHANNEL, false));
  }

  lemma StartsWaiting(labels: seq<Label>)
    requires Stage(labels, SENT, map[], Idle, [])
    ensures Stage(labels + [PostedCompletion(CHANNEL)], WAITING, map[CHANNEL := CHANNEL], Idle, [])
  {
    var w := World(SENT.h, map[]);
    var next := w.(h := w.h.(step := WaitForResponse(CHANNEL, None)));
    assert Complete(w, true, 0) == Continue(Enter(next));
    assert Enter(next) == Outcome(World(WAITING.h, map[CHANNEL := CHANNEL]), AsyncPending);
    ExecSnoc(labels, PostedCompletion(CHANNEL));
  }

  lemma IsAnswered(labels: seq<Label>)
    requires Stage(labels, WAITING, map[CHANNEL := CHANNEL], Idle, [])
    ensures Stage(labels + [AppSend(CHANNEL, REPLY, false)], WAITING, map[CHANNEL := CHANNEL], Idle, [Response(REPLY)])
  {
    ExecSnoc(labels, AppSend(CHANNEL, REPLY, false));
  }

  lemma IsSnapped(labels: seq<Label>)
    requires Stage(labels, WAITING, map[CHANNEL := CHANNEL], Idle, [Response(REPLY)])
    ensures Stage(labels + [Snapshot], WAITING, map[CHANNEL := CHANNEL], Snapped({CHANNEL}), [Response(REPLY)])
  {
    ExecSnoc(labels, Snapshot);
    assert map[CHANNEL := CHANNEL].Keys == {CHANNEL};
  }

  lemma IsPopped(labels: seq<Label>)
    requires Stage(labels, WAITING, map[CHANNEL := CHANNEL], Snapped({CHANNEL}), [Response(REPLY)])
    ensures Stage(labels + [Pop(CHANNEL, true)], WAITING, map[CHANNEL := CHANNEL],
                  Holding(CHANNEL, Response(REPLY)), [])
  {
    ExecSnoc(labels, Pop(CHANNEL, true));
  }

  lemma IsDispatched(labels: seq<Label>)
    requires Stage(labels, WAITING, map[CHANNEL := CHANNEL], Holding(CHANNEL, Response(REPLY)), [])
    ensures Stage(labels + [Dispatch], SCHEDULED, map[], Idle, [])
  {
    ExecSnoc(labels, Dispatch);
  }

  lemma IsCalled(labels: seq<Label>)
    requires Stage(labels, SCHEDULED, map[], Idle, [])
    ensures Stage(labels + [CallbackTask(CHANNEL, 0)], ANSWERED, map[], Idle, [])
  {
    assert SCHEDULED.tasks == [Response(REPLY)] && SCHEDULED.tasks[..0] + SCHEDULED.tasks[1..] == [];
    ExecSnoc(labels, CallbackTask(CHANNEL, 0));
  }

  lemma StartsWriting(labels: seq<Label>)
    requires Stage(labels, ANSWERED, map[], Idle, [])
    ensures Stage(labels + [PostedCompletion(CHANNEL)], WRITING, map[], Idle, [])
  {
    var w := World(ANSWERED.h, map[]);
    var h := w.h.(applied := [REPLY]).Log(Applied(REPLY));
    assert OnAsyncCompletion(w, true, 0) == Outcome(w.(h := h), GotoNext) by {
      assert w.h.applied + [REPLY] == [REPLY] && REPLY.content != "";
    }
    var next := w.(h := h.(step := WriteResponse(Some(REPLY), CHANNEL)));
    assert Complete(w, true, 0) == Continue(Enter(next));
    assert Enter(next) == Outcome(World(WRITING.h, map[]), AsyncPending);
    ExecSnoc(labels, PostedCompletion(CHANNEL));
  }

  /** A run in which the application answers a request with one byte, the request ends, and IIS has
      confirmed nothing. */
  lemma LostResponse() returns (labels: seq<Label>)
    ensures CHANNEL in Exec(labels).core.conns
    ensures var r := Exec(labels).core.conns[CHANNEL];
            Ended(r) && r.h.applied == [REPLY] && Confirmed(r.h.outcomes) != Contents(r.h.applied)
  {
    labels := [Arrive(CHANNEL, REQUEST, "", ALWAYS_LATER)];
    Arrives();
    IsSentOff(labels);
    labels := labels + [SendTask(CHANNEL, false)];
    StartsWaiting(labels);
    labels := labels + [PostedCompletion(CHANNEL)];
    IsAnswered(labels);
    labels := labels + [AppSend(CHANNEL, REPLY, false)];
    IsSnapped(labels);
    labels := labels + [Snapshot];
    IsPopped(labels);
    labels := labels + [Pop(CHANNEL, true)];
    IsDispatched(labels);
    labels := labels + [Dispatch];
    IsCalled(labels);
    labels := labels + [CallbackTask(CHANNEL, 0)];
    StartsWriting(labels);
    labels := labels + [PostedCompletion(CHANNEL)];
    FailedWriteIsSilent(labels, CHANNEL, 0);
    labels := labels + [IoCompletion(CHANNEL, false, 0)];
  }
}
