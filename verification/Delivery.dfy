/** What the invariant means for a client, the application and the pump: theorems about the
    state after any schedule. */
module Delivery {
  import opened AsgiMessages
  import opened HttpSteps
  import opened Connections
  import opened Ledger
  import opened Protocol
  import opened ProtocolInvariant

  predicate RemovesNothing(labels: seq<Label>) {
    forall i | 0 <= i < |labels| :: KeepsChannels(labels[i])
  }

  function Unpacked(ps: seq<Payload>): (ms: seq<AsgiHttpResponseMsg>)
    requires AllResponses(ps)
    ensures Responses(ms) == ps
  {
    seq(|ps|, i requires 0 <= i < |ps| => ps[i].response)
  }

  /** The request finished and IIS refused none of its calls: no read failed, and each write and
      flush was done at once or accepted. What IIS reported later of an accepted one is another
      matter, see Completions. */
  predicate Ended(r: Connection) {
    r.status == Finished && Broken !in r.h.trace
  }

  lemma GoodAt(labels: seq<Label>, c: string)
    ensures Good(c, ViewOf(Exec(labels), c))
    ensures RemovesNothing(labels) ==> Sound(ViewOf(Exec(labels), c))
  {
    InvAlways(labels);
  }

  // ----- Streaming -----

  /** A trace that stops in the middle of the round of response `m`, whose part before the
      round, with the application of `m`, is `start`. */
  predicate InTheMiddle(start: seq<Event>, m: AsgiHttpResponseMsg, trace: seq<Event>) {
    || trace == start + [Broken]
    || (m.moreContent && trace == start + (Writes(m) + [Broken]))
    || (m.moreContent && trace == start + (Writes(m) + [Flushed]))
    || (m.content != "" && trace == start + [Wrote(m.content)])
  }

  /** The start of the last round of `ms`. */
  function RoundStart(base: AsgiHttpRequestMsg, ms: seq<AsgiHttpResponseMsg>): seq<Event>
    requires ms != []
  {
    Script(base, Init(ms)) + [Applied(Last(ms))]
  }

  /** The traces of a request that has applied the responses `ms`. */
  predicate PossibleTrace(base: AsgiHttpRequestMsg, ms: seq<AsgiHttpResponseMsg>, trace: seq<Event>) {
    || trace == Script(base, ms)
    || (ms == [] && (trace == [] || trace == [Sent(base)] || trace == [Broken]))
    || (ms != [] && InTheMiddle(RoundStart(base, ms), Last(ms), trace))
  }

  lemma TraceCases(c: string, r: Connection, registered: bool)
    requires ConnectionInv(c, r, registered)
    ensures PossibleTrace(r.base, r.h.applied, r.h.trace)
    ensures r.h.applied != [] ==> Continuing(Init(r.h.applied))
    ensures Ended(r) ==> CompleteTrace(r.base, r.h)
  {
    if r.status == Finished && !CompleteTrace(r.base, r.h) {
      assert Last(r.h.trace) == Broken;
    }
  }

  /** The written bytes never run ahead of the responses applied so far, and all of these but the
      last announce more. When the request has ended, everything has been written and the last
      response was the final one. */
  lemma WrittenFollowsApplied(c: string, r: Connection, registered: bool)
    requires ConnectionInv(c, r, registered)
    ensures Written(r.h.trace) <= Contents(r.h.applied)
    ensures r.h.applied != [] ==> Continuing(Init(r.h.applied))
    ensures Ended(r) ==> Written(r.h.trace) == Contents(r.h.applied)
    ensures Ended(r) ==> r.h.applied != [] && !Last(r.h.applied).moreContent
  {
    TraceCases(c, r, registered);
    WrittenPrefix(r.base, r.h.applied, r.h.trace);
  }

  lemma WrittenPrefix(base: AsgiHttpRequestMsg, ms: seq<AsgiHttpResponseMsg>, trace: seq<Event>)
    requires PossibleTrace(base, ms, trace)
    ensures Written(trace) <= Contents(ms)
    ensures trace == Script(base, ms) ==> Written(trace) == Contents(ms)
  {
    ScriptWrites(base, ms);
    if ms != [] {
      RoundPrefixWrites(base, ms, trace);
    } else {
      assert Written([Sent(base)]) == "" && Written([Broken]) == "";
    }
  }

  /** In the middle of a round, either all of its content has been written or none. */
  lemma RoundPrefixWrites(base: AsgiHttpRequestMsg, ms: seq<AsgiHttpResponseMsg>, trace: seq<Event>)
    requires ms != []
    ensures var m := Last(ms);
            var start := RoundStart(base, ms);
            && (trace == start + [Broken] ==> Written(trace) == Contents(Init(ms)))
            && (trace == start + (Writes(m) + [Broken]) ==> Written(trace) == Contents(ms))
            && (trace == start + (Writes(m) + [Flushed]) ==> Written(trace) == Contents(ms))
            && (trace == start + [Wrote(m.content)] ==> Written(trace) == Contents(ms))
  {
    var m := Last(ms);
    var start := RoundStart(base, ms);
    ScriptWrites(base, Init(ms));
    WrittenOfConcat(Script(base, Init(ms)), [Applied(m)]);
    assert Written([Applied(m)]) == "";
    assert Written(start) == Contents(Init(ms));
    assert Contents(ms) == Contents(Init(ms)) + m.content;
    WrittenOfConcat(start, [Broken]);
    WrittenOfConcat(start, [Wrote(m.content)]);
    assert Written([Wrote(m.content)]) == m.content;
    forall e | e == Broken || e == Flushed
      ensures Written(start + (Writes(m) + [e])) == Contents(ms)
    {
      WrittenOfConcat(start, Writes(m) + [e]);
      WrittenOfConcat(Writes(m), [e]);
      assert Written(Writes(m)) == m.content;
      assert Written([e]) == "";
    }
  }

  lemma {:induction false} PrefixOfConcat(a: seq<AsgiHttpResponseMsg>, b: seq<AsgiHttpResponseMsg>)
    requires a <= b && (a != [] ==> Continuing(Init(a)))
    ensures a <= UpToFinal(b)
    ensures Contents(a) <= Contents(UpToFinal(b))
    ensures a != [] && !Last(a).moreContent ==> a == UpToFinal(b)
  {
    var rest := UpToFinal(b);
    if a != [] {
      var head, m := Init(a), Last(a);
      assert b == head + b[|head|..];
      UpToFinalExtends(head, b[|head|..]);
      assert b[|head|..][0] == m;
      assert head + [m] == a;
      assert head + UpToFinal(b[|head|..]) == rest;
    }
    assert rest == a + rest[|a|..];
    ContentsOfConcat(a, rest[|a|..]);
  }

  /** In every schedule, the responses a request has applied are an initial part of those that
      were passed on from its channel, in order, and the bytes written are an initial part of
      their contents. So a client never sees bytes of another channel, or out of order. */
  lemma StreamingInOrder(labels: seq<Label>, c: string)
    requires c in Exec(labels).core.conns
    ensures var s := Exec(labels);
            var r := s.core.conns[c];
            && Responses(r.h.applied) <= HistoryOf(s.core, c).Passed()
            && Written(r.h.trace) <= Contents(r.h.applied)
            && (Ended(r) ==> Written(r.h.trace) == Contents(r.h.applied))
  {
    var s := Exec(labels);
    GoodAt(labels, c);
    WrittenFollowsApplied(c, s.core.conns[c], c in s.core.callbacks);
  }

  /** A request that has applied an initial part of `all` has written an initial part of the
      response that `all` spells out, and all of it at the end. */
  lemma WritesUpToFinal(c: string, r: Connection, registered: bool, all: seq<AsgiHttpResponseMsg>)
    requires ConnectionInv(c, r, registered) && Responses(r.h.applied) <= Responses(all)
    ensures Written(r.h.trace) <= Contents(UpToFinal(all))
    ensures Ended(r) ==> Written(r.h.trace) == Contents(UpToFinal(all))
  {
    assert r.h.applied <= all by {
      forall i | 0 <= i < |r.h.applied| ensures r.h.applied[i] == all[i] {
        assert Responses(r.h.applied)[i] == Responses(all)[i];
      }
    }
    WrittenFollowsApplied(c, r, registered);
    PrefixOfConcat(r.h.applied, all);
  }

  lemma PassedAreResponses(labels: seq<Label>, c: string)
    requires c in Exec(labels).core.conns
    ensures AllResponses(HistoryOf(Exec(labels).core, c).Passed())
  {
    var h := HistoryOf(Exec(labels).core, c);
    GoodAt(labels, c);
    assert |REPLY_PREFIX| > |REQUEST_CHANNEL| && c != REQUEST_CHANNEL;
    forall i | 0 <= i < |h.Passed()| ensures h.Passed()[i].Response? {
      assert h.Passed()[i] in h.Passed();
      PassedWereTaken(h, h.Passed()[i]);
      assert h.Passed()[i] in SentOn(Exec(labels).core, c);
    }
  }

  /** In every schedule, whatever was lost: the bytes written are an initial part of the contents of
      the messages passed on to the request, up to and including the first without more content,
      and all of it once the request has ended. */
  lemma StreamingPassed(labels: seq<Label>, c: string)
    requires c in Exec(labels).core.conns
    ensures var s := Exec(labels);
            var r := s.core.conns[c];
            && AllResponses(HistoryOf(s.core, c).Passed())
            && var response := Contents(UpToFinal(Unpacked(HistoryOf(s.core, c).Passed())));
               && Written(r.h.trace) <= response
               && (Ended(r) ==> Written(r.h.trace) == response)
  {
    var s := Exec(labels);
    GoodAt(labels, c);
    PassedAreResponses(labels, c);
    WritesUpToFinal(c, s.core.conns[c], c in s.core.callbacks, Unpacked(HistoryOf(s.core, c).Passed()));
  }

  /** If nothing sent to the channel was lost, the bytes written are an initial part of the
      contents sent to that channel up to and including the first message without more content,
      and all of it once the request has ended. */
  lemma StreamingComplete(labels: seq<Label>, c: string)
    requires c in Exec(labels).core.conns && HistoryOf(Exec(labels).core, c).Lossless()
    ensures var s := Exec(labels);
            var r := s.core.conns[c];
            && AllResponses(SentOn(s.core, c))
            && var response := Contents(UpToFinal(Unpacked(SentOn(s.core, c))));
               && Written(r.h.trace) <= response
               && (Ended(r) ==> Written(r.h.trace) == response)
  {
    var s := Exec(labels);
    GoodAt(labels, c);
    LosslessPassesAll(HistoryOf(s.core, c));
    WritesUpToFinal(c, s.core.conns[c], c in s.core.callbacks, Unpacked(SentOn(s.core, c)));
  }

  // ----- Continuations -----

  /** In every schedule, no request dereferences a message it has given away, runs a completion
      without its response, or reaches WriteResponseStep's exception; a request has at most one
      continuation, and none once it has finished. Without removed channels, a pending request has
      exactly one. */
  lemma OneContinuation(labels: seq<Label>, c: string)
    requires c in Exec(labels).core.conns
    ensures var s := Exec(labels);
            var r := s.core.conns[c];
            var n := Continuations(r, c in s.core.callbacks);
            && r.status != Crashed && n <= 1
            && (r.status == Finished ==> n == 0)
            && (r.status == Pending && RemovesNothing(labels) ==> n == 1)
            && (r.posted > 0 && r.h.step.WaitForResponse? ==> r.h.step.response.Some?)
  {
    GoodAt(labels, c);
  }

  /** Without removed channels, the channels the pump took in its snapshot are
      still registered when it dispatches: the branch that drops a message is never taken. */
  lemma SnapshotStaysRegistered(labels: seq<Label>, c: string)
    requires RemovesNothing(labels)
    ensures var core := Exec(labels).core;
            && (core.pump.Snapped? && c in core.pump.names ==> c in core.callbacks)
            && (core.pump.Holding? && core.pump.channel == c ==> c in core.callbacks)
  {
    GoodAt(labels, c);
  }

  /** A driver call takes no registration away. */
  lemma {:induction false} DriveKeepsRegistered(w: World, result: StepResult, c: string)
    requires c in w.callbacks
    ensures c in Drive(w, result).w.callbacks
    decreases Fuel(w.h.step, result)
  {
    var next := if result == GotoNext then NextStep(w.h.step) else Some(w.h.step);
    if (result == GotoNext && next.Some?) || result == Rerun {
      var out := Enter(w.(h := w.h.(step := next.value)));
      if out.Outcome? {
        DriveKeepsRegistered(out.w, out.result, c);
      }
    }
  }

  lemma CompleteKeepsRegistered(w: World, ok: bool, bytes: nat, c: string)
    requires c in w.callbacks
    ensures c in Complete(w, ok, bytes).w.callbacks
  {
    var out := OnAsyncCompletion(w, ok, bytes);
    if out.Outcome? {
      DriveKeepsRegistered(out.w, out.result, c);
    }
  }

  lemma AcceptKeepsRegistered(core: Core, l: Label, c: string)
    requires l.Arrive? && c in core.callbacks
    ensures c in Accept(core, l.channel, l.request, l.entity, l.oracle).callbacks
  {
    var w := World(FirstHandler(l.request.(replyChannel := l.channel), l.entity, l.oracle), core.callbacks);
    var out := Enter(w);
    if out.Outcome? {
      DriveKeepsRegistered(out.w, out.result, c);
    }
  }

  lemma RunsKeepRegistered(core: Core, d: string, ok: bool, bytes: nat, c: string)
    requires d in core.conns && c in core.callbacks
    ensures core.conns[d].posted > 0 ==> c in RunPosted(core, d).callbacks
    ensures core.conns[d].h.io > 0 ==> c in RunIo(core, d, ok, bytes).callbacks
  {
    var r := core.conns[d];
    CompleteKeepsRegistered(World(r.h, core.callbacks), true, 0, c);
    var h := r.h.(io := if r.h.io > 0 then r.h.io - 1 else 0);
    CompleteKeepsRegistered(World(h, core.callbacks), ok, bytes, c);
    if CanRead(h) && h.Remaining() > 0 {
      var n := ReadSize(bytes, h.Remaining());
      CompleteKeepsRegistered(World(if ok then Deliver(h, n) else h, core.callbacks), ok, n, c);
    }
  }

  /** From every state: a registration ends only when its own channel's message is dispatched, or its own
      channel is removed. */
  lemma RegistrationEnds(s: State, l: Label, c: string)
    requires Enabled(s, l) && c in s.core.callbacks
    ensures c in Effect(s, l).core.callbacks <==>
              !(l.Dispatch? && s.core.pump.channel == c) && !(l.RemoveChannel? && l.channel == c)
  {
    match l
    case Arrive(_, _, _, _) => AcceptKeepsRegistered(s.core, l, c);
    case PostedCompletion(d) => RunsKeepRegistered(s.core, d, true, 0, c);
    case IoCompletion(d, ok, bytes) => RunsKeepRegistered(s.core, d, ok, bytes, c);
    case _ =>
  }

  function Registrations(trace: seq<Event>): nat {
    if trace == [] then 0 else Registrations(Init(trace)) + if Last(trace) == AwaitReply then 1 else 0
  }

  lemma {:induction false} RegistrationsOfConcat(a: seq<Event>, b: seq<Event>)
    ensures Registrations(a + b) == Registrations(a) + Registrations(b)
  {
    if b == [] {
      assert a + b == a;
    } else {
      assert Init(a + b) == a + Init(b);
      RegistrationsOfConcat(a, Init(b));
    }
  }

  lemma ShortRegistrations(e: Event, f: Event)
    ensures Registrations([e]) == if e == AwaitReply then 1 else 0
    ensures Registrations([e, f]) == (if e == AwaitReply then 1 else 0) + (if f == AwaitReply then 1 else 0)
  {
    assert Init([e, f]) == [e];
  }

  lemma {:induction false} ScriptRegistrations(base: AsgiHttpRequestMsg, ms: seq<AsgiHttpResponseMsg>)
    requires Continuing(ms)
    ensures Registrations(Script(base, ms)) == 1 + |ms|
  {
    if ms == [] {
      ShortRegistrations(Sent(base), AwaitReply);
    } else {
      var m := Last(ms);
      ScriptRegistrations(base, Init(ms));
      InRoundRegistrations(base, Init(ms), m, Writes(m));
      ShortRegistrations(Flushed, AwaitReply);
      var start := Script(base, Init(ms)) + [Applied(m)] + Writes(m);
      assert Script(base, ms) == start + [Flushed, AwaitReply];
      RegistrationsOfConcat(start, [Flushed, AwaitReply]);
    }
  }

  /** Events other than the wait do not register anything. */
  lemma InRoundRegistrations(base: AsgiHttpRequestMsg, ms: seq<AsgiHttpResponseMsg>, m: AsgiHttpResponseMsg,
      tail: seq<Event>)
    requires Registrations(Script(base, ms)) == 1 + |ms| && |tail| <= 2 && AwaitReply !in tail
    ensures Registrations(Script(base, ms) + [Applied(m)] + tail) == 1 + |ms|
  {
    var start := Script(base, ms) + [Applied(m)];
    RegistrationsOfConcat(Script(base, ms), [Applied(m)]);
    ShortRegistrations(Applied(m), Applied(m));
    RegistrationsOfConcat(start, tail);
    if |tail| == 1 {
      assert tail == [tail[0]];
      ShortRegistrations(tail[0], tail[0]);
    } else if |tail| == 2 {
      assert tail == [tail[0], tail[1]];
      ShortRegistrations(tail[0], tail[1]);
    }
  }

  /** How many registrations request `r` has used, the outstanding one included. */
  function Used(r: Connection, registered: bool): nat {
    |Absorbed(r)| + if registered then 1 else 0
  }

  lemma ConnectionRegistrations(c: string, r: Connection, registered: bool)
    requires ConnectionInv(c, r, registered)
    ensures Used(r, registered) <= Registrations(r.h.trace)
    ensures !(r.status == Pending && Continuations(r, registered) == 0) ==>
              Used(r, registered) == Registrations(r.h.trace)
  {
    if r.status == Pending && r.h.step.WaitForResponse? {
      ScriptRegistrations(r.base, r.h.applied);
    } else if r.h.applied == [] {
      EarlyRegistrations(c, r, registered);
    } else {
      LaterRegistrations(c, r, registered);
    }
  }

  /** Before it waits, a request has registered for nothing. */
  lemma EarlyRegistrations(c: string, r: Connection, registered: bool)
    requires ConnectionInv(c, r, registered) && r.h.applied == []
    requires !(r.status == Pending && r.h.step.WaitForResponse?)
    ensures Used(r, registered) == 0 == Registrations(r.h.trace)
  {
    ShortRegistrations(Broken, Broken);
    ShortRegistrations(Sent(r.base), Broken);
  }

  lemma LaterRegistrations(c: string, r: Connection, registered: bool)
    requires ConnectionInv(c, r, registered) && r.h.applied != []
    requires !(r.status == Pending && r.h.step.WaitForResponse?)
    ensures Used(r, registered) == |r.h.applied| == Registrations(r.h.trace)
  {
    RoundTail(c, r, registered);
    RoundRegistrations(r.base, r.h.applied, r.h.trace);
  }

  predicate EndsRound(base: AsgiHttpRequestMsg, ms: seq<AsgiHttpResponseMsg>, trace: seq<Event>, tail: seq<Event>)
    requires ms != []
  {
    |tail| <= 2 && AwaitReply !in tail && trace == Script(base, Init(ms)) + [Applied(Last(ms))] + tail
  }

  lemma RoundTail(c: string, r: Connection, registered: bool)
    requires ConnectionInv(c, r, registered) && r.h.applied != []
    requires !(r.status == Pending && r.h.step.WaitForResponse?)
    ensures Continuing(Init(r.h.applied)) && Used(r, registered) == |r.h.applied|
    ensures exists tail :: EndsRound(r.base, r.h.applied, r.h.trace, tail)
  {
    var (ms, m) := (r.h.applied, Last(r.h.applied));
    if r.status == Finished && r.h.trace == Script(r.base, ms) {
      assert Script(r.base, ms) == Script(r.base, Init(ms)) + [Applied(m)] + Writes(m);
      assert EndsRound(r.base, ms, r.h.trace, Writes(m));
    } else {
      TraceCases(c, r, registered);
      MiddleTail(r.base, ms, r.h.trace);
    }
  }

  lemma MiddleTail(base: AsgiHttpRequestMsg, ms: seq<AsgiHttpResponseMsg>, trace: seq<Event>)
    requires ms != [] && InTheMiddle(RoundStart(base, ms), Last(ms), trace)
    ensures exists tail :: EndsRound(base, ms, trace, tail)
  {
    var (start, m) := (RoundStart(base, ms), Last(ms));
    if trace == start + [Broken] {
      assert EndsRound(base, ms, trace, [Broken]);
    } else if trace == start + (Writes(m) + [Broken]) {
      assert EndsRound(base, ms, trace, Writes(m) + [Broken]);
    } else if trace == start + (Writes(m) + [Flushed]) {
      assert EndsRound(base, ms, trace, Writes(m) + [Flushed]);
    } else {
      assert EndsRound(base, ms, trace, [Wrote(m.content)]);
    }
  }

  /** A request that is not waiting has used up all its registrations but the initial one. */
  lemma RoundRegistrations(base: AsgiHttpRequestMsg, ms: seq<AsgiHttpResponseMsg>, trace: seq<Event>)
    requires ms != [] && Continuing(Init(ms))
    requires exists tail :: EndsRound(base, ms, trace, tail)
    ensures Registrations(trace) == |ms|
  {
    var tail :| EndsRound(base, ms, trace, tail);
    ScriptRegistrations(base, Init(ms));
    InRoundRegistrations(base, Init(ms), Last(ms), tail);
  }

  /** Each registration brings at most one message to the request, in every schedule; and without
      removed channels each has brought one or is still outstanding. */
  lemma OneMessagePerRegistration(labels: seq<Label>, c: string)
    requires c in Exec(labels).core.conns
    ensures var s := Exec(labels);
            var r := s.core.conns[c];
            var used := Used(r, c in s.core.callbacks);
            && used <= Registrations(r.h.trace)
            && (RemovesNothing(labels) ==> used == Registrations(r.h.trace))
  {
    GoodAt(labels, c);
    ConnectionRegistrations(c, Exec(labels).core.conns[c], c in Exec(labels).core.callbacks);
  }

  // ----- Steps that send and lose nothing -----

  /** A step that only moves requests along: nothing is sent, received or lost, and no request
      message goes to the application. */
  ghost predicate OnlyMovesRequests(core: Core, core': Core) {
    && core'.sent == core.sent && core'.history == core.history && core'.pump == core.pump
    && core'.conns.Keys == core.conns.Keys
    && forall c | c in core.conns ::
         && c in core'.conns
         && core'.conns[c].base == core.conns[c].base
         && IsSent(core'.conns[c].h.trace) == IsSent(core.conns[c].h.trace)
  }

  predicate MovesRequests(l: Label) {
    l.CallbackTask? || l.PostedCompletion? || l.IoCompletion?
  }

  lemma ResumeMovesOnly(core: Core, c: string, r: Connection, w: World, ok: bool, bytes: nat)
    requires c in core.conns && r.base == core.conns[c].base && IsSent(w.h.trace) == IsSent(core.conns[c].h.trace)
    ensures OnlyMovesRequests(core, Resume(core, c, r, Complete(w, ok, bytes)))
  {
  }

  lemma IoMovesOnly(core: Core, c: string, ok: bool, bytes: nat)
    requires c in core.conns && core.conns[c].h.io > 0
    ensures OnlyMovesRequests(core, RunIo(core, c, ok, bytes))
  {
    var r := core.conns[c];
    var h := r.h.(io := r.h.io - 1);
    if r.status == Pending {
      if !h.step.ReadBody? {
        ResumeMovesOnly(core, c, r, World(h, core.callbacks), ok, bytes);
      } else if CanRead(h) && h.Remaining() > 0 {
        var n := ReadSize(bytes, h.Remaining());
        ResumeMovesOnly(core, c, r, World(if ok then Deliver(h, n) else h, core.callbacks), ok, n);
      }
    }
  }

  lemma PostedMovesOnly(core: Core, c: string)
    requires c in core.conns && core.conns[c].posted > 0
    ensures OnlyMovesRequests(core, RunPosted(core, c))
  {
    var r := core.conns[c].(posted := core.conns[c].posted - 1);
    if r.status == Pending {
      ResumeMovesOnly(core, c, r, World(r.h, core.callbacks), true, 0);
    }
  }

  lemma CallbackMovesOnly(core: Core, c: string, k: nat)
    requires c in core.conns && k < |core.conns[c].tasks|
    ensures OnlyMovesRequests(core, RunCallback(core, c, k))
  {
  }

  lemma StepMovesOnly(s: State, l: Label)
    requires Enabled(s, l) && MovesRequests(l)
    ensures OnlyMovesRequests(s.core, Effect(s, l).core) && Effect(s, l).queues == s.queues
  {
    match l
    case IoCompletion(c, ok, bytes) => IoMovesOnly(s.core, c, ok, bytes);
    case PostedCompletion(c) => PostedMovesOnly(s.core, c);
    case CallbackTask(c, k) => CallbackMovesOnly(s.core, c, k);
  }

  // ----- Conservation -----

  /** In every schedule, every message ever sent to a reply channel is, in order, either gone
      with a recorded fate or still queued; and those passed on are, in order, applied, stored
      for the request or in a task, or held by the pump. */
  lemma Conservation(labels: seq<Label>, c: string)
    requires c in Exec(labels).core.conns
    ensures var s := Exec(labels);
            var h := HistoryOf(s.core, c);
            && SentOn(s.core, c) == h.Payloads() + Queue(s, c)
            && h.Passed() == Absorbed(s.core.conns[c]) + ViewOf(s, c).held
  {
    GoodAt(labels, c);
  }

  function Count(h: History<Payload>, fate: Fate): nat {
    if h.Start? then 0 else Count(h.earlier, fate) + if h.fate == fate then 1 else 0
  }

  lemma {:induction false} PurgedCounts(h: History<Payload>, ps: seq<Payload>)
    ensures Count(h.Purged(ps), Dropped) == Count(h, Dropped)
    ensures Count(h.Purged(ps), Expired) == Count(h, Expired) + |ps|
  {
    if ps != [] {
      PurgedCounts(h, ps[..|ps| - 1]);
    }
  }

  lemma {:induction false} LastDroppedCounts(h: History<Payload>)
    requires h.Passed() != []
    ensures Count(h.LastDropped(), Dropped) == Count(h, Dropped) + 1
    ensures Count(h.LastDropped(), Expired) == Count(h, Expired)
  {
    if h.fate != Ledger.Kept {
      LastDroppedCounts(h.earlier);
    }
  }

  /** The number of messages of channel `c` that step `l` finds expired. */
  function ExpiredBy(s: State, l: Label, c: string): nat {
    match l
    case AppSend(d, _, true) => if d == c then |Queue(s, c)| else 0
    case SendTask(_, true) => if c == REQUEST_CHANNEL then |Queue(s, c)| else 0
    case Pop(d, false) => if d == c then 1 else 0
    case _ => 0
  }

  /** A message is dropped only when it is dispatched and its channel has no callback, and counts
      as expired only when the store says so; no other step loses anything. */
  lemma LossesHaveCauses(labels: seq<Label>, l: Label, c: string)
    requires Enabled(Exec(labels), l)
    ensures var s := Exec(labels);
            var h, h' := HistoryOf(s.core, c), HistoryOf(Next(s, l).core, c);
            && Count(h', Dropped) == Count(h, Dropped)
                 + (if l.Dispatch? && s.core.pump.channel == c && c !in s.core.callbacks then 1 else 0)
            && Count(h', Expired) == Count(h, Expired) + ExpiredBy(s, l, c)
  {
    var s := Exec(labels);
    var h := HistoryOf(s.core, c);
    if MovesRequests(l) {
      StepMovesOnly(s, l);
    } else if l.Arrive? {
      ArrivalSendsNothing(s, l, c);
    } else if l.Dispatch? {
      DropCounts(labels, l, c);
    } else if l.SendTask? || l.AppSend? {
      DepositCounts(labels, l, c);
    }
  }

  lemma DepositCounts(labels: seq<Label>, l: Label, c: string)
    requires Enabled(Exec(labels), l) && (l.SendTask? || l.AppSend?)
    ensures var s := Exec(labels);
            var h, h' := HistoryOf(s.core, c), HistoryOf(Effect(s, l).core, c);
            Count(h', Dropped) == Count(h, Dropped) && Count(h', Expired) == Count(h, Expired) + ExpiredBy(s, l, c)
  {
    var s := Exec(labels);
    if l.SendTask? {
      SendTaskEffect(labels, l);
      var r := s.core.conns[l.channel];
      var core := Update(s.core, l.channel, AfterSendTask(r, r.base));
      RecordCounts(core, REQUEST_CHANNEL, Request(r.base), if l.purge then Queue(s, REQUEST_CHANNEL) else [], c);
    } else {
      RecordCounts(s.core, l.channel, Response(l.response), if l.purge then Queue(s, l.channel) else [], c);
    }
  }

  lemma RecordCounts(core: Core, d: string, p: Payload, lost: seq<Payload>, c: string)
    ensures var h, h' := HistoryOf(core, c), HistoryOf(Record(core, d, p, lost), c);
            && Count(h', Dropped) == Count(h, Dropped)
            && Count(h', Expired) == Count(h, Expired) + if c == d then |lost| else 0
  {
    PurgedCounts(HistoryOf(core, c), lost);
  }

  /** A send task finds the untouched request message, and nothing has happened before it. */
  lemma SendTaskEffect(labels: seq<Label>, l: Label)
    requires Enabled(Exec(labels), l) && l.SendTask?
    ensures var s := Exec(labels);
            var r := s.core.conns[l.channel];
            && r.h.trace == [] && r.base.replyChannel == l.channel
            && Effect(s, l) == Deposit(s, Update(s.core, l.channel, AfterSendTask(r, r.base)),
                                       REQUEST_CHANNEL, Request(r.base), l.purge)
  {
    var s := Exec(labels);
    GoodAt(labels, l.channel);
    SendTaskKeeps(l.channel, ViewOf(s, l.channel), s.core.conns[l.channel]);
  }

  lemma DropCounts(labels: seq<Label>, l: Label, c: string)
    requires Enabled(Exec(labels), l) && l.Dispatch?
    ensures var s := Exec(labels);
            var h, h' := HistoryOf(s.core, c), HistoryOf(Effect(s, l).core, c);
            && Count(h', Expired) == Count(h, Expired)
            && Count(h', Dropped) == Count(h, Dropped)
                 + (if s.core.pump.channel == c && c !in s.core.callbacks then 1 else 0)
  {
    var s := Exec(labels);
    if s.core.pump.channel == c && c !in s.core.callbacks {
      GoodAt(labels, c);
      DropKeeps(c, ViewOf(s, c), s.core.pump.data);
      LastDroppedCounts(HistoryOf(s.core, c));
    }
  }

  lemma {:induction false} LosslessCounts(h: History<Payload>)
    ensures h.Lossless() <==> Count(h, Expired) == 0 && Count(h, Dropped) == 0
  {
    if h.Then? {
      LosslessCounts(h.earlier);
    }
  }

  /** Without removed channels, nothing is ever dropped: a message is lost only by expiring. */
  lemma {:induction false} NothingDropped(labels: seq<Label>, c: string)
    requires RemovesNothing(labels)
    ensures Count(HistoryOf(Exec(labels).core, c), Dropped) == 0
    ensures HistoryOf(Exec(labels).core, c).Lossless() <==> Count(HistoryOf(Exec(labels).core, c), Expired) == 0
  {
    if labels != [] {
      NothingDropped(Init(labels), c);
      SnapshotStaysRegistered(Init(labels), c);
      if Enabled(Exec(Init(labels)), Last(labels)) {
        LossesHaveCauses(Init(labels), Last(labels), c);
      }
    }
    LosslessCounts(HistoryOf(Exec(labels).core, c));
  }

  // ----- The request side -----

  /** What was sent to the application on behalf of request `c`. */
  function RequestsOf(ps: seq<Payload>, c: string): seq<AsgiHttpRequestMsg> {
    if ps == [] then []
    else
      var p := Last(ps);
      RequestsOf(Init(ps), c) + if p.Request? && p.request.replyChannel == c then [p.request] else []
  }

  /** What should have been sent on behalf of `c` by now. */
  function Due(core: Core, c: string): seq<AsgiHttpRequestMsg> {
    if c in core.conns && IsSent(core.conns[c].h.trace) then [core.conns[c].base] else []
  }

  predicate SentOnce(core: Core, c: string) {
    RequestsOf(SentOn(core, REQUEST_CHANNEL), c) == Due(core, c)
  }

  /** The application receives the request exactly once, complete with the whole entity, and not
      before its send task has run. */
  lemma {:induction false} RequestSentOnce(labels: seq<Label>, c: string)
    ensures SentOnce(Exec(labels).core, c)
    ensures c in Exec(labels).core.conns ==>
              var r := Exec(labels).core.conns[c];
              r.base.replyChannel == c && r.base.body == r.h.entity
  {
    GoodAt(labels, c);
    if labels != [] {
      var s, l := Exec(Init(labels)), Last(labels);
      RequestSentOnce(Init(labels), c);
      if Enabled(s, l) {
        SendingKeepsSentOnce(Init(labels), l, c);
      }
    }
  }

  lemma SendingKeepsSentOnce(labels: seq<Label>, l: Label, c: string)
    requires Enabled(Exec(labels), l) && SentOnce(Exec(labels).core, c)
    ensures SentOnce(Effect(Exec(labels), l).core, c)
  {
    var s := Exec(labels);
    if l.SendTask? {
      SendTaskEffect(labels, l);
      SendTaskKeepsSentOnce(s, l.channel, l.purge, c);
    } else if l.AppSend? {
      AppSendKeepsSentOnce(s, l.channel, l.response, l.purge, c);
    } else {
      RequestsMove(s, l, c);
    }
  }

  lemma SendTaskKeepsSentOnce(s: State, d: string, purge: bool, c: string)
    requires d in s.core.conns && SentOnce(s.core, c)
    requires var r := s.core.conns[d]; r.h.sending > 0 && r.h.trace == [] && r.base.replyChannel == d
    ensures var r := s.core.conns[d];
            var core := Update(s.core, d, AfterSendTask(r, r.base));
            SentOnce(Deposit(s, core, REQUEST_CHANNEL, Request(r.base), purge).core, c)
  {
    RequestIsAdded(s.core, Request(s.core.conns[d].base), c);
    SendTaskIsDue(s.core, d, c);
  }

  lemma SendTaskIsDue(core: Core, d: string, c: string)
    requires d in core.conns
    requires core.conns[d].h.sending > 0 && core.conns[d].h.trace == []
    ensures var r := core.conns[d];
            Due(Update(core, d, AfterSendTask(r, r.base)), c) == if c == d then [r.base] else Due(core, c)
  {
    assert AfterSendTask(core.conns[d], core.conns[d].base).h.trace == [Sent(core.conns[d].base)];
  }

  lemma AppSendKeepsSentOnce(s: State, d: string, m: AsgiHttpResponseMsg, purge: bool, c: string)
    requires SentOnce(s.core, c)
    ensures SentOnce(Deposit(s, s.core, d, Response(m), purge).core, c)
  {
    RequestIsAdded(s.core, Response(m), c);
  }

  lemma RequestIsAdded(core: Core, p: Payload, c: string)
    ensures RequestsOf(SentOn(core, REQUEST_CHANNEL) + [p], c) ==
            RequestsOf(SentOn(core, REQUEST_CHANNEL), c)
            + if p.Request? && p.request.replyChannel == c then [p.request] else []
  {
    assert Init(SentOn(core, REQUEST_CHANNEL) + [p]) == SentOn(core, REQUEST_CHANNEL);
  }

  /** Steps that send nothing leave what was sent, and what should have been, as it was. */
  lemma RequestsMove(s: State, l: Label, c: string)
    requires Enabled(s, l) && !l.SendTask? && !l.AppSend?
    ensures var core' := Effect(s, l).core;
            SentOn(core', REQUEST_CHANNEL) == SentOn(s.core, REQUEST_CHANNEL) && Due(core', c) == Due(s.core, c)
  {
    if MovesRequests(l) {
      StepMovesOnly(s, l);
    } else if l.Arrive? {
      ArrivalSendsNothing(s, l, c);
    } else if l.Dispatch? {
      DispatchSendsNothing(s.core, c);
    }
  }

  lemma DispatchSendsNothing(core: Core, c: string)
    requires core.pump.Holding?
    ensures DispatchHeld(core).sent == core.sent && Due(DispatchHeld(core), c) == Due(core, c)
  {
  }

  lemma ArrivalSendsNothing(s: State, l: Label, c: string)
    requires Enabled(s, l) && l.Arrive?
    ensures var core' := Effect(s, l).core;
            && core'.sent == s.core.sent
            && (c != l.channel ==> (c in core'.conns <==> c in s.core.conns))
            && (c != l.channel && c in s.core.conns ==> core'.conns[c] == s.core.conns[c])
            && (c == l.channel ==> c in core'.conns && !IsSent(core'.conns[c].h.trace))
  {
  }

  /** Between two reads, what has been read and what remains fill the buffer exactly; the chunks
      read so far lie end to end from the start of the buffer; and a request that has gone on has
      read its whole entity that way. */
  lemma BodyReassembled(labels: seq<Label>, c: string)
    requires c in Exec(labels).core.conns && Exec(labels).core.conns[c].status == Pending
    ensures var r := Exec(labels).core.conns[c];
            if r.h.step.ReadBody? then
              && r.h.step.request.Some?
              && r.h.step.bytesRead + r.h.Remaining() == |r.h.step.request.value.body| == |r.h.entity|
              && r.h.step.request.value.body[..r.h.step.bytesRead] == r.h.entity[..r.h.step.bytesRead]
              && Contiguous(r.h.chunks, r.h.step.bytesRead)
            else Contiguous(r.h.chunks, |r.h.entity|)
  {
    GoodAt(labels, c);
  }

  // ----- The shape of a run -----

  /** In every schedule, up to a failed IIS call, a request's trace is an initial part of the
      script of the responses it has applied: send the request, wait, then for each response
      apply it, write its content if any, and flush and wait again if more is to come. A request
      that ended has followed the whole script. */
  lemma TraceFollowsScript(labels: seq<Label>, c: string)
    requires c in Exec(labels).core.conns
    ensures var r := Exec(labels).core.conns[c];
            && Unbroken(r.h.trace) <= Script(r.base, r.h.applied)
            && (Ended(r) ==> r.h.trace == Script(r.base, r.h.applied))
  {
    GoodAt(labels, c);
    ConnectionTrace(c, Exec(labels).core.conns[c], c in Exec(labels).core.callbacks);
  }

  function Unbroken(trace: seq<Event>): seq<Event> {
    if trace != [] && Last(trace) == Broken then Init(trace) else trace
  }

  lemma ConnectionTrace(c: string, r: Connection, registered: bool)
    requires ConnectionInv(c, r, registered)
    ensures Unbroken(r.h.trace) <= Script(r.base, r.h.applied)
    ensures Ended(r) ==> r.h.trace == Script(r.base, r.h.applied)
  {
    TraceCases(c, r, registered);
    UnbrokenPrefix(r.base, r.h.applied, r.h.trace);
  }

  lemma UnbrokenPrefix(base: AsgiHttpRequestMsg, ms: seq<AsgiHttpResponseMsg>, trace: seq<Event>)
    requires PossibleTrace(base, ms, trace)
    ensures Unbroken(trace) <= Script(base, ms)
  {
    if trace == Script(base, ms) {
      ScriptEndsUnbroken(base, ms);
    } else if ms != [] {
      MiddleUnbroken(base, ms, trace);
    } else {
      assert Init([Broken]) == [];
    }
  }

  lemma MiddleUnbroken(base: AsgiHttpRequestMsg, ms: seq<AsgiHttpResponseMsg>, trace: seq<Event>)
    requires ms != [] && InTheMiddle(RoundStart(base, ms), Last(ms), trace)
    ensures Unbroken(trace) <= Script(base, ms)
  {
    RoundTrace(RoundStart(base, ms), Last(ms), trace);
    assert Script(base, ms) == RoundStart(base, ms) + Ahead(Last(ms));
  }

  lemma ScriptEndsUnbroken(base: AsgiHttpRequestMsg, ms: seq<AsgiHttpResponseMsg>)
    ensures Unbroken(Script(base, ms)) == Script(base, ms)
  {
  }

  /** What a round does after applying its response. */
  function Ahead(m: AsgiHttpResponseMsg): seq<Event> {
    Writes(m) + if m.moreContent then [Flushed, AwaitReply] else []
  }

  lemma RoundTrace(start: seq<Event>, m: AsgiHttpResponseMsg, trace: seq<Event>)
    requires InTheMiddle(start, m, trace)
    ensures Unbroken(trace) <= start + Ahead(m)
  {
    if trace == start + [Broken] {
      assert Unbroken(trace) == start;
    } else if trace == start + (Writes(m) + [Broken]) {
      assert Unbroken(trace) == start + Writes(m);
      assert start + Ahead(m) == start + Writes(m) + (if m.moreContent then [Flushed, AwaitReply] else []);
    } else if trace == start + (Writes(m) + [Flushed]) {
      assert Unbroken(trace) == trace;
      assert start + Ahead(m) == trace + [AwaitReply];
    } else {
      assert Unbroken(trace) == trace;
      assert start + Ahead(m) == trace + if m.moreContent then [Flushed, AwaitReply] else [];
    }
  }
}
