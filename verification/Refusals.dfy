/** What becomes of a request when IIS refuses one of its calls or reports that a read has failed; that
    what IIS reports is what is recorded; and that a finished request has finished for good. */
module Refusals {
  import opened AsgiMessages
  import opened HttpSteps
  import opened Connections
  import opened Protocol
  import opened ProtocolInvariant
  import opened Delivery
  import opened Completions
  import opened Progress
  import opened Arrivals

  /** IIS has refused one of the calls made so far. */
  predicate IsRefused(h: Handler) {
    exists i | 0 <= i < h.calls :: h.oracle(i).Failed?
  }

  lemma {:induction false} UnrefusedMeans(oracle: nat -> IisReply, calls: nat)
    ensures Unrefused(oracle, calls) <==> forall i | 0 <= i < calls :: !oracle(i).Failed?
  {
    if calls > 0 {
      UnrefusedMeans(oracle, calls - 1);
    }
  }

  /** The last call is the only one that can have been refused. */
  lemma RefusalCases(labels: seq<Label>, c: string)
    requires c in Exec(labels).core.conns
    ensures var r := Exec(labels).core.conns[c];
            && (IsRefused(r.h) ==> LastRefused(r.h) && r.status == Finished && BrokenTrace(r.base, r.h))
            && (!IsRefused(r.h) ==> Unrefused(r.h.oracle, r.h.calls))
  {
    var r := Exec(labels).core.conns[c];
    GoodAt(labels, c);
    UnrefusedMeans(r.h.oracle, r.h.calls);
    if LastRefused(r.h) {
      assert r.h.oracle(r.h.calls - 1).Failed?;
    }
  }

  lemma BrokenOnlyAtTheEnd(base: AsgiHttpRequestMsg, h: Handler)
    requires BrokenTrace(base, h)
    ensures h.trace != [] && Last(h.trace) == Broken && Broken !in Init(h.trace)
  {
    if h.applied != [] {
      var m := Last(h.applied);
      ScriptIsUnbroken(base, Init(h.applied));
      var start := Script(base, Init(h.applied)) + [Applied(m)];
      assert Init(start + [Broken]) == start;
      assert Init(start + (Writes(m) + [Broken])) == start + Writes(m);
    }
  }

  /** In every schedule: if IIS refused any call that a request has made, that was its last call, the
      request has finished there, and the failure is the end of its trace. A request has a failure on
      its trace after it was sent only if a call was refused; so one that ended was refused nothing. */
  lemma RefusedExactly(labels: seq<Label>, c: string)
    requires c in Exec(labels).core.conns
    ensures var r := Exec(labels).core.conns[c];
            && (IsRefused(r.h) ==>
                  && r.status == Finished && r.h.oracle(r.h.calls - 1).Failed?
                  && r.h.trace != [] && Last(r.h.trace) == Broken && Broken !in Init(r.h.trace))
            && (IsSent(r.h.trace) ==> (Broken in r.h.trace <==> IsRefused(r.h)))
            && (Ended(r) ==> !IsRefused(r.h))
  {
    var r := Exec(labels).core.conns[c];
    RefusalCases(labels, c);
    if IsRefused(r.h) {
      BrokenOnlyAtTheEnd(r.base, r.h);
    } else if IsSent(r.h.trace) {
      UnrefusedIsUnbroken(labels, c);
    }
  }

  lemma UnrefusedIsUnbroken(labels: seq<Label>, c: string)
    requires c in Exec(labels).core.conns && !IsRefused(Exec(labels).core.conns[c].h)
    requires IsSent(Exec(labels).core.conns[c].h.trace)
    ensures Broken !in Exec(labels).core.conns[c].h.trace
  {
    var r := Exec(labels).core.conns[c];
    GoodAt(labels, c);
    RefusalCases(labels, c);
    ScriptIsUnbroken(r.base, r.h.applied);
    if r.h.applied != [] {
      ScriptIsUnbroken(r.base, Init(r.h.applied));
    }
  }

  /** And what was refused is not there: a refused read is followed by nothing at all, a refused write
      is neither among the bytes handed to IIS nor among the calls reported, and a refused flush comes
      after exactly the response it was to flush. */
  lemma RefusedLeavesNothing(labels: seq<Label>, c: string)
    requires c in Exec(labels).core.conns && IsRefused(Exec(labels).core.conns[c].h)
    ensures var r := Exec(labels).core.conns[c];
            && Reported(r.h.outcomes) == Calls(r.h.trace)
            && match r.h.step
               case ReadBody(_, _) =>
                 r.h.trace == [Broken] && RequestsOf(SentOn(Exec(labels).core, REQUEST_CHANNEL), c) == []
               case WriteResponse(_, _) =>
                 && r.h.applied != [] && Last(r.h.applied).content != ""
                 && Written(r.h.trace) == Contents(Init(r.h.applied)) == Written(Reported(r.h.outcomes))
               case FlushResponse(_) =>
                 && r.h.applied != [] && Last(r.h.applied).moreContent
                 && Written(r.h.trace) == Contents(r.h.applied)
                 && r.h.trace == Script(r.base, Init(r.h.applied)) + [Applied(Last(r.h.applied))]
                                 + (Writes(Last(r.h.applied)) + [Broken])
               case _ => false
  {
    var r := Exec(labels).core.conns[c];
    RefusalCases(labels, c);
    RequestSentOnce(labels, c);
    ReportsAreCalls(labels, c);
    if r.h.applied != [] {
      RoundPrefixWrites(r.base, r.h.applied, r.h.trace);
      WrittenCalls(r.h.trace);
    }
  }

  lemma ReportsAreCalls(labels: seq<Label>, c: string)
    requires c in Exec(labels).core.conns && Exec(labels).core.conns[c].status == Finished
    ensures var h := Exec(labels).core.conns[c].h; Reported(h.outcomes) == Calls(h.trace)
  {
    TalliedAlways(labels, c);
  }

  // ----- What IIS reports is what is recorded -----

  /** From `before` to `after` only calls that were done at once have been added. */
  predicate OnlyDone(before: seq<(Event, bool)>, after: seq<(Event, bool)>) {
    before <= after && forall i | |before| <= i < |after| :: after[i].1
  }

  lemma {:induction false} ReadReportsNothing(w: World)
    requires w.h.step.ReadBody?
    ensures ReadEntity(w).w.h.outcomes == w.h.outcomes
    decreases w.h.Remaining()
  {
    var h := w.h;
    if h.Remaining() > 0 && CanRead(h) && h.oracle(h.calls).Sync? {
      var out := ReadOnceMore(w);
      ReadUnfolds(w);
      if out.Outcome? && out.result == Rerun {
        ReadReportsNothing(out.w);
      }
    }
  }

  lemma EnterReports(w: World)
    ensures OnlyDone(w.h.outcomes, Enter(w).w.h.outcomes)
  {
    if w.h.step.ReadBody? {
      ReadReportsNothing(w);
    }
  }

  lemma {:induction false} DriveReports(w: World, result: StepResult)
    ensures OnlyDone(w.h.outcomes, Drive(w, result).w.h.outcomes)
    decreases Fuel(w.h.step, result)
  {
    var next := if result == GotoNext then NextStep(w.h.step) else Some(w.h.step);
    if (result == GotoNext && next.Some?) || result == Rerun {
      var w' := w.(h := w.h.(step := next.value));
      EnterReports(w');
      var out := Enter(w');
      if out.Outcome? {
        DriveReports(out.w, out.result);
      }
    }
  }

  lemma CompletionReports(core: Core, c: string, ok: bool, bytes: nat)
    requires c in core.conns && core.conns[c].h.io > 0 && !core.conns[c].h.step.ReadBody?
    requires ConnectionInv(c, core.conns[c], c in core.callbacks)
    ensures var (h, core') := (core.conns[c].h, RunIo(core, c, ok, bytes));
            && InFlight(h.step) != [] && c in core'.conns
            && OnlyDone(h.outcomes + [(InFlight(h.step)[0], ok)], core'.conns[c].h.outcomes)
  {
    IoRuns(core, c, ok, bytes);
    IoIsAwaited(c, core.conns[c], c in core.callbacks);
    var (w, n) := IoWorld(core.conns[c], core.callbacks, ok, bytes);
    var out := OnAsyncCompletion(w, ok, n);
    DriveReports(out.w, out.result);
  }

  /** In every schedule: what IIS reports of a pending write or flush is recorded as reported, behind
      everything recorded before and in front of what the request then does at once. */
  lemma ReportsAreRecorded(labels: seq<Label>, c: string, ok: bool, bytes: nat)
    requires c in Exec(labels).core.conns
    requires var h := Exec(labels).core.conns[c].h; h.io > 0 && !h.step.ReadBody?
    ensures var h := Exec(labels).core.conns[c].h;
            var core := Exec(labels + [IoCompletion(c, ok, bytes)]).core;
            && InFlight(h.step) != [] && c in core.conns
            && OnlyDone(h.outcomes + [(InFlight(h.step)[0], ok)], core.conns[c].h.outcomes)
  {
    GoodAt(labels, c);
    CompletionReports(Exec(labels).core, c, ok, bytes);
    OneMore(labels, IoCompletion(c, ok, bytes));
    IoEffect(Exec(labels), c, ok, bytes);
  }

  // ----- Finished for good -----

  lemma DispatchElsewhereLeaves(core: Core, c: string)
    requires core.pump.Holding? && c in core.conns && c !in core.callbacks
    requires core.pump.channel in core.callbacks ==> core.callbacks[core.pump.channel] == core.pump.channel
    ensures c in DispatchHeld(core).conns && DispatchHeld(core).conns[c] == core.conns[c]
  {
  }

  lemma OthersMove(s: State, l: Label, c: string)
    requires Enabled(s, l) && (l.SendTask? || MovesRequests(l)) && c in s.core.conns && l.channel != c
    ensures var core := Effect(s, l).core; c in core.conns && core.conns[c] == s.core.conns[c]
  {
    match l
    case PostedCompletion(d) => PostedElsewhere(s.core, d, c);
    case IoCompletion(d, ok, bytes) => IoElsewhere(s.core, d, ok, bytes, c);
    case CallbackTask(d, k) => CallbackElsewhere(s.core, d, k, c);
    case _ =>
  }

  /** A finished request has nothing left that could run. */
  lemma NothingOutstanding(labels: seq<Label>, l: Label, c: string)
    requires Enabled(Exec(labels), l) && c in Exec(labels).core.conns && Exec(labels).core.conns[c].status == Finished
    ensures l.SendTask? || MovesRequests(l) ==> l.channel != c
    ensures c !in Exec(labels).core.callbacks
  {
    GoodAt(labels, c);
  }

  lemma FinishedIsLeft(labels: seq<Label>, l: Label, c: string)
    requires Enabled(Exec(labels), l) && c in Exec(labels).core.conns && Exec(labels).core.conns[c].status == Finished
    ensures var core := Effect(Exec(labels), l).core;
            c in core.conns && core.conns[c] == Exec(labels).core.conns[c]
  {
    var s := Exec(labels);
    NothingOutstanding(labels, l, c);
    if l.SendTask? || MovesRequests(l) {
      OthersMove(s, l, c);
    } else if l.Arrive? {
      AcceptedAsArrived(s, l);
    } else if l.Dispatch? {
      GoodAt(labels, s.core.pump.channel);
      DispatchElsewhereLeaves(s.core, c);
    }
  }

  /** In every schedule and every continuation: a request that has finished stays as it is, whatever
      arrives for it afterwards. */
  lemma {:induction false} FinishedForGood(labels: seq<Label>, more: seq<Label>, c: string)
    requires c in Exec(labels).core.conns && Exec(labels).core.conns[c].status == Finished
    ensures c in Exec(labels + more).core.conns
    ensures Exec(labels + more).core.conns[c] == Exec(labels).core.conns[c]
  {
    if more == [] {
      assert labels + more == labels;
    } else {
      FinishedForGood(labels, Init(more), c);
      assert labels + more == labels + Init(more) + [Last(more)];
      OneMore(labels + Init(more), Last(more));
      if Enabled(Exec(labels + Init(more)), Last(more)) {
        FinishedIsLeft(labels + Init(more), Last(more), c);
      }
    }
  }

  /** A read that IIS reports as failed ends the request: nothing else is ever done for it, and the
      application never hears of it. */
  lemma FailedReadEnds(labels: seq<Label>, c: string, bytes: nat, more: seq<Label>)
    requires c in Exec(labels).core.conns
    requires var h := Exec(labels).core.conns[c].h; h.io > 0 && h.step.ReadBody?
    ensures var core := Exec(labels + [IoCompletion(c, false, bytes)] + more).core;
            && c in core.conns && core.conns[c].status == Finished && core.conns[c].h.trace == [Broken]
            && RequestsOf(SentOn(core, REQUEST_CHANNEL), c) == []
  {
    var after := labels + [IoCompletion(c, false, bytes)];
    ReadFails(labels, c, bytes);
    FinishedForGood(after, more, c);
    RequestSentOnce(after + more, c);
  }

  lemma FailedReadFinishes(core: Core, c: string, bytes: nat)
    requires c in core.conns && core.conns[c].h.io > 0 && core.conns[c].h.step.ReadBody?
    requires ConnectionInv(c, core.conns[c], c in core.callbacks)
    ensures var core' := RunIo(core, c, false, bytes);
            c in core'.conns && core'.conns[c].status == Finished && core'.conns[c].h.trace == [Broken]
  {
    IoRuns(core, c, false, bytes);
    var (w, n) := IoWorld(core.conns[c], core.callbacks, false, bytes);
    AfterFailedRead(core.conns[c].base, w, n);
  }

  lemma IoEffect(s: State, c: string, ok: bool, bytes: nat)
    requires c in s.core.conns && s.core.conns[c].h.io > 0
    ensures Next(s, IoCompletion(c, ok, bytes)) == State(RunIo(s.core, c, ok, bytes), s.queues)
  {
    assert Enabled(s, IoCompletion(c, ok, bytes));
  }

  lemma ReadFails(labels: seq<Label>, c: string, bytes: nat)
    requires c in Exec(labels).core.conns
    requires var h := Exec(labels).core.conns[c].h; h.io > 0 && h.step.ReadBody?
    ensures var core := Exec(labels + [IoCompletion(c, false, bytes)]).core;
            c in core.conns && core.conns[c].status == Finished && core.conns[c].h.trace == [Broken]
  {
    GoodAt(labels, c);
    FailedReadFinishes(Exec(labels).core, c, bytes);
    OneMore(labels, IoCompletion(c, false, bytes));
    IoEffect(Exec(labels), c, false, bytes);
  }
}
