/** Every step that is taken for a request brings it closer to its end: what single steps add, and
    a bound on their number in any schedule. What can always be reached, given what is stored and
    still alive, is in ProgressOverRedis. */
module Progress {
  import opened AsgiMessages
  import opened HttpSteps
  import opened Connections
  import opened Ledger
  import opened Protocol
  import opened ProtocolInvariant
  import opened Delivery

  // ----- What a driver call adds -----

  /** How far a request has come: what it has done, less what is left to read. */
  function Worth(h: Handler): int {
    |h.trace| - h.Remaining()
  }

  lemma CompletionGrows(w: World, ok: bool, bytes: nat)
    ensures Worth(OnAsyncCompletion(w, ok, bytes).w.h) >= Worth(w.h)
  {
  }

  /** A read that was answered at once, and its completion. */
  function ReadOnceMore(w: World): Outcome
    requires CanRead(w.h) && w.h.Remaining() > 0 && w.h.oracle(w.h.calls).Sync?
  {
    var n := ReadSize(w.h.oracle(w.h.calls).bytes, w.h.Remaining());
    OnAsyncCompletion(w.(h := Deliver(w.h.(calls := w.h.calls + 1), n)), true, n)
  }

  lemma ReadUnfolds(w: World)
    requires CanRead(w.h) && w.h.Remaining() > 0 && w.h.oracle(w.h.calls).Sync?
    ensures var out := ReadOnceMore(w);
            && ReadEntity(w) == (if out.Outcome? && out.result == Rerun then ReadEntity(out.w) else out)
            && Worth(out.w.h) >= Worth(w.h) && out.w.h.Remaining() < w.h.Remaining()
            && out.w.h.applied == w.h.applied && out.w.h.step.ReadBody?
  {
  }

  lemma {:induction false} ReadGrows(w: World)
    ensures Worth(ReadEntity(w).w.h) >= Worth(w.h)
    decreases w.h.Remaining()
  {
    var h := w.h;
    if h.Remaining() > 0 && CanRead(h) && h.oracle(h.calls).Sync? {
      var out := ReadOnceMore(w);
      ReadUnfolds(w);
      if out.Outcome? && out.result == Rerun {
        ReadGrows(out.w);
      }
    }
  }

  lemma EnterGrows(w: World)
    ensures Worth(Enter(w).w.h) >= Worth(w.h)
    ensures !w.h.step.ReadBody? && !w.h.step.SendToApplication? && Enter(w).Outcome? ==>
              Worth(Enter(w).w.h) > Worth(w.h)
  {
    match w.h.step
    case ReadBody(_, _) => ReadGrows(w);
    case WriteResponse(Some(m), _) => CallGrows(w, Wrote(m.content));
    case FlushResponse(_) => CallGrows(w, Flushed);
    case _ =>
  }

  lemma CallGrows(w: World, done: Event)
    requires (w.h.step.WriteResponse? || w.h.step.FlushResponse?) && !done.Sent?
    ensures Worth(Call(w, done).w.h) > Worth(w.h)
  {
  }

  lemma {:induction false} DriveGrows(w: World, result: StepResult)
    ensures Worth(Drive(w, result).w.h) >= Worth(w.h)
    decreases Fuel(w.h.step, result)
  {
    var next := if result == GotoNext then NextStep(w.h.step) else Some(w.h.step);
    if (result == GotoNext && next.Some?) || result == Rerun {
      var w' := w.(h := w.h.(step := next.value));
      EnterGrows(w');
      var out := Enter(w');
      if out.Outcome? {
        DriveGrows(out.w, out.result);
      }
    }
  }

  /** Going on to any step but sending adds to the trace. */
  lemma NextGrows(w: World)
    requires NextStep(w.h.step).Some? && !NextStep(w.h.step).value.SendToApplication?
    ensures var d := Drive(w, GotoNext); d.status == Crashed || Worth(d.w.h) > Worth(w.h)
  {
    var w' := w.(h := w.h.(step := NextStep(w.h.step).value));
    EnterGrows(w');
    var out := Enter(w');
    if out.Outcome? {
      DriveGrows(out.w, out.result);
    }
  }

  lemma PostedGrows(c: string, r: Connection, callbacks: map<string, string>)
    requires ConnectionInv(c, r, c in callbacks) && r.posted > 0
    ensures Worth(Complete(World(r.h, callbacks), true, 0).w.h) > Worth(r.h)
  {
    var w := World(r.h, callbacks);
    var out := OnAsyncCompletion(w, true, 0);
    PostedSettles(c, r, callbacks);
    if r.h.step.SendToApplication? {
      NextGrows(w);
    } else {
      DriveGrows(out.w, out.result);
    }
  }

  lemma IoGrows(c: string, r: Connection, callbacks: map<string, string>, ok: bool, bytes: nat)
    requires ConnectionInv(c, r, c in callbacks) && r.h.io > 0
    ensures r.h.step.ReadBody? ==> CanRead(r.h) && r.h.Remaining() > 0
    ensures var (w, n) := IoWorld(r, callbacks, ok, bytes);
            var d := Complete(w, ok, n);
            Worth(d.w.h) >= Worth(r.h) && (d.status == Finished || Worth(d.w.h) > Worth(r.h))
  {
    IoSettles(c, r, callbacks, ok, bytes);
    var (w, n) := IoWorld(r, callbacks, ok, bytes);
    var out := OnAsyncCompletion(w, ok, n);
    CompletionGrows(w, ok, n);
    DriveGrows(out.w, out.result);
    if !r.h.step.ReadBody? && out.result == GotoNext {
      NextGrows(out.w);
    }
  }

  lemma {:induction false} ReadAppliesNothing(w: World)
    requires w.h.step.ReadBody?
    ensures ReadEntity(w).w.h.applied == w.h.applied
    decreases w.h.Remaining()
  {
    var h := w.h;
    if h.Remaining() > 0 && CanRead(h) && h.oracle(h.calls).Sync? {
      var out := ReadOnceMore(w);
      ReadUnfolds(w);
      if out.Outcome? && out.result == Rerun {
        ReadAppliesNothing(out.w);
      }
    }
  }

  /** Once a response has been applied, the driver applies no other before it pauses. */
  lemma {:induction false} DriveAppliesNothing(w: World, result: StepResult)
    ensures Drive(w, result).w.h.applied == w.h.applied
    decreases Fuel(w.h.step, result)
  {
    var next := if result == GotoNext then NextStep(w.h.step) else Some(w.h.step);
    if (result == GotoNext && next.Some?) || result == Rerun {
      var w' := w.(h := w.h.(step := next.value));
      if next.value.ReadBody? {
        ReadAppliesNothing(w');
      }
      var out := Enter(w');
      if out.Outcome? {
        DriveAppliesNothing(out.w, out.result);
      }
    }
  }

  // ----- A request that IIS refuses nothing -----

  /** No call has been refused, and none ever will be. */
  ghost predicate Whole(h: Handler) {
    Broken !in h.trace && forall n :: !h.oracle(n).Failed?
  }

  lemma CompletionKeepsWhole(w: World, bytes: nat)
    requires Whole(w.h)
    ensures Whole(OnAsyncCompletion(w, true, bytes).w.h)
  {
  }

  lemma {:induction false} ReadKeepsWhole(w: World)
    requires Whole(w.h) && w.h.step.ReadBody?
    ensures Whole(ReadEntity(w).w.h)
    decreases w.h.Remaining()
  {
    var h := w.h;
    if h.Remaining() > 0 && CanRead(h) && h.oracle(h.calls).Sync? {
      var out := ReadOnceMore(w);
      ReadUnfolds(w);
      CompletionKeepsWhole(w.(h := Deliver(h.(calls := h.calls + 1),
                                           ReadSize(h.oracle(h.calls).bytes, h.Remaining()))),
                           ReadSize(h.oracle(h.calls).bytes, h.Remaining()));
      if out.Outcome? && out.result == Rerun {
        ReadKeepsWhole(out.w);
      }
    }
  }

  lemma CallKeepsWhole(w: World, done: Event)
    requires Whole(w.h) && (w.h.step.WriteResponse? || w.h.step.FlushResponse?) && !done.Sent? && done != Broken
    ensures Whole(Call(w, done).w.h)
  {
  }

  lemma EnterKeepsWhole(w: World)
    requires Whole(w.h)
    ensures Whole(Enter(w).w.h)
  {
    match w.h.step
    case ReadBody(_, _) => ReadKeepsWhole(w);
    case WriteResponse(Some(m), _) => CallKeepsWhole(w, Wrote(m.content));
    case FlushResponse(_) => CallKeepsWhole(w, Flushed);
    case _ =>
  }

  lemma {:induction false} DriveKeepsWhole(w: World, result: StepResult)
    requires Whole(w.h)
    ensures Whole(Drive(w, result).w.h)
    decreases Fuel(w.h.step, result)
  {
    var next := if result == GotoNext then NextStep(w.h.step) else Some(w.h.step);
    if (result == GotoNext && next.Some?) || result == Rerun {
      var w' := w.(h := w.h.(step := next.value));
      EnterKeepsWhole(w');
      var out := Enter(w');
      if out.Outcome? {
        DriveKeepsWhole(out.w, out.result);
      }
    }
  }

  lemma CompleteKeepsWhole(w: World, bytes: nat)
    requires Whole(w.h)
    ensures Whole(Complete(w, true, bytes).w.h)
  {
    CompletionKeepsWhole(w, bytes);
    var out := OnAsyncCompletion(w, true, bytes);
    if out.Outcome? {
      DriveKeepsWhole(out.w, out.result);
    }
  }

  // ----- What a step adds -----

  /** Request `c` is still being worked on. */
  predicate Going(labels: seq<Label>, c: string) {
    c in Exec(labels).core.conns && Exec(labels).core.conns[c].status == Pending
  }

  /** The request has moved on, and nothing was sent to it. */
  predicate Advanced(core: Core, core': Core, c: string) {
    && c in core.conns && c in core'.conns && SentOn(core', c) == SentOn(core, c)
    && Worth(core'.conns[c].h) >= Worth(core.conns[c].h)
    && (core'.conns[c].status == Finished || Worth(core'.conns[c].h) > Worth(core.conns[c].h))
  }

  lemma OneMore(labels: seq<Label>, l: Label)
    ensures Exec(labels + [l]) == Next(Exec(labels), l)
  {
    assert Init(labels + [l]) == labels;
  }

  /** An I/O completion runs the driver on the request that it is for. */
  lemma IoRuns(core: Core, c: string, ok: bool, bytes: nat)
    requires c in core.conns && core.conns[c].h.io > 0
    requires ConnectionInv(c, core.conns[c], c in core.callbacks)
    ensures core.conns[c].h.step.ReadBody? ==> CanRead(core.conns[c].h) && core.conns[c].h.Remaining() > 0
    ensures var (w, n) := IoWorld(core.conns[c], core.callbacks, ok, bytes);
            RunIo(core, c, ok, bytes) == Resume(core, c, core.conns[c], Complete(w, ok, n))
  {
    IoIsAwaited(c, core.conns[c], c in core.callbacks);
  }

  lemma IoAdvances(core: Core, c: string, ok: bool, bytes: nat)
    requires c in core.conns && core.conns[c].h.io > 0
    requires ConnectionInv(c, core.conns[c], c in core.callbacks)
    ensures core.conns[c].status == Pending
    ensures Advanced(core, RunIo(core, c, ok, bytes), c)
    ensures RunIo(core, c, ok, bytes).conns[c].tasks == core.conns[c].tasks
  {
    IoIsAwaited(c, core.conns[c], c in core.callbacks);
    IoRuns(core, c, ok, bytes);
    IoGrows(c, core.conns[c], core.callbacks, ok, bytes);
  }

  /** A posted completion runs the driver on the request that it is for. */
  lemma PostedRuns(core: Core, c: string)
    requires c in core.conns && core.conns[c].posted > 0
    requires ConnectionInv(c, core.conns[c], c in core.callbacks)
    ensures var r, core' := core.conns[c], RunPosted(core, c);
            var d := Complete(World(r.h, core.callbacks), true, 0);
            && c in core'.conns && core'.sent == core.sent && core'.conns[c].tasks == r.tasks
            && core'.conns[c].h == d.w.h && core'.conns[c].status == d.status
  {
    PostedSettles(c, core.conns[c], core.callbacks);
  }

  lemma PostedAdvances(core: Core, c: string)
    requires c in core.conns && core.conns[c].posted > 0
    requires ConnectionInv(c, core.conns[c], c in core.callbacks)
    ensures core.conns[c].status == Pending
    ensures Advanced(core, RunPosted(core, c), c)
    ensures RunPosted(core, c).conns[c].tasks == core.conns[c].tasks
  {
    PostedSettles(c, core.conns[c], core.callbacks);
    PostedRuns(core, c);
    PostedGrows(c, core.conns[c], core.callbacks);
  }

  lemma IoKeepsWhole(core: Core, c: string, bytes: nat)
    requires c in core.conns && core.conns[c].h.io > 0 && Whole(core.conns[c].h)
    requires ConnectionInv(c, core.conns[c], c in core.callbacks)
    ensures c in RunIo(core, c, true, bytes).conns && Whole(RunIo(core, c, true, bytes).conns[c].h)
  {
    IoRuns(core, c, true, bytes);
    var (w, n) := IoWorld(core.conns[c], core.callbacks, true, bytes);
    CompleteKeepsWhole(w, n);
  }

  lemma PostedKeepsWhole(core: Core, c: string)
    requires c in core.conns && core.conns[c].posted > 0 && Whole(core.conns[c].h)
    requires ConnectionInv(c, core.conns[c], c in core.callbacks)
    ensures c in RunPosted(core, c).conns && Whole(RunPosted(core, c).conns[c].h)
  {
    PostedRuns(core, c);
    CompleteKeepsWhole(World(core.conns[c].h, core.callbacks), 0);
  }

  /** The task of a request that has not been sent yet. */
  lemma SendDeposits(s: State, c: string, purge: bool)
    requires c in s.core.conns && s.core.conns[c].h.sending > 0 && s.core.conns[c].h.trace == []
    ensures var r := s.core.conns[c];
            var s' := Deposit(s, Update(s.core, c, AfterSendTask(r, r.base)), REQUEST_CHANNEL, Request(r.base), purge);
            && (c != REQUEST_CHANNEL ==> Advanced(s.core, s'.core, c) && Queue(s', c) == Queue(s, c))
            && s'.core.conns[c].tasks == r.tasks && s'.core.conns[c].h.trace == [Sent(r.base)]
  {
  }

  lemma SendAdvances(labels: seq<Label>, c: string, purge: bool)
    requires c in Exec(labels).core.conns && Exec(labels).core.conns[c].h.sending > 0
    ensures var s, s' := Exec(labels), Effect(Exec(labels), SendTask(c, purge));
            && s.core.conns[c].status == Pending && Advanced(s.core, s'.core, c)
            && s'.core.conns[c].tasks == s.core.conns[c].tasks && Queue(s', c) == Queue(s, c)
            && s'.core.conns[c].h.trace == [Sent(s.core.conns[c].base)]
  {
    SendTaskEffect(labels, SendTask(c, purge));
    SendDeposits(Exec(labels), c, purge);
    GoodAt(labels, c);
    assert |REPLY_PREFIX| > |REQUEST_CHANNEL| && c != REQUEST_CHANNEL;
  }

  /** The request has moved on; once sent it stays sent, and IIS has refused nothing new. */
  ghost predicate MovesOn(core: Core, core': Core, c: string) {
    && Advanced(core, core', c)
    && (IsSent(core.conns[c].h.trace) ==> IsSent(core'.conns[c].h.trace))
    && (Whole(core.conns[c].h) ==> Whole(core'.conns[c].h))
  }

  lemma IoMovesOn(core: Core, c: string, bytes: nat)
    requires c in core.conns && core.conns[c].h.io > 0
    requires ConnectionInv(c, core.conns[c], c in core.callbacks)
    ensures exists core' :: core' == RunIo(core, c, true, bytes) && MovesOn(core, core', c)
  {
    IoAdvances(core, c, true, bytes);
    IoMovesOnly(core, c, true, bytes);
    if Whole(core.conns[c].h) {
      IoKeepsWhole(core, c, bytes);
    }
    assert MovesOn(core, RunIo(core, c, true, bytes), c);
  }

  lemma PostedMovesOn(core: Core, c: string)
    requires c in core.conns && core.conns[c].posted > 0
    requires ConnectionInv(c, core.conns[c], c in core.callbacks)
    ensures exists core' :: core' == RunPosted(core, c) && MovesOn(core, core', c)
  {
    PostedAdvances(core, c);
    PostedMovesOnly(core, c);
    if Whole(core.conns[c].h) {
      PostedKeepsWhole(core, c);
    }
    assert MovesOn(core, RunPosted(core, c), c);
  }

  lemma SendMovesOn(labels: seq<Label>, c: string, purge: bool)
    requires c in Exec(labels).core.conns && Exec(labels).core.conns[c].h.sending > 0
    ensures exists core' ::
              && core' == Effect(Exec(labels), SendTask(c, purge)).core && MovesOn(Exec(labels).core, core', c)
              && IsSent(core'.conns[c].h.trace)
  {
    SendAdvances(labels, c, purge);
    SendTaskEffect(labels, SendTask(c, purge));
    assert MovesOn(Exec(labels).core, Effect(Exec(labels), SendTask(c, purge)).core, c);
  }

  /** The first scheduled callback of `c` has run. */
  function Called(r: Connection): Connection
    requires r.tasks != [] && r.tasks[0].Response? && r.h.step.WaitForResponse?
  {
    r.(h := r.h.(step := WaitForResponse(r.h.step.replyChannel, Some(r.tasks[0].response))),
       tasks := r.tasks[1..], posted := r.posted + 1)
  }

  lemma CallbackIsReady(labels: seq<Label>, c: string)
    requires c in Exec(labels).core.conns && Exec(labels).core.conns[c].tasks != []
    ensures var r := Exec(labels).core.conns[c];
            r.status == Pending && |r.tasks| == 1 && r.tasks[0].Response? && r.h.step.WaitForResponse?
  {
    GoodAt(labels, c);
    CallbackKeeps(c, ViewOf(Exec(labels), c), Exec(labels).core.conns[c], 0);
  }

  lemma CallbackRuns(core: Core, c: string)
    requires c in core.conns && core.conns[c].tasks != [] && core.conns[c].tasks[0].Response?
    requires core.conns[c].status == Pending && core.conns[c].h.step.WaitForResponse?
    ensures RunCallback(core, c, 0) == Update(core, c, Called(core.conns[c]))
  {
    assert core.conns[c].tasks[..0] + core.conns[c].tasks[1..] == core.conns[c].tasks[1..];
  }

  lemma CallbackCalls(labels: seq<Label>, c: string)
    requires c in Exec(labels).core.conns && Exec(labels).core.conns[c].tasks != []
    ensures var core := Exec(labels).core;
            var r := core.conns[c];
            && r.status == Pending && |r.tasks| == 1 && r.tasks[0].Response? && r.h.step.WaitForResponse?
            && RunCallback(core, c, 0) == Update(core, c, Called(r))
  {
    CallbackIsReady(labels, c);
    CallbackRuns(Exec(labels).core, c);
  }

  lemma PostedApplies(c: string, r: Connection, callbacks: map<string, string>)
    requires ConnectionInv(c, r, c in callbacks) && r.posted > 0 && r.h.step.WaitForResponse?
    ensures r.h.step.response.Some?
    ensures Complete(World(r.h, callbacks), true, 0).w.h.applied == r.h.applied + [r.h.step.response.value]
  {
    var out := OnAsyncCompletion(World(r.h, callbacks), true, 0);
    DriveAppliesNothing(out.w, out.result);
  }

  /** The completion posted by a callback applies the message that the callback stored. */
  lemma PostedResponse(labels: seq<Label>, c: string)
    requires c in Exec(labels).core.conns && Exec(labels).core.conns[c].posted > 0
    requires Exec(labels).core.conns[c].h.step.WaitForResponse?
    ensures var core, core' := Exec(labels).core, RunPosted(Exec(labels).core, c);
            var r := core.conns[c];
            && MovesOn(core, core', c) && r.h.step.response.Some?
            && core'.conns[c].h.applied == r.h.applied + [r.h.step.response.value]
  {
    var core := Exec(labels).core;
    GoodAt(labels, c);
    PostedMovesOn(core, c);
    PostedRuns(core, c);
    PostedApplies(c, core.conns[c], core.callbacks);
  }

  lemma CallbackNext(labels: seq<Label>, c: string)
    requires c in Exec(labels).core.conns && Exec(labels).core.conns[c].tasks != []
    ensures var core := Exec(labels).core;
            var r := core.conns[c];
            && r.tasks[0].Response? && r.h.step.WaitForResponse?
            && Exec(labels + [CallbackTask(c, 0)]).core == Update(core, c, Called(r))
  {
    CallbackCalls(labels, c);
    OneMore(labels, CallbackTask(c, 0));
  }

  lemma PostedEffect(s: State, c: string)
    requires c in s.core.conns && s.core.conns[c].posted > 0
    ensures Next(s, PostedCompletion(c)) == State(RunPosted(s.core, c), s.queues)
  {
    assert Enabled(s, PostedCompletion(c));
  }

  lemma PostedNext(labels: seq<Label>, c: string)
    requires c in Exec(labels).core.conns && Exec(labels).core.conns[c].posted > 0
    ensures Exec(labels + [PostedCompletion(c)]).core == RunPosted(Exec(labels).core, c)
  {
    OneMore(labels, PostedCompletion(c));
    PostedEffect(Exec(labels), c);
  }

  /** A scheduled callback and the completion it posts apply the message they bring. */
  lemma TaskApplies(labels: seq<Label>, c: string)
    requires c in Exec(labels).core.conns && Exec(labels).core.conns[c].tasks != []
    ensures var core := Exec(labels).core;
            var core' := Exec(labels + [CallbackTask(c, 0)] + [PostedCompletion(c)]).core;
            var r := core.conns[c];
            && MovesOn(core, core', c) && r.tasks[0].Response?
            && core'.conns[c].h.applied == r.h.applied + [r.tasks[0].response]
  {
    var called := labels + [CallbackTask(c, 0)];
    CallbackNext(labels, c);
    PostedResponse(called, c);
    PostedNext(called, c);
  }

  // ----- How much there is to do -----

  /** A script has two events, and at most four for each response. */
  lemma {:induction false} ScriptLength(base: AsgiHttpRequestMsg, ms: seq<AsgiHttpResponseMsg>)
    ensures |Script(base, ms)| <= 2 + 4 * |ms|
  {
    if ms != [] {
      ScriptLength(base, Init(ms));
    }
  }

  /** A request can only come so far with what has been sent to it. */
  lemma WorthIsBounded(labels: seq<Label>, c: string)
    requires c in Exec(labels).core.conns
    ensures Worth(Exec(labels).core.conns[c].h) <= 3 + 4 * |SentOn(Exec(labels).core, c)|
  {
    var s := Exec(labels);
    var r := s.core.conns[c];
    TraceFollowsScript(labels, c);
    ScriptLength(r.base, r.h.applied);
    StreamingInOrder(labels, c);
    Conservation(labels, c);
    LosslessPassesAll(HistoryOf(s.core, c));
  }

  /** What is left to do for request `c`, as a number of steps: for each stored message to be popped,
      dispatched and called back, and for the request to move on, with one more step to finish. */
  function Work(s: State, c: string): int
    requires c in s.core.conns
  {
    var r := s.core.conns[c];
    3 + 4 * |SentOn(s.core, c)| - Worth(r.h) + 3 * |Queue(s, c)| + 2 * |ViewOf(s, c).held| + |r.tasks|
    + if r.status == Pending then 1 else 0
  }

  /** The step is taken for request `c`. */
  predicate IsFor(s: State, l: Label, c: string) {
    match l
    case SendTask(d, _) => d == c
    case Pop(d, _) => d == c
    case Dispatch => s.core.pump.Holding? && s.core.pump.channel == c
    case CallbackTask(d, _) => d == c
    case PostedCompletion(d) => d == c
    case IoCompletion(d, _, _) => d == c
    case _ => false
  }

  /** No new message is sent to `c`. */
  predicate SendsNothingTo(more: seq<Label>, c: string) {
    forall i | 0 <= i < |more| :: more[i].AppSend? ==> more[i].channel != c
  }

  /** Of the steps `more` after `labels`, how many are taken for request `c`. */
  function StepsFor(labels: seq<Label>, more: seq<Label>, c: string): nat {
    if more == [] then 0
    else
      var s := Exec(labels + Init(more));
      StepsFor(labels, Init(more), c) + if Enabled(s, Last(more)) && IsFor(s, Last(more), c) then 1 else 0
  }

  lemma CompletionWorks(s: State, l: Label, c: string)
    requires c in s.core.conns && Enabled(s, l) && IsFor(s, l, c) && Good(c, ViewOf(s, c))
    requires l.PostedCompletion? || l.IoCompletion?
    ensures c in Effect(s, l).core.conns && Work(Effect(s, l), c) < Work(s, c)
  {
    CompletionLeavesPump(s, l, c);
    if l.PostedCompletion? {
      PostedAdvances(s.core, c);
    } else {
      IoAdvances(s.core, c, l.ok, l.bytes);
    }
  }

  /** A completion is a matter between the request and the driver. */
  lemma CompletionLeavesPump(s: State, l: Label, c: string)
    requires Enabled(s, l) && (l.PostedCompletion? || l.IoCompletion?)
    ensures var s' := Effect(s, l);
            && Queue(s', c) == Queue(s, c) && SentOn(s'.core, c) == SentOn(s.core, c)
            && ViewOf(s', c).held == ViewOf(s, c).held
  {
  }

  lemma SendWorks(labels: seq<Label>, c: string, purge: bool)
    requires c in Exec(labels).core.conns && Enabled(Exec(labels), SendTask(c, purge))
    ensures var s' := Effect(Exec(labels), SendTask(c, purge));
            c in s'.core.conns && Work(s', c) < Work(Exec(labels), c)
  {
    SendAdvances(labels, c, purge);
    SendTaskEffect(labels, SendTask(c, purge));
  }

  lemma PopWorks(s: State, l: Label, c: string)
    requires c in s.core.conns && Enabled(s, l) && IsFor(s, l, c) && l.Pop?
    ensures c in Effect(s, l).core.conns && Work(Effect(s, l), c) < Work(s, c)
  {
  }

  lemma DispatchWorks(s: State, c: string)
    requires c in s.core.conns && Enabled(s, Dispatch) && IsFor(s, Dispatch, c) && Good(c, ViewOf(s, c))
    ensures c in Effect(s, Dispatch).core.conns && Work(Effect(s, Dispatch), c) < Work(s, c)
  {
    DispatchView(s, c);
  }

  lemma CallbackWorks(labels: seq<Label>, l: Label, c: string)
    requires c in Exec(labels).core.conns && Enabled(Exec(labels), l) && IsFor(Exec(labels), l, c) && l.CallbackTask?
    ensures c in Effect(Exec(labels), l).core.conns && Work(Effect(Exec(labels), l), c) < Work(Exec(labels), c)
  {
    CallbackCalls(labels, c);
  }

  lemma StepWorks(labels: seq<Label>, l: Label, c: string)
    requires c in Exec(labels).core.conns && Enabled(Exec(labels), l) && IsFor(Exec(labels), l, c)
    ensures c in Effect(Exec(labels), l).core.conns && Work(Effect(Exec(labels), l), c) < Work(Exec(labels), c)
  {
    GoodAt(labels, c);
    match l
    case SendTask(_, purge) => SendWorks(labels, c, purge);
    case Pop(_, _) => PopWorks(Exec(labels), l, c);
    case Dispatch => DispatchWorks(Exec(labels), c);
    case CallbackTask(_, _) => CallbackWorks(labels, l, c);
    case _ => CompletionWorks(Exec(labels), l, c);
  }

  /** Nothing has changed for request `c`. */
  ghost predicate LeftAlone(core: Core, core': Core, c: string) {
    && c in core.conns && c in core'.conns && core'.conns[c] == core.conns[c]
    && core'.sent == core.sent && core'.pump == core.pump
  }

  lemma IoElsewhere(core: Core, d: string, ok: bool, bytes: nat, c: string)
    requires d in core.conns && core.conns[d].h.io > 0 && c in core.conns && d != c
    ensures LeftAlone(core, RunIo(core, d, ok, bytes), c)
  {
  }

  lemma PostedElsewhere(core: Core, d: string, c: string)
    requires d in core.conns && core.conns[d].posted > 0 && c in core.conns && d != c
    ensures LeftAlone(core, RunPosted(core, d), c)
  {
  }

  lemma CallbackElsewhere(core: Core, d: string, k: nat, c: string)
    requires d in core.conns && k < |core.conns[d].tasks| && c in core.conns && d != c
    ensures LeftAlone(core, RunCallback(core, d, k), c)
  {
  }

  /** A driver call or a callback of one request leaves the others alone. */
  lemma RequestStepElsewhere(s: State, l: Label, c: string)
    requires c in s.core.conns && Enabled(s, l) && !IsFor(s, l, c)
    requires l.PostedCompletion? || l.IoCompletion? || l.CallbackTask?
    ensures c in Effect(s, l).core.conns && Work(Effect(s, l), c) == Work(s, c)
  {
    match l
    case PostedCompletion(d) => PostedElsewhere(s.core, d, c);
    case IoCompletion(d, ok, bytes) => IoElsewhere(s.core, d, ok, bytes, c);
    case CallbackTask(d, k) => CallbackElsewhere(s.core, d, k, c);
    assert LeftAlone(s.core, Effect(s, l).core, c);
  }

  lemma SendElsewhere(labels: seq<Label>, l: Label, c: string)
    requires c in Exec(labels).core.conns && Enabled(Exec(labels), l) && !IsFor(Exec(labels), l, c)
    requires l.SendTask? || (l.AppSend? && l.channel != c)
    ensures c in Effect(Exec(labels), l).core.conns && Work(Effect(Exec(labels), l), c) == Work(Exec(labels), c)
  {
    var s := Exec(labels);
    GoodAt(labels, c);
    if l.SendTask? {
      var r := s.core.conns[l.channel];
      SendTaskEffect(labels, l);
      UpdateView(s, l.channel, AfterSendTask(r, r.base), c);
      DepositView(s, Update(s.core, l.channel, AfterSendTask(r, r.base)), REQUEST_CHANNEL, Request(r.base), l.purge, c);
      assert |REPLY_PREFIX| > |REQUEST_CHANNEL| && c != REQUEST_CHANNEL;
    } else {
      DepositView(s, s.core, l.channel, Response(l.response), l.purge, c);
    }
  }

  lemma PumpElsewhere(s: State, l: Label, c: string)
    requires c in s.core.conns && Enabled(s, l) && !IsFor(s, l, c)
    requires l.Pop? || l.PopNothing? || l.Snapshot? || l.RemoveChannel? || l.Arrive?
    ensures c in Effect(s, l).core.conns && Work(Effect(s, l), c) == Work(s, c)
  {
  }

  lemma DispatchElsewhere(s: State, c: string)
    requires c in s.core.conns && Enabled(s, Dispatch) && !IsFor(s, Dispatch, c)
    requires Good(s.core.pump.channel, ViewOf(s, s.core.pump.channel))
    ensures c in Effect(s, Dispatch).core.conns && Work(Effect(s, Dispatch), c) == Work(s, c)
  {
    DispatchView(s, c);
  }

  /** A step taken for others leaves what there is to do for `c`. */
  lemma OthersLeaveWork(labels: seq<Label>, l: Label, c: string)
    requires c in Exec(labels).core.conns && Enabled(Exec(labels), l) && !IsFor(Exec(labels), l, c)
    requires l.AppSend? ==> l.channel != c
    ensures c in Effect(Exec(labels), l).core.conns && Work(Effect(Exec(labels), l), c) == Work(Exec(labels), c)
  {
    var s := Exec(labels);
    match l
    case SendTask(_, _) => SendElsewhere(labels, l, c);
    case AppSend(_, _, _) => SendElsewhere(labels, l, c);
    case PostedCompletion(_) => RequestStepElsewhere(s, l, c);
    case IoCompletion(_, _, _) => RequestStepElsewhere(s, l, c);
    case CallbackTask(_, _) => RequestStepElsewhere(s, l, c);
    case Dispatch =>
      GoodAt(labels, s.core.pump.channel);
      DispatchElsewhere(s, c);
    case _ => PumpElsewhere(s, l, c);
  }

  lemma WorkIsNeverNegative(labels: seq<Label>, c: string)
    requires c in Exec(labels).core.conns
    ensures Work(Exec(labels), c) >= 0
  {
    WorthIsBounded(labels, c);
  }

  /** In every schedule, with any failures and any removed channels: as long as nothing new is sent
      to `c`, the steps taken for `c` are at most as many as there was work to do. */
  lemma {:induction false} StepsAreBounded(labels: seq<Label>, more: seq<Label>, c: string)
    requires c in Exec(labels).core.conns && SendsNothingTo(more, c)
    ensures c in Exec(labels + more).core.conns
    ensures StepsFor(labels, more, c) + Work(Exec(labels + more), c) <= Work(Exec(labels), c)
    ensures StepsFor(labels, more, c) <= Work(Exec(labels), c)
  {
    WorkIsNeverNegative(labels, c);
    if more == [] {
      assert labels + more == labels;
    } else {
      var before, l := labels + Init(more), Last(more);
      StepsAreBounded(labels, Init(more), c);
      assert labels + more == before + [l];
      OneMore(before, l);
      if Enabled(Exec(before), l) {
        if IsFor(Exec(before), l, c) {
          StepWorks(before, l, c);
        } else {
          OthersLeaveWork(before, l, c);
        }
      }
      WorkIsNeverNegative(labels + more, c);
    }
  }
}
