/** No wake-up is lost, on the real channel layer: what the server's own steps can always bring about
    depends on what is stored and still alive. A request can be taken to its end exactly if a message
    without more content has reached it or waits for it alive; otherwise it hangs. */
module ProgressOverRedis {
  import opened AsgiMessages
  import opened ChannelLayer
  import opened Redis
  import opened RedisChannelLayer
  import opened HttpSteps
  import opened Connections
  import opened Ledger
  import opened Protocol
  import opened ProtocolInvariant
  import opened Delivery
  import opened ProtocolOverRedis
  import opened RedisDelivery
  import opened Progress

  // ----- What can end a request -----

  predicate IsFinal(p: Payload) {
    p.Response? && !p.response.moreContent
  }

  predicate HasFinal(ps: seq<Payload>) {
    exists i :: 0 <= i < |ps| && IsFinal(ps[i])
  }

  /** What is stored and within its deadline. */
  function Alive(q: seq<Stamped<Payload>>, now: nat): seq<Payload> {
    if q == [] then []
    else Alive(Init(q), now) + if now <= Last(q).deadline then [Last(q).payload] else []
  }

  /** A message without more content has been passed on, or is stored alive. */
  ghost predicate FinalWaits(s: System, c: string) {
    HasFinal(HistoryOf(s.core, c).Passed()) || HasFinal(Alive(QueueOf(s, c), s.now))
  }

  lemma {:induction false} AliveOfTail(q: seq<Stamped<Payload>>, now: nat)
    requires q != []
    ensures Alive(q, now) == (if now <= q[0].deadline then [q[0].payload] else []) + Alive(q[1..], now)
  {
    if |q| == 1 {
      assert Init(q) == [] && q[1..] == [];
    } else {
      AliveOfTail(Init(q), now);
      assert Init(q)[1..] == Init(q[1..]);
    }
  }

  lemma {:induction false} LaterAlive(q: seq<Stamped<Payload>>, now: nat, later: nat)
    requires now <= later
    ensures HasFinal(Alive(q, later)) ==> HasFinal(Alive(q, now))
  {
    if q != [] {
      LaterAlive(Init(q), now, later);
      var (a, b) := (Alive(Init(q), now), Alive(Init(q), later));
      FinalOfConcat(a, if now <= Last(q).deadline then [Last(q).payload] else []);
      FinalOfConcat(b, if later <= Last(q).deadline then [Last(q).payload] else []);
    }
  }

  lemma FinalOfConcat(a: seq<Payload>, b: seq<Payload>)
    ensures HasFinal(a + b) <==> HasFinal(a) || HasFinal(b)
  {
    if i :| 0 <= i < |a| && IsFinal(a[i]) {
      assert (a + b)[i] == a[i];
    }
    if i :| 0 <= i < |b| && IsFinal(b[i]) {
      assert (a + b)[|a| + i] == b[i];
    }
  }

  // ----- What an action does to one queue -----

  /** From `s` to `s'` the clock may have gone on, the message that was passed on last may have been
      dropped, or the head of the queue may have left it: passed on if it was alive. */
  ghost predicate QueueMoves(s: System, s': System, c: string) {
    var (q, q') := (QueueOf(s, c), QueueOf(s', c));
    var (passed, passed') := (HistoryOf(s.core, c).Passed(), HistoryOf(s'.core, c).Passed());
    || (q' == q && s.now <= s'.now && passed' <= passed)
    || (s'.now == s.now && q != [] && q' == q[1..]
        && passed' == passed + if s.now <= q[0].deadline then [q[0].payload] else [])
  }

  lemma LocalQueue(s: System, a: Action, c: string)
    requires a.Local? && Possible(s, a)
    ensures QueueMoves(s, Perform(s, a), c)
  {
    LocalRecord(s.core, a.step, c);
  }

  lemma PutQueueOther(s: System, core: Core, d: string, p: Payload, dataKey: string, c: string)
    requires WellFormed(PREFIX, s.store, s.now) && IsChannelName(d) && IsDataKey(PREFIX, dataKey) && dataKey !in s.store
    requires core.history == s.core.history && c != d
    ensures QueueMoves(s, Put(s, core, d, p, dataKey), c)
  {
    SendAppends(PREFIX, s.store, s.now, d, p, dataKey);
  }

  lemma TaskSendQueue(s: System, a: Action, c: string)
    requires WellFormed(PREFIX, s.store, s.now) && a.TaskSend? && Possible(s, a) && c != REQUEST_CHANNEL
    ensures QueueMoves(s, Perform(s, a), c)
  {
    var r := s.core.conns[a.channel];
    if TaskSends(r).Some? {
      assert REQUEST_CHANNEL[4] == '.';
      var m := TaskSends(r).value;
      PutQueueOther(s, Update(s.core, a.channel, AfterSendTask(r, m)), REQUEST_CHANNEL, Request(m), a.dataKey, c);
    }
  }

  lemma ReceiveQueue(s: System, a: Action, c: string)
    requires WellFormed(PREFIX, s.store, s.now) && a.Receive? && Possible(s, a) && AllChannelNames(a.channels)
    ensures QueueMoves(s, Perform(s, a), c)
  {
    ReceiveTakesHead(PREFIX, s.store, s.now, a.channels, a.keys);
    var r := ReceiveFrom(PREFIX, s.store, s.now, a.keys).1;
    if r.Message? || r.Dead? {
      TakenPerformed(s, a, r.channel);
    }
  }

  lemma TickQueue(s: System, a: Action, c: string)
    requires WellFormed(PREFIX, s.store, s.now) && a.Tick?
    ensures QueueMoves(s, Perform(s, a), c)
  {
    QueuesAreSorted(PREFIX, s.store, s.now, s.now + a.seconds, c);
  }

  lemma RunSnoc(actions: seq<Action>, a: Action)
    ensures ProtocolOverRedis.Run(actions + [a]) == Perform(ProtocolOverRedis.Run(actions), a)
    ensures Labels(actions + [a]) == Labels(actions)
              + if LabelOf(ProtocolOverRedis.Run(actions), a).Some?
                then [LabelOf(ProtocolOverRedis.Run(actions), a).value] else []
  {
    assert Init(actions + [a]) == actions;
  }

  /** Every action but a send to `c` moves the queue of `c` in one of these ways, or not at all. */
  lemma ActionMovesQueue(actions: seq<Action>, a: Action, c: string)
    requires a.ApplicationSend? ==> a.channel != c
    requires c != REQUEST_CHANNEL
    ensures QueueMoves(ProtocolOverRedis.Run(actions), ProtocolOverRedis.Run(actions + [a]), c)
  {
    var s := ProtocolOverRedis.Run(actions);
    RunSnoc(actions, a);
    Simulation(actions);
    if Possible(s, a) {
      match a
      case Local(_) => LocalQueue(s, a, c);
      case TaskSend(_, _) => TaskSendQueue(s, a, c);
      case ApplicationSend(d, m, dataKey) =>
        PutQueueOther(s, s.core, d, Response(m), dataKey, c);
        assert Perform(s, a) == Put(s, s.core, d, Response(m), dataKey);
      case Receive(_, _) =>
        InvAlways(Labels(actions));
        ReplyChannelsAreNames(Exec(Labels(actions)), a.channels);
        ReceiveQueue(s, a, c);
      case Tick(_) => TickQueue(s, a, c);
    }
  }

  lemma FinalWaitedBefore(s: System, s': System, c: string)
    requires QueueMoves(s, s', c) && FinalWaits(s', c)
    ensures FinalWaits(s, c)
  {
    var (q, q') := (QueueOf(s, c), QueueOf(s', c));
    var (passed, passed') := (HistoryOf(s.core, c).Passed(), HistoryOf(s'.core, c).Passed());
    if q' == q && passed' <= passed {
      LaterAlive(q, s.now, s'.now);
      FinalOfConcat(passed', passed[|passed'|..]);
      assert passed == passed' + passed[|passed'|..];
    } else {
      AliveOfTail(q, s.now);
      var head := if s.now <= q[0].deadline then [q[0].payload] else [];
      FinalOfConcat(head, Alive(q[1..], s.now));
      FinalOfConcat(passed, head);
    }
  }

  // ----- Without a final message a request hangs -----

  predicate SendsNothing(more: seq<Action>, c: string) {
    forall i | 0 <= i < |more| :: more[i].ApplicationSend? ==> more[i].channel != c
  }

  lemma NotTheRequestChannel(actions: seq<Action>, c: string)
    requires c in ProtocolOverRedis.Run(actions).core.conns
    ensures c != REQUEST_CHANNEL
  {
    Simulation(actions);
    GoodAt(Labels(actions), c);
    assert |REPLY_PREFIX| > |REQUEST_CHANNEL|;
  }

  /** A request that has ended was passed a message without more content. */
  lemma EndedHadFinal(actions: seq<Action>, c: string)
    requires c in ProtocolOverRedis.Run(actions).core.conns && Ended(ProtocolOverRedis.Run(actions).core.conns[c])
    ensures FinalWaits(ProtocolOverRedis.Run(actions), c)
  {
    var core := ProtocolOverRedis.Run(actions).core;
    var r := core.conns[c];
    Simulation(actions);
    GoodAt(Labels(actions), c);
    WrittenFollowsApplied(c, r, c in core.callbacks);
    StreamingInOrder(Labels(actions), c);
    var n := |r.h.applied| - 1;
    assert HistoryOf(core, c).Passed()[n] == Responses(r.h.applied)[n] == Response(Last(r.h.applied));
  }

  lemma LocalKeepsRequest(core: Core, l: Label, c: string)
    requires Enabled(Bare(core), l) && IsLocal(l) && c in core.conns
    ensures c in Effect(Bare(core), l).core.conns
  {
    if MovesRequests(l) {
      StepMovesOnly(Bare(core), l);
    }
  }

  lemma RequestStays(actions: seq<Action>, a: Action, c: string)
    requires c in ProtocolOverRedis.Run(actions).core.conns
    ensures c in ProtocolOverRedis.Run(actions + [a]).core.conns
  {
    var s := ProtocolOverRedis.Run(actions);
    RunSnoc(actions, a);
    if a.Local? && Possible(s, a) {
      LocalKeepsRequest(s.core, a.step, c);
    } else {
      OthersKeepRequests(s, a, c);
    }
  }

  lemma OthersKeepRequests(s: System, a: Action, c: string)
    requires c in s.core.conns && (a.Local? ==> !Possible(s, a))
    ensures c in Perform(s, a).core.conns
  {
  }

  /** In every run and every continuation in which nothing new is sent to `c`: if the request ends
      then, a message without more content had been passed on before, or was stored alive. */
  lemma {:induction false} EndNeedsFinal(actions: seq<Action>, more: seq<Action>, c: string)
    requires c in ProtocolOverRedis.Run(actions).core.conns && SendsNothing(more, c)
    ensures c in ProtocolOverRedis.Run(actions + more).core.conns
    ensures FinalWaits(ProtocolOverRedis.Run(actions + more), c) ==> FinalWaits(ProtocolOverRedis.Run(actions), c)
    ensures Ended(ProtocolOverRedis.Run(actions + more).core.conns[c]) ==> FinalWaits(ProtocolOverRedis.Run(actions), c)
  {
    if more == [] {
      assert actions + more == actions;
    } else {
      var before := actions + Init(more);
      assert actions + more == before + [Last(more)];
      EndNeedsFinal(actions, Init(more), c);
      RequestStays(before, Last(more), c);
      NotTheRequestChannel(actions, c);
      ActionMovesQueue(before, Last(more), c);
      if FinalWaits(ProtocolOverRedis.Run(actions + more), c) {
        FinalWaitedBefore(ProtocolOverRedis.Run(before), ProtocolOverRedis.Run(actions + more), c);
      }
    }
    if Ended(ProtocolOverRedis.Run(actions + more).core.conns[c]) {
      EndedHadFinal(actions + more, c);
    }
  }

  lemma {:induction false} NothingAlive(q: seq<Stamped<Payload>>, now: nat)
    requires forall i | 0 <= i < |q| :: q[i].deadline < now
    ensures Alive(q, now) == []
  {
    if q != [] {
      NothingAlive(Init(q), now);
    }
  }

  /** A request to which nothing final has been passed on hangs once the time to live has gone by:
      whatever was stored for it, and whatever happens then, it never ends unless something new is
      sent to it. */
  lemma LateIsHopeless(actions: seq<Action>, c: string, seconds: nat, more: seq<Action>)
    requires c in ProtocolOverRedis.Run(actions).core.conns && seconds > 60 && SendsNothing(more, c)
    requires !HasFinal(HistoryOf(ProtocolOverRedis.Run(actions).core, c).Passed())
    ensures c in ProtocolOverRedis.Run(actions + [Tick(seconds)] + more).core.conns
    ensures !Ended(ProtocolOverRedis.Run(actions + [Tick(seconds)] + more).core.conns[c])
    ensures Labels(actions + [Tick(seconds)]) == Labels(actions)
  {
    TickKillsAll(actions, c, seconds);
    EndNeedsFinal(actions + [Tick(seconds)], more, c);
  }

  lemma TickIsSilent(actions: seq<Action>, seconds: nat)
    ensures var s := ProtocolOverRedis.Run(actions);
            ProtocolOverRedis.Run(actions + [Tick(seconds)]) == s.(now := s.now + seconds)
    ensures Labels(actions + [Tick(seconds)]) == Labels(actions)
  {
    RunSnoc(actions, Tick(seconds));
  }

  lemma DeadByThen(s: System, s': System, c: string)
    requires WellFormed(PREFIX, s.store, s.now) && s'.store == s.store && s.now + EXPIRY < s'.now
    ensures Alive(QueueOf(s', c), s'.now) == []
  {
    QueuesAreSorted(PREFIX, s.store, s.now, s'.now, c);
    NothingAlive(QueueOf(s', c), s'.now);
  }

  lemma StoreIsWellFormed(actions: seq<Action>)
    ensures WellFormed(PREFIX, ProtocolOverRedis.Run(actions).store, ProtocolOverRedis.Run(actions).now)
  {
    Simulation(actions);
  }

  lemma NothingWaits(s: System, s': System, c: string, seconds: nat)
    requires WellFormed(PREFIX, s.store, s.now) && seconds > EXPIRY && !HasFinal(HistoryOf(s.core, c).Passed())
    requires s' == s.(now := s.now + seconds)
    ensures !FinalWaits(s', c)
  {
    DeadByThen(s, s', c);
  }

  lemma TickKillsAll(actions: seq<Action>, c: string, seconds: nat)
    requires seconds > EXPIRY && !HasFinal(HistoryOf(ProtocolOverRedis.Run(actions).core, c).Passed())
    ensures !FinalWaits(ProtocolOverRedis.Run(actions + [Tick(seconds)]), c)
    ensures ProtocolOverRedis.Run(actions + [Tick(seconds)]).core == ProtocolOverRedis.Run(actions).core
    ensures Labels(actions + [Tick(seconds)]) == Labels(actions)
  {
    TickIsSilent(actions, seconds);
    StoreIsWellFormed(actions);
    NothingWaits(ProtocolOverRedis.Run(actions), ProtocolOverRedis.Run(actions + [Tick(seconds)]), c, seconds);
  }

  // ----- The server's own actions -----

  /** What the server and IIS can do by themselves, without a failure: time stands still and nothing
      is sent to a request. */
  predicate IsServerAction(a: Action) {
    match a
    case Local(IoCompletion(_, ok, _)) => ok
    case Local(l) => !l.Arrive? && !l.RemoveChannel?
    case TaskSend(_, _) => true
    case Receive(_, _) => true
    case _ => false
  }

  /** Server actions in which no request but `c` is sent to the application, with this data key. */
  predicate OwnActions(more: seq<Action>, c: string, key: string) {
    forall i | 0 <= i < |more| :: IsServerAction(more[i]) && (more[i].TaskSend? ==> more[i] == TaskSend(c, key))
  }

  lemma OwnConcat(a: seq<Action>, b: seq<Action>, c: string, key: string)
    requires OwnActions(a, c, key) && OwnActions(b, c, key)
    ensures OwnActions(a + b, c, key)
  {
  }

  lemma LastApart(actions: seq<Action>, more: seq<Action>)
    requires more != []
    ensures actions + more == actions + Init(more) + [Last(more)]
  {
  }

  lemma Regrouped(a: seq<Action>, b: seq<Action>, c: seq<Action>)
    ensures a + b + c == a + (b + c)
  {
  }

  /** The protocol's state during a run. */
  lemma CoreOf(actions: seq<Action>)
    ensures Exec(Labels(actions)).core == ProtocolOverRedis.Run(actions).core
    ensures Inv(Exec(Labels(actions)))
    ensures WellFormed(PREFIX, ProtocolOverRedis.Run(actions).store, ProtocolOverRedis.Run(actions).now)
  {
    Simulation(actions);
    InvAlways(Labels(actions));
  }

  lemma LocalMore(actions: seq<Action>, l: Label)
    requires IsLocal(l) && Enabled(Bare(ProtocolOverRedis.Run(actions).core), l)
    ensures Labels(actions + [Local(l)]) == Labels(actions) + [l]
    ensures var s := ProtocolOverRedis.Run(actions);
            ProtocolOverRedis.Run(actions + [Local(l)]) == s.(core := Effect(Bare(s.core), l).core)
    ensures Exec(Labels(actions) + [l]).core == ProtocolOverRedis.Run(actions + [Local(l)]).core
  {
    RunSnoc(actions, Local(l));
    CoreOf(actions + [Local(l)]);
  }

  // ----- One step further -----

  /** No time has passed, and request `c` has moved on. */
  ghost predicate Nearer(s: System, s': System, c: string) {
    s'.now == s.now && MovesOn(s.core, s'.core, c)
  }

  lemma IoMore(actions: seq<Action>, c: string)
    requires c in ProtocolOverRedis.Run(actions).core.conns && ProtocolOverRedis.Run(actions).core.conns[c].h.io > 0
    ensures var s := ProtocolOverRedis.Run(actions);
            var s' := ProtocolOverRedis.Run(actions + [Local(IoCompletion(c, true, 0))]);
            s'.store == s.store && Nearer(s, s', c)
  {
    CoreOf(actions);
    GoodAt(Labels(actions), c);
    LocalMore(actions, IoCompletion(c, true, 0));
    IoMovesOn(ProtocolOverRedis.Run(actions).core, c, 0);
  }

  lemma PostedMore(actions: seq<Action>, c: string)
    requires c in ProtocolOverRedis.Run(actions).core.conns && ProtocolOverRedis.Run(actions).core.conns[c].posted > 0
    ensures var s, s' := ProtocolOverRedis.Run(actions), ProtocolOverRedis.Run(actions + [Local(PostedCompletion(c))]);
            s'.store == s.store && Nearer(s, s', c)
  {
    CoreOf(actions);
    GoodAt(Labels(actions), c);
    LocalMore(actions, PostedCompletion(c));
    PostedMovesOn(ProtocolOverRedis.Run(actions).core, c);
  }

  lemma SendMore(actions: seq<Action>, c: string, key: string)
    requires c in ProtocolOverRedis.Run(actions).core.conns
    requires ProtocolOverRedis.Run(actions).core.conns[c].h.sending > 0
    requires IsDataKey(PREFIX, key) && key !in ProtocolOverRedis.Run(actions).store
    ensures var s, s' := ProtocolOverRedis.Run(actions), ProtocolOverRedis.Run(actions + [TaskSend(c, key)]);
            Nearer(s, s', c) && IsSent(s'.core.conns[c].h.trace)
  {
    var s := ProtocolOverRedis.Run(actions);
    var purge := Purges(s, REQUEST_CHANNEL);
    CoreOf(actions);
    SendMovesOn(Labels(actions), c, purge);
    SendTaskEffect(Labels(actions), SendTask(c, purge));
    RunSnoc(actions, TaskSend(c, key));
    CoreOf(actions + [TaskSend(c, key)]);
    OneMore(Labels(actions), SendTask(c, purge));
  }

  /** The callback task of `c` and the completion it posts. */
  function CallbackAndCompletion(c: string): seq<Action> {
    [Local(CallbackTask(c, 0)), Local(PostedCompletion(c))]
  }

  lemma CallMore(actions: seq<Action>, c: string)
    requires c in ProtocolOverRedis.Run(actions).core.conns && ProtocolOverRedis.Run(actions).core.conns[c].tasks != []
    ensures var s, s' := ProtocolOverRedis.Run(actions), ProtocolOverRedis.Run(actions + CallbackAndCompletion(c));
            var r := s.core.conns[c];
            && s'.store == s.store && Nearer(s, s', c) && r.tasks[0].Response?
            && s'.core.conns[c].h.applied == r.h.applied + [r.tasks[0].response]
  {
    var called := actions + [Local(CallbackTask(c, 0))];
    CoreOf(actions);
    CallbackNext(Labels(actions), c);
    LocalMore(actions, CallbackTask(c, 0));
    LocalMore(called, PostedCompletion(c));
    TaskApplies(Labels(actions), c);
    assert actions + CallbackAndCompletion(c) == called + [Local(PostedCompletion(c))];
  }

  // ----- The pump comes round to a channel -----

  /** Nothing has changed for request `c` and its channel. */
  ghost predicate Untouched(s: System, s': System, c: string) {
    && s'.now == s.now && c in s.core.conns && c in s'.core.conns && s'.core.conns[c] == s.core.conns[c]
    && (c in s'.core.callbacks <==> c in s.core.callbacks)
    && QueueOf(s', c) == QueueOf(s, c) && SentOn(s'.core, c) == SentOn(s.core, c)
  }

  /** Request `c` waits for a message that the pump does not hold. */
  predicate Waits(s: System, c: string) {
    && c in s.core.conns && c in s.core.callbacks
    && !(s.core.pump.Holding? && s.core.pump.channel == c)
  }

  /** Every set of channels can be listed. */
  lemma {:induction false} Listing(names: set<string>) returns (channels: seq<string>)
    ensures forall d :: d in channels <==> d in names
  {
    channels := [];
    if names != {} {
      var c :| c in names;
      var rest := Listing(names - {c});
      channels := rest + [c];
    }
  }

  /** With the key of `c` first, a receive on channels that include it looks there first. */
  lemma KeyFirst(channels: seq<string>, c: string) returns (keys: seq<string>)
    requires c in channels
    ensures keys != [] && keys[0] == PREFIX + c && IsShuffle(PREFIX, channels, keys)
  {
    var all := KeysFor(PREFIX, channels);
    var i :| 0 <= i < |channels| && channels[i] == c;
    var k := |channels| + i;
    assert all[k] == PREFIX + c;
    keys := [all[k]] + (all[..k] + all[k + 1..]);
    assert all == all[..k] + ([all[k]] + all[k + 1..]);
  }

  lemma FirstIsTaken(store: Keyspace<Payload>, now: nat, keys: seq<string>, c: string)
    requires WellFormed(PREFIX, store, now) && keys != [] && keys[0] == PREFIX + c
    requires Visible(Stored(PREFIX, store, now, c), now)
    ensures var q := Stored(PREFIX, store, now, c);
            ReceiveFrom(PREFIX, store, now, keys).1 ==
            if now <= q[0].deadline then Message(c, q[0].payload) else Dead(c)
  {
    VisibleIsLive(PREFIX, store, now, c);
    HeadPayload(PREFIX, store, now, c);
    assert keys[0][|PREFIX|..] == c;
  }

  lemma TransitiveUntouched(s: System, s': System, s'': System, c: string)
    requires Untouched(s, s', c) && Untouched(s', s'', c)
    ensures Untouched(s, s'', c)
  {
  }

  lemma HeldForOther(core: Core, c: string)
    requires core.pump.Holding? && core.pump.channel != c && c in core.conns
    requires core.pump.channel in core.callbacks ==> core.callbacks[core.pump.channel] == core.pump.channel
    ensures var core' := DispatchHeld(core);
            && core'.pump.Idle? && c in core'.conns && core'.conns[c] == core.conns[c] && core'.sent == core.sent
            && (c in core'.callbacks <==> c in core.callbacks)
  {
  }

  /** The pump dispatches what it holds for another channel. */
  lemma DispatchOther(actions: seq<Action>, c: string)
    requires var s := ProtocolOverRedis.Run(actions); Waits(s, c) && s.core.pump.Holding?
    ensures var s, s' := ProtocolOverRedis.Run(actions), ProtocolOverRedis.Run(actions + [Local(Dispatch)]);
            Untouched(s, s', c) && s'.core.pump.Idle?
  {
    var core := ProtocolOverRedis.Run(actions).core;
    CoreOf(actions);
    GoodAt(Labels(actions), core.pump.channel);
    HeldForOther(core, c);
    LocalMore(actions, Dispatch);
  }

  /** The pump takes a snapshot that includes a waiting channel. */
  lemma SnapshotIncludes(actions: seq<Action>, c: string)
    requires var s := ProtocolOverRedis.Run(actions); Waits(s, c) && s.core.pump.Idle?
    ensures var s, s' := ProtocolOverRedis.Run(actions), ProtocolOverRedis.Run(actions + [Local(Snapshot)]);
            Untouched(s, s', c) && s'.core.pump.Snapped? && c in s'.core.pump.names
  {
    LocalMore(actions, Snapshot);
  }

  /** A receive on channels that do not include `c`. */
  lemma ReceiveOthers(actions: seq<Action>, c: string) returns (a: Action)
    requires var s := ProtocolOverRedis.Run(actions); Waits(s, c) && s.core.pump.Snapped? && c !in s.core.pump.names
    ensures a.Receive?
    ensures var s, s' := ProtocolOverRedis.Run(actions), ProtocolOverRedis.Run(actions + [a]);
            Untouched(s, s', c) && !s'.core.pump.Snapped? && Waits(s', c)
  {
    var s := ProtocolOverRedis.Run(actions);
    var channels := Listing(s.core.pump.names);
    a := Receive(channels, KeysFor(PREFIX, channels));
    CoreOf(actions);
    ReplyChannelsAreNames(Exec(Labels(actions)), channels);
    RunSnoc(actions, a);
    OthersReceived(s, a, c);
  }

  lemma OthersReceived(s: System, a: Action, c: string)
    requires WellFormed(PREFIX, s.store, s.now) && a.Receive? && Possible(s, a) && AllChannelNames(a.channels)
    requires Waits(s, c) && c !in a.channels
    ensures Untouched(s, Perform(s, a), c) && !Perform(s, a).core.pump.Snapped? && Waits(Perform(s, a), c)
  {
    ReceiveTakesHead(PREFIX, s.store, s.now, a.channels, a.keys);
    var r := ReceiveFrom(PREFIX, s.store, s.now, a.keys).1;
    if r.Message? || r.Dead? {
      TakenPerformed(s, a, r.channel);
    }
  }

  /** How many of its steps the pump needs until its snapshot includes `c`. */
  function Turns(core: Core, c: string): nat {
    match core.pump
    case Idle => 1
    case Holding(_, _) => 2
    case Snapped(names) => if c in names then 0 else 3
  }

  lemma PumpTurns(actions: seq<Action>, c: string) returns (a: Action)
    requires Waits(ProtocolOverRedis.Run(actions), c) && Turns(ProtocolOverRedis.Run(actions).core, c) > 0
    ensures IsServerAction(a) && !a.TaskSend?
    ensures var s, s' := ProtocolOverRedis.Run(actions), ProtocolOverRedis.Run(actions + [a]);
            Untouched(s, s', c) && Waits(s', c) && Turns(s'.core, c) < Turns(s.core, c)
  {
    match ProtocolOverRedis.Run(actions).core.pump
    case Idle =>
      a := Local(Snapshot);
      SnapshotIncludes(actions, c);
    case Holding(_, _) =>
      a := Local(Dispatch);
      DispatchOther(actions, c);
    case Snapped(_) =>
      a := ReceiveOthers(actions, c);
  }

  /** The server's own actions bring the pump to a snapshot that includes a waiting channel. */
  lemma {:induction false} ComesRound(actions: seq<Action>, c: string, key: string) returns (more: seq<Action>)
    requires Waits(ProtocolOverRedis.Run(actions), c)
    ensures OwnActions(more, c, key)
    ensures var s, s' := ProtocolOverRedis.Run(actions), ProtocolOverRedis.Run(actions + more);
            Untouched(s, s', c) && Waits(s', c) && Turns(s'.core, c) == 0
    decreases Turns(ProtocolOverRedis.Run(actions).core, c)
  {
    if Turns(ProtocolOverRedis.Run(actions).core, c) == 0 {
      more := [];
      assert actions + more == actions;
    } else {
      var a := PumpTurns(actions, c);
      var rest := ComesRound(actions + [a], c, key);
      more := [a] + rest;
      Regrouped(actions, [a], rest);
      TransitiveUntouched(ProtocolOverRedis.Run(actions), ProtocolOverRedis.Run(actions + [a]),
                          ProtocolOverRedis.Run(actions + more), c);
    }
  }

  // ----- The head of a queue is taken -----

  predicate HeadIsAlive(q: seq<Stamped<Payload>>, now: nat)
    requires q != []
  {
    now <= q[0].deadline
  }

  /** A receive that looks at the key of `c` first takes the head of its queue. */
  lemma HeadReceived(s: System, a: Action, c: string)
    requires WellFormed(PREFIX, s.store, s.now) && a.Receive? && Possible(s, a) && AllChannelNames(a.channels)
    requires c in a.channels && a.keys != [] && a.keys[0] == PREFIX + c && Visible(QueueOf(s, c), s.now)
    ensures var q, s' := QueueOf(s, c), Perform(s, a);
            && s'.now == s.now && s'.core == Popped(s.core, c, q[0].payload, HeadIsAlive(q, s.now))
            && QueueOf(s', c) == q[1..]
  {
    FirstIsTaken(s.store, s.now, a.keys, c);
    ReceiveTakesHead(PREFIX, s.store, s.now, a.channels, a.keys);
    TakenPerformed(s, a, c);
  }

  lemma ReceiveHead(actions: seq<Action>, c: string) returns (a: Action)
    requires var s := ProtocolOverRedis.Run(actions);
             Waits(s, c) && Turns(s.core, c) == 0 && Visible(QueueOf(s, c), s.now)
    ensures a.Receive?
    ensures var s, s' := ProtocolOverRedis.Run(actions), ProtocolOverRedis.Run(actions + [a]);
            var q := QueueOf(s, c);
            && s'.now == s.now && s'.core == Popped(s.core, c, q[0].payload, HeadIsAlive(q, s.now))
            && QueueOf(s', c) == q[1..]
  {
    var s := ProtocolOverRedis.Run(actions);
    var channels := Listing(s.core.pump.names);
    var keys := KeyFirst(channels, c);
    a := Receive(channels, keys);
    CoreOf(actions);
    ReplyChannelsAreNames(Exec(Labels(actions)), channels);
    RunSnoc(actions, a);
    HeadReceived(s, a, c);
  }

  /** The message that the pump holds for a registered request becomes its only task. */
  lemma DispatchHead(actions: seq<Action>, c: string)
    requires var core := ProtocolOverRedis.Run(actions).core;
             c in core.conns && c in core.callbacks && core.pump.Holding? && core.pump.channel == c
    ensures var s, s' := ProtocolOverRedis.Run(actions), ProtocolOverRedis.Run(actions + [Local(Dispatch)]);
            && s'.store == s.store && s'.now == s.now && c in s'.core.conns && SentOn(s'.core, c) == SentOn(s.core, c)
            && s'.core.conns[c] == s.core.conns[c].(tasks := [s.core.pump.data])
  {
    CoreOf(actions);
    GoodAt(Labels(actions), c);
    LocalMore(actions, Dispatch);
    HeldForIt(ProtocolOverRedis.Run(actions).core, c);
  }

  lemma HeldForIt(core: Core, c: string)
    requires core.pump.Holding? && core.pump.channel == c && c in core.conns
    requires c in core.callbacks && core.callbacks[c] == c && core.conns[c].tasks == []
    ensures var core' := DispatchHeld(core);
            && c in core'.conns && core'.conns[c] == core.conns[c].(tasks := [core.pump.data])
            && core'.sent == core.sent
  {
  }

  /** The server's own actions up to the application of the message that the pump holds. */
  function DispatchAndCall(c: string): seq<Action> {
    [Local(Dispatch)] + CallbackAndCompletion(c)
  }

  lemma HeldIsApplied(actions: seq<Action>, c: string)
    requires var core := ProtocolOverRedis.Run(actions).core;
             c in core.conns && c in core.callbacks && core.pump.Holding? && core.pump.channel == c
    ensures var s, s' := ProtocolOverRedis.Run(actions), ProtocolOverRedis.Run(actions + DispatchAndCall(c));
            && s'.store == s.store && Nearer(s, s', c) && s.core.pump.data.Response?
            && s'.core.conns[c].h.applied == s.core.conns[c].h.applied + [s.core.pump.data.response]
  {
    var dispatched := actions + [Local(Dispatch)];
    DispatchHead(actions, c);
    CallMore(dispatched, c);
    Regrouped(actions, [Local(Dispatch)], CallbackAndCompletion(c));
  }

  /** From `s` to `s'` the head of the queue of `c` was taken: a live one was applied, and a dead one
      is gone, with the request still registered. */
  ghost predicate HeadTaken(s: System, s': System, c: string)
    requires QueueOf(s, c) != []
  {
    var q := QueueOf(s, c);
    && QueueOf(s', c) == q[1..] && s'.now == s.now && c in s.core.conns && c in s'.core.conns
    && if HeadIsAlive(q, s.now) then
         && Nearer(s, s', c) && q[0].payload.Response?
         && s'.core.conns[c].h.applied == s.core.conns[c].h.applied + [q[0].payload.response]
       else
         && s'.core.conns[c] == s.core.conns[c] && c in s'.core.callbacks && SentOn(s'.core, c) == SentOn(s.core, c)
  }

  /** From `s` to `t` the pump took the live head of the queue of `c`; from `t` to `s'` it was applied. */
  lemma LiveTaken(s: System, t: System, s': System, c: string)
    requires var q := QueueOf(s, c);
             && q != [] && HeadIsAlive(q, s.now) && c in s.core.conns
             && t.now == s.now && t.core == Popped(s.core, c, q[0].payload, true) && QueueOf(t, c) == q[1..]
             && s'.store == t.store && Nearer(t, s', c) && q[0].payload.Response?
             && s'.core.conns[c].h.applied == s.core.conns[c].h.applied + [q[0].payload.response]
    ensures HeadTaken(s, s', c)
  {
  }

  lemma LiveHead(actions: seq<Action>, a: Action, c: string)
    requires var s, s' := ProtocolOverRedis.Run(actions), ProtocolOverRedis.Run(actions + [a]);
             var q := QueueOf(s, c);
             && q != [] && HeadIsAlive(q, s.now) && c in s.core.conns && c in s.core.callbacks
             && s'.now == s.now && s'.core == Popped(s.core, c, q[0].payload, true) && QueueOf(s', c) == q[1..]
    ensures exists s' ::
              && s' == ProtocolOverRedis.Run(actions + ([a] + DispatchAndCall(c)))
              && HeadTaken(ProtocolOverRedis.Run(actions), s', c)
  {
    HeldIsApplied(actions + [a], c);
    Regrouped(actions, [a], DispatchAndCall(c));
    LiveTaken(ProtocolOverRedis.Run(actions), ProtocolOverRedis.Run(actions + [a]),
              ProtocolOverRedis.Run(actions + [a] + DispatchAndCall(c)), c);
  }

  lemma OwnHead(a: Action, c: string, key: string)
    requires a.Receive?
    ensures OwnActions([a], c, key) && OwnActions([a] + DispatchAndCall(c), c, key)
  {
    assert OwnActions([Local(Dispatch)] + CallbackAndCompletion(c), c, key);
  }

  lemma DeadHead(s: System, s': System, c: string)
    requires var q := QueueOf(s, c);
             && q != [] && !HeadIsAlive(q, s.now) && c in s.core.conns && c in s.core.callbacks
             && s'.now == s.now && s'.core == Popped(s.core, c, q[0].payload, false) && QueueOf(s', c) == q[1..]
    ensures HeadTaken(s, s', c)
  {
  }

  lemma ReadyHead(actions: seq<Action>, c: string, key: string) returns (more: seq<Action>)
    requires var s := ProtocolOverRedis.Run(actions);
             Waits(s, c) && Turns(s.core, c) == 0 && Visible(QueueOf(s, c), s.now)
    ensures OwnActions(more, c, key)
    ensures exists s' :: s' == ProtocolOverRedis.Run(actions + more) && HeadTaken(ProtocolOverRedis.Run(actions), s', c)
  {
    var a := ReceiveHead(actions, c);
    var s := ProtocolOverRedis.Run(actions);
    OwnHead(a, c, key);
    if HeadIsAlive(QueueOf(s, c), s.now) {
      LiveHead(actions, a, c);
      more := [a] + DispatchAndCall(c);
    } else {
      DeadHead(s, ProtocolOverRedis.Run(actions + [a]), c);
      more := [a];
    }
  }

  lemma TakenAfterwards(s: System, s': System, s'': System, c: string)
    requires Untouched(s, s', c) && QueueOf(s', c) != [] && HeadTaken(s', s'', c)
    ensures HeadTaken(s, s'', c)
  {
  }

  lemma TakeHead(actions: seq<Action>, c: string, key: string) returns (more: seq<Action>)
    requires var s := ProtocolOverRedis.Run(actions); Waits(s, c) && Visible(QueueOf(s, c), s.now)
    ensures OwnActions(more, c, key)
    ensures HeadTaken(ProtocolOverRedis.Run(actions), ProtocolOverRedis.Run(actions + more), c)
  {
    var round := ComesRound(actions, c, key);
    var rest := ReadyHead(actions + round, c, key);
    more := round + rest;
    OwnConcat(round, rest, c, key);
    Regrouped(actions, round, rest);
    TakenAfterwards(ProtocolOverRedis.Run(actions), ProtocolOverRedis.Run(actions + round),
                    ProtocolOverRedis.Run(actions + more), c);
  }

  /** No wake-up is lost. In every run, while request `c` is registered and its list is visible, the
      server's own actions can take the head of its queue: applied if it is alive, discarded if not. */
  lemma HeadIsTaken(actions: seq<Action>, c: string, key: string)
    requires var s := ProtocolOverRedis.Run(actions); Waits(s, c) && Visible(QueueOf(s, c), s.now)
    ensures exists more ::
              && OwnActions(more, c, key)
              && HeadTaken(ProtocolOverRedis.Run(actions), ProtocolOverRedis.Run(actions + more), c)
  {
    var more := TakeHead(actions, c, key);
    assert OwnActions(more, c, key);
  }

  // ----- The server's own actions keep what waits -----

  lemma RemovesStill(actions: seq<Action>, more: seq<Action>, c: string, key: string)
    requires RemovesNoChannel(actions) && OwnActions(more, c, key)
    ensures RemovesNoChannel(actions + more)
  {
  }

  lemma PutUndoesNothing(s: System, core: Core, d: string, p: Payload, dataKey: string, c: string)
    requires core.history == s.core.history
    ensures HistoryOf(Put(s, core, d, p, dataKey).core, c).Passed() == HistoryOf(s.core, c).Passed()
  {
  }

  lemma PoppedUndoesNothing(core: Core, d: string, p: Payload, live: bool, c: string)
    ensures HistoryOf(core, c).Passed() <= HistoryOf(Popped(core, d, p, live), c).Passed()
  {
  }

  lemma ReceiptUndoesNothing(s: System, a: Action, c: string)
    requires a.Receive?
    ensures HistoryOf(s.core, c).Passed() <= HistoryOf(Perform(s, a).core, c).Passed()
  {
    if Possible(s, a) {
      match ReceiveFrom(PREFIX, s.store, s.now, a.keys).1
      case Message(d, p) => PoppedUndoesNothing(s.core, d, p, true, c);
      case Dead(d) =>
        var q := QueueOf(s, d);
        if q != [] {
          PoppedUndoesNothing(s.core, d, q[0].payload, false, c);
        }
      case _ =>
    }
  }

  lemma OthersUndoNothing(s: System, a: Action, c: string)
    requires !a.Local?
    ensures HistoryOf(s.core, c).Passed() <= HistoryOf(Perform(s, a).core, c).Passed()
  {
    if Possible(s, a) {
      match a
      case TaskSend(d, dataKey) =>
        var r := s.core.conns[d];
        if TaskSends(r).Some? {
          var m := TaskSends(r).value;
          PutUndoesNothing(s, Update(s.core, d, AfterSendTask(r, m)), REQUEST_CHANNEL, Request(m), dataKey, c);
        }
      case ApplicationSend(d, m, dataKey) => PutUndoesNothing(s, s.core, d, Response(m), dataKey, c);
      case Receive(_, _) => ReceiptUndoesNothing(s, a, c);
      case _ =>
    }
  }

  /** As long as no channel is removed, what has been passed on stays passed on. */
  lemma NothingUndone(actions: seq<Action>, a: Action, c: string)
    requires RemovesNoChannel(actions) && RemovesNoChannel(actions + [a])
    ensures HistoryOf(ProtocolOverRedis.Run(actions).core, c).Passed()
            <= HistoryOf(ProtocolOverRedis.Run(actions + [a]).core, c).Passed()
  {
    var s := ProtocolOverRedis.Run(actions);
    RunSnoc(actions, a);
    if a.Local? && Possible(s, a) {
      LocalRecord(s.core, a.step, c);
      NoDropRecorded(actions, c);
      NoDropRecorded(actions + [a], c);
      if HistoryOf(s.core, c).Passed() != [] {
        LastDroppedCounts(HistoryOf(s.core, c));
      }
    } else if !a.Local? {
      OthersUndoNothing(s, a, c);
    }
  }

  lemma NoDropRecorded(actions: seq<Action>, c: string)
    requires RemovesNoChannel(actions)
    ensures Count(HistoryOf(ProtocolOverRedis.Run(actions).core, c), Dropped) == 0
  {
    NothingRemoved(actions);
    CoreOf(actions);
    NothingDropped(Labels(actions), c);
  }

  lemma TakesNoTime(s: System, a: Action)
    requires IsServerAction(a)
    ensures Perform(s, a).now == s.now
  {
  }

  lemma FinalStillWaits(s: System, s': System, c: string)
    requires QueueMoves(s, s', c) && s'.now == s.now && FinalWaits(s, c)
    requires HistoryOf(s.core, c).Passed() <= HistoryOf(s'.core, c).Passed()
    ensures FinalWaits(s', c)
  {
    var (q, q') := (QueueOf(s, c), QueueOf(s', c));
    var (passed, passed') := (HistoryOf(s.core, c).Passed(), HistoryOf(s'.core, c).Passed());
    if q' == q && passed' <= passed {
      assert passed' == passed;
    } else {
      AliveOfTail(q, s.now);
      var head := if s.now <= q[0].deadline then [q[0].payload] else [];
      FinalOfConcat(head, Alive(q[1..], s.now));
      FinalOfConcat(passed, head);
    }
  }

  lemma {:induction false} FinalIsKept(actions: seq<Action>, more: seq<Action>, c: string, key: string)
    requires RemovesNoChannel(actions) && OwnActions(more, c, key)
    requires c in ProtocolOverRedis.Run(actions).core.conns && FinalWaits(ProtocolOverRedis.Run(actions), c)
    ensures c in ProtocolOverRedis.Run(actions + more).core.conns
    ensures FinalWaits(ProtocolOverRedis.Run(actions + more), c)
  {
    if more == [] {
      assert actions + more == actions;
    } else {
      var before, a := actions + Init(more), Last(more);
      FinalIsKept(actions, Init(more), c, key);
      FinalKeptBy(before, a, c) by {
        RemovesStill(actions, Init(more), c, key);
        NotTheRequestChannel(before, c);
      }
      RequestStays(before, a, c);
      assert actions + more == before + [a];
    }
  }

  lemma FinalKeptBy(actions: seq<Action>, a: Action, c: string)
    requires RemovesNoChannel(actions) && IsServerAction(a) && c != REQUEST_CHANNEL
    requires FinalWaits(ProtocolOverRedis.Run(actions), c)
    ensures FinalWaits(ProtocolOverRedis.Run(actions + [a]), c)
  {
    ActionMovesQueue(actions, a, c);
    NothingUndone(actions, a, c);
    RunSnoc(actions, a);
    TakesNoTime(ProtocolOverRedis.Run(actions), a);
    FinalStillWaits(ProtocolOverRedis.Run(actions), ProtocolOverRedis.Run(actions + [a]), c);
  }

  lemma {:induction false} SomeAlive(q: seq<Stamped<Payload>>, now: nat)
    requires Alive(q, now) != []
    ensures exists i :: 0 <= i < |q| && now <= q[i].deadline
  {
    if now <= Last(q).deadline {
      assert now <= q[|q| - 1].deadline;
    } else {
      SomeAlive(Init(q), now);
      var i :| 0 <= i < |Init(q)| && now <= Init(q)[i].deadline;
      assert now <= q[i].deadline;
    }
  }

  lemma NothingFinalApplied(labels: seq<Label>, c: string)
    requires var core := Exec(labels).core;
             c in core.conns && c in core.callbacks && !(core.pump.Holding? && core.pump.channel == c)
    ensures !HasFinal(HistoryOf(Exec(labels).core, c).Passed())
  {
    GoodAt(labels, c);
    var applied := Exec(labels).core.conns[c].h.applied;
    assert HistoryOf(Exec(labels).core, c).Passed() == Responses(applied);
  }

  /** While a request waits and nothing final has reached it, the final message is stored alive. */
  lemma AliveWaits(actions: seq<Action>, c: string)
    requires Waits(ProtocolOverRedis.Run(actions), c) && FinalWaits(ProtocolOverRedis.Run(actions), c)
    ensures Visible(QueueOf(ProtocolOverRedis.Run(actions), c), ProtocolOverRedis.Run(actions).now)
  {
    var s := ProtocolOverRedis.Run(actions);
    CoreOf(actions);
    NothingFinalApplied(Labels(actions), c);
    SomeAlive(QueueOf(s, c), s.now);
    ServerExpirySafety(actions, c);
  }

  // ----- To the end -----

  /** The request is out, or the data key for it is still free. */
  predicate Sendable(s: System, c: string, key: string)
    requires c in s.core.conns
  {
    IsSent(s.core.conns[c].h.trace) || (IsDataKey(PREFIX, key) && key !in s.store)
  }

  /** From `s` to `s'` request `c` has moved on, or a dead message in front of it is gone. */
  ghost predicate Closer(s: System, s': System, c: string) {
    || Nearer(s, s', c)
    || (c in s.core.conns && c in s'.core.conns && s'.core.conns[c] == s.core.conns[c]
        && SentOn(s'.core, c) == SentOn(s.core, c) && |QueueOf(s', c)| < |QueueOf(s, c)|)
  }

  lemma TakingIsCloser(s: System, s': System, c: string)
    requires QueueOf(s, c) != [] && HeadTaken(s, s', c)
    ensures Closer(s, s', c)
    ensures IsSent(s.core.conns[c].h.trace) ==> IsSent(s'.core.conns[c].h.trace)
  {
  }

  lemma WaitingIsSent(labels: seq<Label>, c: string)
    requires c in Exec(labels).core.conns && Exec(labels).core.conns[c].status == Pending
    requires Exec(labels).core.conns[c].h.step.WaitForResponse?
    ensures IsSent(Exec(labels).core.conns[c].h.trace)
  {
    GoodAt(labels, c);
    var r := Exec(labels).core.conns[c];
    ScriptIsSent(r.base, r.h.applied);
  }

  lemma {:induction false} ScriptIsSent(base: AsgiHttpRequestMsg, ms: seq<AsgiHttpResponseMsg>)
    ensures IsSent(Script(base, ms))
  {
    if ms != [] {
      ScriptIsSent(base, Init(ms));
    }
  }

  lemma HeldMoves(actions: seq<Action>, c: string, key: string) returns (more: seq<Action>)
    requires var core := ProtocolOverRedis.Run(actions).core;
             c in core.conns && c in core.callbacks && core.pump.Holding? && core.pump.channel == c
    ensures OwnActions(more, c, key)
    ensures exists s' :: s' == ProtocolOverRedis.Run(actions + more) && Nearer(ProtocolOverRedis.Run(actions), s', c)
  {
    more := DispatchAndCall(c);
    assert OwnActions([Local(Dispatch)] + CallbackAndCompletion(c), c, key);
    HeldIsApplied(actions, c);
  }

  /** A request that is registered, whose final message has been passed on or is stored alive. */
  lemma WaitingMoves(actions: seq<Action>, c: string, key: string) returns (more: seq<Action>)
    requires var s := ProtocolOverRedis.Run(actions);
             c in s.core.conns && c in s.core.callbacks && FinalWaits(s, c)
    ensures OwnActions(more, c, key)
    ensures exists s' ::
              && s' == ProtocolOverRedis.Run(actions + more) && Closer(ProtocolOverRedis.Run(actions), s', c)
              && IsSent(s'.core.conns[c].h.trace)
  {
    var s := ProtocolOverRedis.Run(actions);
    CoreOf(actions);
    GoodAt(Labels(actions), c);
    WaitingIsSent(Labels(actions), c);
    if s.core.pump.Holding? && s.core.pump.channel == c {
      more := HeldMoves(actions, c, key);
    } else {
      AliveWaits(actions, c);
      more := TakeHead(actions, c, key);
      TakingIsCloser(s, ProtocolOverRedis.Run(actions + more), c);
    }
  }

  /** A request with a continuation of its own. */
  lemma OtherwiseMoves(actions: seq<Action>, c: string, key: string) returns (more: seq<Action>)
    requires c in ProtocolOverRedis.Run(actions).core.conns && Sendable(ProtocolOverRedis.Run(actions), c, key)
    requires var r := ProtocolOverRedis.Run(actions).core.conns[c];
             r.h.io > 0 || r.h.sending > 0 || r.posted > 0 || r.tasks != []
    ensures OwnActions(more, c, key)
    ensures exists s' ::
              && s' == ProtocolOverRedis.Run(actions + more) && Nearer(ProtocolOverRedis.Run(actions), s', c)
              && Sendable(s', c, key)
  {
    var s := ProtocolOverRedis.Run(actions);
    var r := s.core.conns[c];
    if r.h.io > 0 {
      more := [Local(IoCompletion(c, true, 0))];
      IoMore(actions, c);
    } else if r.posted > 0 {
      more := [Local(PostedCompletion(c))];
      PostedMore(actions, c);
    } else if r.tasks != [] {
      more := CallbackAndCompletion(c);
      CallMore(actions, c);
    } else {
      more := [TaskSend(c, key)];
      CoreOf(actions);
      UnsentIsUnsent(Labels(actions), c);
      SendMore(actions, c, key);
    }
  }

  lemma UnsentIsUnsent(labels: seq<Label>, c: string)
    requires c in Exec(labels).core.conns && Exec(labels).core.conns[c].h.sending > 0
    ensures !IsSent(Exec(labels).core.conns[c].h.trace)
  {
    GoodAt(labels, c);
  }

  lemma MovesCloser(actions: seq<Action>, c: string, key: string) returns (more: seq<Action>)
    requires RemovesNoChannel(actions) && c in ProtocolOverRedis.Run(actions).core.conns
    requires ProtocolOverRedis.Run(actions).core.conns[c].status == Pending
    requires FinalWaits(ProtocolOverRedis.Run(actions), c) && Sendable(ProtocolOverRedis.Run(actions), c, key)
    ensures OwnActions(more, c, key)
    ensures exists s' ::
              && s' == ProtocolOverRedis.Run(actions + more) && Closer(ProtocolOverRedis.Run(actions), s', c)
              && Sendable(s', c, key)
  {
    RegisteredOverRedis(actions, c);
    if c in ProtocolOverRedis.Run(actions).core.callbacks {
      more := WaitingMoves(actions, c, key);
    } else {
      more := OtherwiseMoves(actions, c, key);
    }
  }

  /** What is left to be done for request `c`: how far it can still move on. */
  function Left(core: Core, c: string): int
    requires c in core.conns
  {
    3 + 4 * |SentOn(core, c)| - Worth(core.conns[c].h)
  }

  lemma LeftIsNeverNegative(actions: seq<Action>, c: string)
    requires c in ProtocolOverRedis.Run(actions).core.conns
    ensures Left(ProtocolOverRedis.Run(actions).core, c) >= 0
  {
    CoreOf(actions);
    WorthIsBounded(Labels(actions), c);
  }

  /** The request has finished, and has been refused nothing if it had not been and never will be. */
  ghost predicate Over(s: System, s': System, c: string) {
    && c in s.core.conns && c in s'.core.conns && s'.core.conns[c].status == Finished
    && (Whole(s.core.conns[c].h) ==> Whole(s'.core.conns[c].h))
  }

  lemma CloserThenOver(s: System, s': System, s'': System, c: string)
    requires Closer(s, s', c) && Over(s', s'', c)
    ensures Over(s, s'', c)
  {
  }

  lemma CloserIsLess(s: System, s': System, c: string)
    requires Closer(s, s', c) && s'.core.conns[c].status == Pending
    ensures Left(s'.core, c) < Left(s.core, c)
            || (Left(s'.core, c) == Left(s.core, c) && |QueueOf(s', c)| < |QueueOf(s, c)|)
  {
  }

  lemma {:induction false} Finish(actions: seq<Action>, c: string, key: string) returns (more: seq<Action>)
    requires RemovesNoChannel(actions) && c in ProtocolOverRedis.Run(actions).core.conns
    requires FinalWaits(ProtocolOverRedis.Run(actions), c) && Sendable(ProtocolOverRedis.Run(actions), c, key)
    ensures OwnActions(more, c, key)
    ensures exists s' :: s' == ProtocolOverRedis.Run(actions + more) && Over(ProtocolOverRedis.Run(actions), s', c)
    decreases if ProtocolOverRedis.Run(actions).core.conns[c].status == Pending then 1 else 0,
              Left(ProtocolOverRedis.Run(actions).core, c), |QueueOf(ProtocolOverRedis.Run(actions), c)|
  {
    CoreOf(actions);
    OneContinuation(Labels(actions), c);
    if ProtocolOverRedis.Run(actions).core.conns[c].status != Pending {
      more := [];
      assert actions + more == actions;
      assert Over(ProtocolOverRedis.Run(actions), ProtocolOverRedis.Run(actions + more), c);
    } else {
      var first := MovesCloser(actions, c, key);
      RemovesStill(actions, first, c, key);
      FinalIsKept(actions, first, c, key);
      LeftIsNeverNegative(actions, c);
      LeftIsNeverNegative(actions + first, c);
      if ProtocolOverRedis.Run(actions + first).core.conns[c].status == Pending {
        CloserIsLess(ProtocolOverRedis.Run(actions), ProtocolOverRedis.Run(actions + first), c);
      }
      var rest := Finish(actions + first, c, key);
      more := first + rest;
      OwnConcat(first, rest, c, key);
      Regrouped(actions, first, rest);
      CloserThenOver(ProtocolOverRedis.Run(actions), ProtocolOverRedis.Run(actions + first),
                     ProtocolOverRedis.Run(actions + more), c);
    }
  }

  /** From every run in which no channel is removed, with a message without more content passed on or
      stored alive, the server's own actions can finish the request. */
  lemma CanFinish(actions: seq<Action>, c: string, key: string)
    requires RemovesNoChannel(actions) && c in ProtocolOverRedis.Run(actions).core.conns
    requires FinalWaits(ProtocolOverRedis.Run(actions), c) && Sendable(ProtocolOverRedis.Run(actions), c, key)
    ensures exists more ::
              && OwnActions(more, c, key)
              && Over(ProtocolOverRedis.Run(actions), ProtocolOverRedis.Run(actions + more), c)
  {
    var more := Finish(actions, c, key);
    assert OwnActions(more, c, key);
  }

  /** These own actions bring the request to its end, with every byte handed to IIS. */
  ghost predicate EndsBy(actions: seq<Action>, more: seq<Action>, c: string, key: string) {
    && OwnActions(more, c, key)
    && var core := ProtocolOverRedis.Run(actions + more).core;
       c in core.conns && Ended(core.conns[c])
  }

  lemma CanEnd(actions: seq<Action>, c: string, key: string)
    requires RemovesNoChannel(actions) && c in ProtocolOverRedis.Run(actions).core.conns
    requires Whole(ProtocolOverRedis.Run(actions).core.conns[c].h)
    requires FinalWaits(ProtocolOverRedis.Run(actions), c) && Sendable(ProtocolOverRedis.Run(actions), c, key)
    ensures exists more :: EndsBy(actions, more, c, key)
  {
    var more := Finish(actions, c, key);
    assert EndsBy(actions, more, c, key);
  }

  /** A request that IIS refuses nothing can be taken to its end by the server's own actions exactly
      if a message without more content has been passed on to it or is stored for it alive. */
  lemma CanEndExactly(actions: seq<Action>, c: string, key: string)
    requires RemovesNoChannel(actions) && c in ProtocolOverRedis.Run(actions).core.conns
    requires Whole(ProtocolOverRedis.Run(actions).core.conns[c].h) && Sendable(ProtocolOverRedis.Run(actions), c, key)
    ensures (exists more :: EndsBy(actions, more, c, key)) <==> FinalWaits(ProtocolOverRedis.Run(actions), c)
  {
    if FinalWaits(ProtocolOverRedis.Run(actions), c) {
      CanEnd(actions, c, key);
    }
    if more :| EndsBy(actions, more, c, key) {
      EndNeedsFinal(actions, more, c);
    }
  }

  // ----- No schedule goes on for ever -----

  /** The protocol steps that `more` amounts to, after `actions`. */
  ghost function StepsOf(actions: seq<Action>, more: seq<Action>): seq<Label>
    decreases |more|
  {
    if more == [] then []
    else
      var l := LabelOf(ProtocolOverRedis.Run(actions + Init(more)), Last(more));
      StepsOf(actions, Init(more)) + if l.Some? then [l.value] else []
  }

  lemma {:induction false} StepsFollow(actions: seq<Action>, more: seq<Action>)
    ensures Labels(actions + more) == Labels(actions) + StepsOf(actions, more)
    decreases |more|
  {
    if more == [] {
      assert actions + more == actions;
    } else {
      var before := actions + Init(more);
      StepsFollow(actions, Init(more));
      RunSnoc(before, Last(more));
      LastApart(actions, more);
      var l := LabelOf(ProtocolOverRedis.Run(before), Last(more));
      LabelsRegrouped(Labels(actions), StepsOf(actions, Init(more)), if l.Some? then [l.value] else []);
    }
  }

  lemma LabelsRegrouped(a: seq<Label>, b: seq<Label>, c: seq<Label>)
    ensures a + b + c == a + (b + c)
  {
  }

  lemma {:induction false} StepsSendNothing(actions: seq<Action>, more: seq<Action>, c: string)
    requires SendsNothing(more, c)
    ensures SendsNothingTo(StepsOf(actions, more), c)
    decreases |more|
  {
    if more != [] {
      StepsSendNothing(actions, Init(more), c);
    }
  }

  /** In every continuation of every run, with any failures, expiries and removed channels: as long as
      nothing new is sent to `c`, the steps taken for `c` are at most as many as there was work to do. */
  lemma ServerStepsAreBounded(actions: seq<Action>, more: seq<Action>, c: string)
    requires c in ProtocolOverRedis.Run(actions).core.conns && SendsNothing(more, c)
    ensures c in Exec(Labels(actions)).core.conns
    ensures StepsFor(Labels(actions), StepsOf(actions, more), c) <= Work(Exec(Labels(actions)), c)
  {
    CoreOf(actions);
    StepsFollow(actions, more);
    StepsSendNothing(actions, more, c);
    StepsAreBounded(Labels(actions), StepsOf(actions, more), c);
  }
}
