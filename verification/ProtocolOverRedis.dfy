/** The server running on the real channel layer: queues are replaced by the keyspace that Send
    and ReceiveMany operate on, and time passes. Every run of it is a run of the protocol on
    plain FIFO queues. */
module ProtocolOverRedis {
  import opened AsgiMessages
  import opened ChannelLayer
  import opened Redis
  import opened RedisChannelLayer
  import opened Connections
  import opened Protocol
  import opened ProtocolInvariant

  const PREFIX := "asgi:"

  datatype System = System(store: Keyspace<Payload>, now: nat, core: Core)

  /** The labels that do not touch the store are those of the protocol. A send brings its fresh
      data key, a receive the pump's list of channels and the shuffled keys. */
  datatype Action =
    | Local(step: Label)
    | TaskSend(channel: string, dataKey: string)
    | ApplicationSend(channel: string, response: AsgiHttpResponseMsg, dataKey: string)
    | Receive(channels: seq<string>, keys: seq<string>)
    | Tick(seconds: nat)

  predicate IsLocal(l: Label) {
    !l.SendTask? && !l.AppSend? && !l.Pop? && !l.PopNothing?
  }

  /** The protocol's view of a core; the queues do not matter to local labels. */
  function Bare(core: Core): State {
    State(core, map[])
  }

  predicate Possible(s: System, a: Action) {
    match a
    case Local(l) => IsLocal(l) && Enabled(Bare(s.core), l)
    case TaskSend(c, dataKey) =>
      c in s.core.conns && s.core.conns[c].h.sending > 0 && IsDataKey(PREFIX, dataKey) && dataKey !in s.store
    case ApplicationSend(c, _, dataKey) => IsChannelName(c) && IsDataKey(PREFIX, dataKey) && dataKey !in s.store
    case Receive(channels, keys) =>
      s.core.pump.Snapped? && (set c | c in channels) == s.core.pump.names && IsShuffle(PREFIX, channels, keys)
    case Tick(_) => true
  }

  ghost function QueueOf(s: System, c: string): seq<Stamped<Payload>> {
    if WellFormed(PREFIX, s.store, s.now) then Stored(PREFIX, s.store, s.now, c) else []
  }

  function Loads(q: seq<Stamped<Payload>>): (ps: seq<Payload>)
    ensures |ps| == |q|
    ensures forall i | 0 <= i < |q| :: ps[i] == q[i].payload
  {
    seq(|q|, i requires 0 <= i < |q| => q[i].payload)
  }

  /** A send to a channel whose list has expired starts a new list. */
  ghost predicate Purges(s: System, c: string) {
    QueueOf(s, c) != [] && !Visible(QueueOf(s, c), s.now)
  }

  ghost function Put(s: System, core: Core, c: string, p: Payload, dataKey: string): System {
    System(SendTo(PREFIX, s.store, s.now, c, p, dataKey), s.now,
           Record(core, c, p, if Purges(s, c) then Loads(QueueOf(s, c)) else []))
  }

  ghost function Perform(s: System, a: Action): System {
    if !Possible(s, a) then s
    else match a
      case Local(l) => s.(core := Effect(Bare(s.core), l).core)
      case TaskSend(c, dataKey) =>
        var r := s.core.conns[c];
        var m := TaskSends(r);
        if m.None? then s.(core := Protocol.Crash(s.core, c))
        else Put(s, Update(s.core, c, AfterSendTask(r, m.value)), REQUEST_CHANNEL, Request(m.value), dataKey)
      case ApplicationSend(c, response, dataKey) => Put(s, s.core, c, Response(response), dataKey)
      case Receive(_, keys) =>
        var (store', r) := ReceiveFrom(PREFIX, s.store, s.now, keys);
        (match r
         case Message(c, p) => System(store', s.now, Popped(s.core, c, p, true))
         case Dead(c) =>
           var q := QueueOf(s, c);
           System(store', s.now, if q == [] then s.core else Popped(s.core, c, q[0].payload, false))
         case _ => System(store', s.now, s.core.(pump := Idle)))
      case Tick(seconds) => s.(now := s.now + seconds)
  }

  ghost function Run(actions: seq<Action>): System {
    if actions == [] then System(map[], 0, INITIAL.core) else Perform(Run(Init(actions)), Last(actions))
  }

  /** The protocol step that an action amounts to, if any. */
  ghost function LabelOf(s: System, a: Action): Option<Label> {
    if !Possible(s, a) then None
    else match a
      case Local(l) => Some(l)
      case TaskSend(c, _) => Some(SendTask(c, Purges(s, REQUEST_CHANNEL)))
      case ApplicationSend(c, response, _) => Some(AppSend(c, response, Purges(s, c)))
      case Receive(_, keys) =>
        Some(match ReceiveFrom(PREFIX, s.store, s.now, keys).1
             case Message(c, _) => Pop(c, true)
             case Dead(c) => Pop(c, false)
             case _ => PopNothing)
      case Tick(_) => None
  }

  ghost function Labels(actions: seq<Action>): seq<Label> {
    if actions == [] then []
    else
      var l := LabelOf(Run(Init(actions)), Last(actions));
      Labels(Init(actions)) + if l.Some? then [l.value] else []
  }

  // ----- Simulation -----

  ghost predicate Matches(s: System, t: State) {
    && WellFormed(PREFIX, s.store, s.now)
    && t.core == s.core
    && forall c :: Queue(t, c) == Loads(Stored(PREFIX, s.store, s.now, c))
  }

  lemma LocalStep(s: System, t: State, a: Action)
    requires Matches(s, t) && a.Local? && Possible(s, a)
    ensures Matches(Perform(s, a), Next(t, a.step))
  {
    assert Enabled(t, a.step) && Effect(t, a.step).core == Effect(Bare(s.core), a.step).core;
    assert Effect(t, a.step).queues == t.queues;
  }

  lemma PutStep(s: System, t: State, core: Core, c: string, p: Payload, dataKey: string)
    requires Matches(s, t) && IsChannelName(c) && IsDataKey(PREFIX, dataKey) && dataKey !in s.store
    ensures Matches(Put(s, core, c, p, dataKey), Deposit(t, core, c, p, Purges(s, c)))
  {
    SendAppends(PREFIX, s.store, s.now, c, p, dataKey);
    var s', t' := Put(s, core, c, p, dataKey), Deposit(t, core, c, p, Purges(s, c));
    forall d
      ensures Queue(t', d) == Loads(Stored(PREFIX, s'.store, s'.now, d))
    {
      assert Queue(t, d) == Loads(Stored(PREFIX, s.store, s.now, d));
      if d == c {
        PutQueueThere(s, t, core, c, p, dataKey);
      } else {
        PutQueueElsewhere(s, t, core, c, p, dataKey, d);
      }
    }
  }

  lemma PutQueueThere(s: System, t: State, core: Core, c: string, p: Payload, dataKey: string)
    requires WellFormed(PREFIX, s.store, s.now) && Queue(t, c) == Loads(Stored(PREFIX, s.store, s.now, c))
    requires IsChannelName(c) && IsDataKey(PREFIX, dataKey) && dataKey !in s.store
    ensures var store' := SendTo(PREFIX, s.store, s.now, c, p, dataKey);
            && WellFormed(PREFIX, store', s.now)
            && Queue(Deposit(t, core, c, p, Purges(s, c)), c) == Loads(Stored(PREFIX, store', s.now, c))
  {
    SendAppends(PREFIX, s.store, s.now, c, p, dataKey);
    PutQueue(t, core, c, p, Stored(PREFIX, s.store, s.now, c), s.now);
  }

  lemma PutQueueElsewhere(s: System, t: State, core: Core, c: string, p: Payload, dataKey: string, d: string)
    requires WellFormed(PREFIX, s.store, s.now) && Queue(t, d) == Loads(Stored(PREFIX, s.store, s.now, d))
    requires IsChannelName(c) && IsDataKey(PREFIX, dataKey) && dataKey !in s.store && d != c
    ensures var store' := SendTo(PREFIX, s.store, s.now, c, p, dataKey);
            && WellFormed(PREFIX, store', s.now)
            && Queue(Deposit(t, core, c, p, Purges(s, c)), d) == Loads(Stored(PREFIX, store', s.now, d))
  {
    SendAppends(PREFIX, s.store, s.now, c, p, dataKey);
  }

  lemma PutQueue(t: State, core: Core, c: string, p: Payload, q: seq<Stamped<Payload>>, now: nat)
    requires Queue(t, c) == Loads(q)
    ensures var m := Stamped(p, now + EXPIRY);
            Queue(Deposit(t, core, c, p, q != [] && !Visible(q, now)), c)
            == Loads((if Visible(q, now) then q else []) + [m])
  {
    var rest := if Visible(q, now) then q else [];
    assert Loads(rest + [Stamped(p, now + EXPIRY)]) == Loads(rest) + [p];
  }

  lemma ReplyChannelsAreNames(t: State, channels: seq<string>)
    requires Inv(t) && t.core.pump.Snapped? && (set c | c in channels) == t.core.pump.names
    ensures AllChannelNames(channels)
  {
    forall i | 0 <= i < |channels|
      ensures IsChannelName(channels[i])
    {
      var c := channels[i];
      assert c in t.core.pump.names;
      assert Good(c, ViewOf(t, c));
      assert c[4] == REPLY_PREFIX[4] == '.';
    }
  }

  lemma ReceiveStep(s: System, t: State, a: Action)
    requires Matches(s, t) && Inv(t) && a.Receive? && Possible(s, a)
    ensures Matches(Perform(s, a), Next(t, LabelOf(s, a).value))
  {
    ReplyChannelsAreNames(t, a.channels);
    var (store', r) := ReceiveFrom(PREFIX, s.store, s.now, a.keys);
    ReceiveTakesHead(PREFIX, s.store, s.now, a.channels, a.keys);
    if r.Message? || r.Dead? {
      var c := r.channel;
      assert Took(PREFIX, s.store, store', s.now, a.channels, c);
      assert c in set c | c in a.channels;
      assert Queue(t, c) == Loads(Stored(PREFIX, s.store, s.now, c));
      TakeStep(s, t, store', a.channels, c, r.Message?);
      TakenPerformed(s, a, c);
    } else {
      assert Perform(s, a) == System(s.store, s.now, s.core.(pump := Idle));
    }
  }

  lemma TakenPerformed(s: System, a: Action, c: string)
    requires WellFormed(PREFIX, s.store, s.now) && a.Receive? && Possible(s, a) && AllChannelNames(a.channels)
    requires var r := ReceiveFrom(PREFIX, s.store, s.now, a.keys).1; (r.Message? || r.Dead?) && r.channel == c
    ensures var (store', r) := ReceiveFrom(PREFIX, s.store, s.now, a.keys);
            var q := Stored(PREFIX, s.store, s.now, c);
            && q != [] && Perform(s, a) == System(store', s.now, Popped(s.core, c, q[0].payload, r.Message?))
            && LabelOf(s, a) == Some(Pop(c, r.Message?))
  {
    ReceiveTakesHead(PREFIX, s.store, s.now, a.channels, a.keys);
  }

  lemma TakeStep(s: System, t: State, store': Keyspace<Payload>, channels: seq<string>, c: string, live: bool)
    requires Matches(s, t) && WellFormed(PREFIX, store', s.now)
    requires Took(PREFIX, s.store, store', s.now, channels, c) && Enabled(t, Pop(c, live))
    ensures var q := Stored(PREFIX, s.store, s.now, c);
            Matches(System(store', s.now, Popped(s.core, c, q[0].payload, live)), Next(t, Pop(c, live)))
  {
    var q := Stored(PREFIX, s.store, s.now, c);
    var t' := Next(t, Pop(c, live));
    assert Queue(t, c) == Loads(q);
    assert Loads(q)[1..] == Loads(q[1..]);
    forall d
      ensures Queue(t', d) == Loads(Stored(PREFIX, store', s.now, d))
    {
      assert Queue(t, d) == Loads(Stored(PREFIX, s.store, s.now, d));
    }
  }

  lemma TaskSendStep(s: System, t: State, a: Action)
    requires Matches(s, t) && Inv(t) && a.TaskSend? && Possible(s, a)
    ensures Matches(Perform(s, a), Next(t, LabelOf(s, a).value))
  {
    var c := a.channel;
    var r := s.core.conns[c];
    assert Good(c, ViewOf(t, c));
    SendTaskKeeps(c, ViewOf(t, c), r);
    assert REQUEST_CHANNEL[4] == '.';
    PutStep(s, t, Update(s.core, c, AfterSendTask(r, r.base)), REQUEST_CHANNEL, Request(r.base), a.dataKey);
    TaskSendPerformed(s, t, a, r);
  }

  lemma TaskSendPerformed(s: System, t: State, a: Action, r: Connection)
    requires t.core == s.core && a.TaskSend? && Possible(s, a) && r == s.core.conns[a.channel]
    requires TaskSends(r) == Some(r.base)
    ensures var core := Update(s.core, a.channel, AfterSendTask(r, r.base));
            && Perform(s, a) == Put(s, core, REQUEST_CHANNEL, Request(r.base), a.dataKey)
            && LabelOf(s, a) == Some(SendTask(a.channel, Purges(s, REQUEST_CHANNEL)))
            && Next(t, SendTask(a.channel, Purges(s, REQUEST_CHANNEL)))
               == Deposit(t, core, REQUEST_CHANNEL, Request(r.base), Purges(s, REQUEST_CHANNEL))
  {
  }

  lemma ApplicationSendStep(s: System, t: State, a: Action)
    requires Matches(s, t) && a.ApplicationSend? && Possible(s, a)
    ensures Matches(Perform(s, a), Next(t, LabelOf(s, a).value))
  {
    var p := Response(a.response);
    PutStep(s, t, s.core, a.channel, p, a.dataKey);
    assert Perform(s, a) == Put(s, s.core, a.channel, p, a.dataKey);
    assert Next(t, LabelOf(s, a).value) == Deposit(t, t.core, a.channel, p, Purges(s, a.channel));
  }

  lemma TickStep(s: System, t: State, a: Action)
    requires Matches(s, t) && a.Tick?
    ensures Matches(Perform(s, a), t)
  {
    forall c
      ensures WellFormed(PREFIX, s.store, s.now + a.seconds)
      ensures Stored(PREFIX, s.store, s.now + a.seconds, c) == Stored(PREFIX, s.store, s.now, c)
    {
      QueuesAreSorted(PREFIX, s.store, s.now, s.now + a.seconds, c);
    }
    QueuesAreSorted(PREFIX, s.store, s.now, s.now + a.seconds, "");
  }

  lemma SimulationStep(s: System, t: State, a: Action)
    requires Matches(s, t) && Inv(t)
    ensures exists t' ::
              t' == (if LabelOf(s, a).Some? then Next(t, LabelOf(s, a).value) else t) && Matches(Perform(s, a), t')
  {
    if Possible(s, a) {
      match a
      case Local(_) => LocalStep(s, t, a);
      case TaskSend(_, _) => TaskSendStep(s, t, a);
      case ApplicationSend(_, _, _) => ApplicationSendStep(s, t, a);
      case Receive(_, _) => ReceiveStep(s, t, a);
      case Tick(_) => TickStep(s, t, a);
    } else {
      assert Perform(s, a) == s && Matches(s, t);
    }
  }

  /** Every run on the channel layer is a run of the protocol: the same requests, callbacks and
      records, and for each channel the FIFO queue that its data keys spell out. */
  lemma {:induction false} Simulation(actions: seq<Action>)
    ensures Matches(Run(actions), Exec(Labels(actions)))
  {
    if actions != [] {
      var s, a := Run(Init(actions)), Last(actions);
      var labels := Labels(Init(actions));
      Simulation(Init(actions));
      InvAlways(labels);
      SimulationStep(s, Exec(labels), a);
      var l := LabelOf(s, a);
      if l.Some? {
        assert Init(labels + [l.value]) == labels;
      } else {
        assert labels + [] == labels;
      }
    }
  }
}
