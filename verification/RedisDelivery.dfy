/** What the server guarantees on the real channel layer. As far as the store is concerned, every
    run of the server is one of the timed runs of ChannelRuns; with the simulation this says
    exactly which messages are lost, and what a client receives. */
module RedisDelivery {
  import opened AsgiMessages
  import opened RedisChannelLayer
  import HttpSteps
  import opened Connections
  import opened Ledger
  import opened Protocol
  import opened ProtocolInvariant
  import opened Delivery
  import opened Completions
  import opened ProtocolOverRedis
  import Runs = ChannelRuns

  // ----- The server's run as a run of the channel layer -----

  /** What an action does to the channel layer, if anything. */
  ghost function OpOf(s: System, a: Action): Option<Runs.Op<Payload>> {
    if !Possible(s, a) then None
    else match a
      case Local(_) => None
      case TaskSend(c, dataKey) =>
        var m := TaskSends(s.core.conns[c]);
        if m.None? then None else Some(Runs.Send(REQUEST_CHANNEL, Request(m.value), dataKey))
      case ApplicationSend(c, response, dataKey) => Some(Runs.Send(c, Response(response), dataKey))
      case Receive(channels, keys) => Some(Runs.Receive(channels, keys))
      case Tick(seconds) => Some(Runs.Tick(seconds))
  }

  ghost function Ops(actions: seq<Action>): seq<Runs.Op<Payload>> {
    if actions == [] then []
    else
      var op := OpOf(ProtocolOverRedis.Run(Init(actions)), Last(actions));
      Ops(Init(actions)) + if op.Some? then [op.value] else []
  }

  /** The channel layer during a run of the server. */
  ghost function Layer(actions: seq<Action>): Runs.Run<Payload> {
    Runs.Exec(PREFIX, Ops(actions))
  }

  /** The same messages, expired or not in the same places. The server may have dropped some that
      the channel layer handed over. */
  predicate SameRecord(h: History<Payload>, g: History<Runs.Gone<Payload>>) {
    match h
    case Start => g.Start?
    case Then(earlier, p, fate) =>
      && g.Then? && g.payload.message.payload == p && (fate == Expired <==> g.fate == Expired)
      && SameRecord(earlier, g.earlier)
  }

  ghost predicate RecordedAlike(core: Core, t: Runs.Run<Payload>, c: string) {
    SentOn(core, c) == Loads(Runs.SentOn(t, c)) && SameRecord(HistoryOf(core, c), Runs.HistoryOf(t, c))
  }

  ghost predicate OnLayer(s: System, t: Runs.Run<Payload>) {
    s.store == t.store && s.now == t.now && forall c :: RecordedAlike(s.core, t, c)
  }

  lemma {:induction false} SamePurged(h: History<Payload>, g: History<Runs.Gone<Payload>>, q: seq<Stamped<Payload>>,
      now: nat)
    requires SameRecord(h, g)
    ensures SameRecord(h.Purged(Loads(q)), g.Purged(Runs.Depart(q, now)))
  {
    if q != [] {
      assert Loads(q)[..|q| - 1] == Loads(q[..|q| - 1]);
      assert Runs.Depart(q, now)[..|q| - 1] == Runs.Depart(q[..|q| - 1], now);
      SamePurged(h, g, q[..|q| - 1], now);
    }
  }

  lemma {:induction false} SameDropped(h: History<Payload>, g: History<Runs.Gone<Payload>>)
    requires SameRecord(h, g) && h.Passed() != []
    ensures SameRecord(h.LastDropped(), g)
  {
    if h.fate != Ledger.Kept {
      SameDropped(h.earlier, g.earlier);
    }
  }

  lemma PutOnLayer(s: System, t: Runs.Run<Payload>, core: Core, c: string, p: Payload, dataKey: string)
    requires OnLayer(s, t) && WellFormed(PREFIX, s.store, s.now)
    requires core.sent == s.core.sent && core.history == s.core.history
    requires Runs.Enabled(PREFIX, t, Runs.Send(c, p, dataKey))
    ensures OnLayer(Put(s, core, c, p, dataKey), Runs.Next(PREFIX, t, Runs.Send(c, p, dataKey)))
  {
    var s', t' := Put(s, core, c, p, dataKey), Runs.Next(PREFIX, t, Runs.Send(c, p, dataKey));
    forall d
      ensures RecordedAlike(s'.core, t', d)
    {
      assert RecordedAlike(s.core, t, d);
      if d == c {
        PutRecorded(s, t, core, c, p, dataKey);
      }
    }
  }

  lemma PutRecorded(s: System, t: Runs.Run<Payload>, core: Core, c: string, p: Payload, dataKey: string)
    requires RecordedAlike(s.core, t, c) && s.store == t.store && s.now == t.now
    requires core.sent == s.core.sent && core.history == s.core.history
    requires Runs.Enabled(PREFIX, t, Runs.Send(c, p, dataKey))
    ensures RecordedAlike(Put(s, core, c, p, dataKey).core, Runs.Next(PREFIX, t, Runs.Send(c, p, dataKey)), c)
  {
    PurgedAlike(s, c);
    RecordAlike(core, t, Runs.Next(PREFIX, t, Runs.Send(c, p, dataKey)), c, p,
                Runs.Vanished(ProtocolOverRedis.QueueOf(s, c), s.now), s.now);
  }

  lemma PurgedAlike(s: System, c: string)
    ensures Loads(Runs.Vanished(ProtocolOverRedis.QueueOf(s, c), s.now)) ==
            if Purges(s, c) then Loads(ProtocolOverRedis.QueueOf(s, c)) else []
  {
  }

  lemma RecordAlike(core: Core, t: Runs.Run<Payload>, t': Runs.Run<Payload>, c: string, p: Payload,
      lost: seq<Stamped<Payload>>, now: nat)
    requires RecordedAlike(core, t, c)
    requires Runs.SentOn(t', c) == Runs.SentOn(t, c) + [Stamped(p, now + EXPIRY)]
    requires Runs.HistoryOf(t', c) == Runs.HistoryOf(t, c).Purged(Runs.Depart(lost, now))
    ensures RecordedAlike(Record(core, c, p, Loads(lost)), t', c)
  {
    SamePurged(HistoryOf(core, c), Runs.HistoryOf(t, c), lost, now);
    SentAlike(Runs.SentOn(t, c), p, now);
  }

  lemma SentAlike(sent: seq<Stamped<Payload>>, p: Payload, now: nat)
    ensures Loads(sent + [Stamped(p, now + EXPIRY)]) == Loads(sent) + [p]
  {
  }

  lemma ReceiveOnLayer(s: System, t: Runs.Run<Payload>, a: Action)
    requires OnLayer(s, t) && WellFormed(PREFIX, s.store, s.now) && a.Receive? && Possible(s, a)
    requires AllChannelNames(a.channels)
    ensures OnLayer(Perform(s, a), Runs.Next(PREFIX, t, Runs.Receive(a.channels, a.keys)))
  {
    ReceiveTakesHead(PREFIX, s.store, s.now, a.channels, a.keys);
    var s', t' := Perform(s, a), Runs.Next(PREFIX, t, Runs.Receive(a.channels, a.keys));
    var r := ReceiveFrom(PREFIX, s.store, s.now, a.keys).1;
    forall d
      ensures RecordedAlike(s'.core, t', d)
    {
      assert RecordedAlike(s.core, t, d);
      if (r.Message? || r.Dead?) && r.channel == d {
        TakenPerformed(s, a, d);
      }
    }
  }

  /** Steps that do not touch the channel layer leave the record alone, but for a dropped message. */
  lemma LocalRecord(core: Core, l: Label, c: string)
    requires IsLocal(l) && Enabled(Bare(core), l)
    ensures var core' := Effect(Bare(core), l).core;
            && SentOn(core', c) == SentOn(core, c)
            && (HistoryOf(core', c) == HistoryOf(core, c)
                || (HistoryOf(core, c).Passed() != [] && HistoryOf(core', c) == HistoryOf(core, c).LastDropped()))
  {
    if MovesRequests(l) {
      StepMovesOnly(Bare(core), l);
    }
  }

  lemma LocalOnLayer(s: System, t: Runs.Run<Payload>, a: Action)
    requires OnLayer(s, t) && a.Local? && Possible(s, a)
    ensures OnLayer(Perform(s, a), t)
  {
    forall d
      ensures RecordedAlike(Perform(s, a).core, t, d)
    {
      assert RecordedAlike(s.core, t, d);
      LocalRecord(s.core, a.step, d);
      if HistoryOf(s.core, d).Passed() != [] {
        SameDropped(HistoryOf(s.core, d), Runs.HistoryOf(t, d));
      }
    }
  }

  lemma TaskSendOnLayer(s: System, t: Runs.Run<Payload>, a: Action)
    requires OnLayer(s, t) && WellFormed(PREFIX, s.store, s.now) && a.TaskSend? && Possible(s, a)
    ensures OnLayer(Perform(s, a), if OpOf(s, a).None? then t else Runs.Next(PREFIX, t, OpOf(s, a).value))
  {
    var r := s.core.conns[a.channel];
    var m := TaskSends(r);
    if m.Some? {
      assert REQUEST_CHANNEL[4] == '.';
      var core := Update(s.core, a.channel, AfterSendTask(r, m.value));
      PutOnLayer(s, t, core, REQUEST_CHANNEL, Request(m.value), a.dataKey);
    } else {
      forall d
        ensures RecordedAlike(Perform(s, a).core, t, d)
      {
        assert RecordedAlike(s.core, t, d);
      }
    }
  }

  lemma TickOnLayer(s: System, t: Runs.Run<Payload>, a: Action)
    requires OnLayer(s, t) && a.Tick?
    ensures OnLayer(Perform(s, a), Runs.Next(PREFIX, t, Runs.Tick(a.seconds)))
  {
    forall d
      ensures RecordedAlike(s.core, Runs.Next(PREFIX, t, Runs.Tick(a.seconds)), d)
    {
      assert RecordedAlike(s.core, t, d);
    }
  }

  lemma ActionOnLayer(s: System, t: Runs.Run<Payload>, a: Action, p: State)
    requires OnLayer(s, t) && Matches(s, p) && Inv(p)
    ensures exists t' ::
              && t' == (if OpOf(s, a).None? then t else Runs.Next(PREFIX, t, OpOf(s, a).value))
              && OnLayer(Perform(s, a), t')
  {
    if Possible(s, a) {
      match a
      case Local(_) => LocalOnLayer(s, t, a);
      case TaskSend(_, _) => TaskSendOnLayer(s, t, a);
      case ApplicationSend(c, response, dataKey) =>
        PutOnLayer(s, t, s.core, c, Response(response), dataKey);
        assert Perform(s, a) == Put(s, s.core, c, Response(response), dataKey);
      case Receive(_, _) =>
        ReplyChannelsAreNames(p, a.channels);
        ReceiveOnLayer(s, t, a);
      case Tick(_) => TickOnLayer(s, t, a);
    } else {
      assert Perform(s, a) == s;
    }
  }

  /** Every run of the server is, for the store, a timed run of the channel layer. */
  lemma {:induction false} ServerRunsLayer(actions: seq<Action>)
    ensures OnLayer(ProtocolOverRedis.Run(actions), Layer(actions))
  {
    if actions != [] {
      var before, a := Init(actions), Last(actions);
      var s := ProtocolOverRedis.Run(before);
      ServerRunsLayer(before);
      Simulation(before);
      InvAlways(Labels(before));
      ActionOnLayer(s, Layer(before), a, Exec(Labels(before)));
      var op := OpOf(s, a);
      if op.Some? {
        assert Ops(actions)[..|Ops(actions)| - 1] == Ops(before);
      } else {
        assert Ops(actions) == Ops(before);
      }
    }
  }

  // ----- Losses -----

  /** Everything that has left the queue of `c`, in order, with its deadline and the time. */
  ghost function Gone(actions: seq<Action>, c: string): seq<Runs.Gone<Payload>> {
    Runs.HistoryOf(Layer(actions), c).Payloads()
  }

  /** The fate of the i-th message that left its queue. */
  function FateOf<P>(h: History<P>, i: nat): Fate
    requires i < |h.Payloads()|
  {
    if i == |h.Payloads()| - 1 then h.fate else FateOf(h.earlier, i)
  }

  /** In every run of the server: what was sent to a channel is, in order, what left its queue and
      what is stored; whatever has left was recorded as expired exactly if it left after its
      deadline; and no live message is out of sight, so that no list expires under one. */
  lemma ServerExpirySafety(actions: seq<Action>, c: string)
    ensures var s := ProtocolOverRedis.Run(actions);
            var h := HistoryOf(s.core, c);
            var q := ProtocolOverRedis.QueueOf(s, c);
            && WellFormed(PREFIX, s.store, s.now)
            && SentOn(s.core, c) == h.Payloads() + Loads(q)
            && |Gone(actions, c)| == |h.Payloads()|
            && (forall i | 0 <= i < |h.Payloads()| ::
                  && h.Payloads()[i] == Gone(actions, c)[i].message.payload
                  && (FateOf(h, i) == Expired <==> !Runs.InTime(Gone(actions, c)[i])))
            && (forall i | 0 <= i < |q| :: s.now <= q[i].deadline ==> Visible(q, s.now))
  {
    var s := ProtocolOverRedis.Run(actions);
    ServerRunsLayer(actions);
    Simulation(actions);
    GoodAt(Labels(actions), c);
    assert RecordedAlike(s.core, Layer(actions), c);
    Runs.ExpirySafety(PREFIX, Ops(actions), c);
    SameFates(HistoryOf(s.core, c), Runs.HistoryOf(Layer(actions), c));
  }

  lemma {:induction false} SameFates(h: History<Payload>, g: History<Runs.Gone<Payload>>)
    requires SameRecord(h, g) && Runs.FatesAreRight(g)
    ensures |h.Payloads()| == |g.Payloads()|
    ensures forall i | 0 <= i < |h.Payloads()| ::
              && h.Payloads()[i] == g.Payloads()[i].message.payload
              && (FateOf(h, i) == Expired <==> !Runs.InTime(g.Payloads()[i]))
  {
    if h.Then? {
      SameFates(h.earlier, g.earlier);
    }
  }

  predicate RemovesNoChannel(actions: seq<Action>) {
    forall i | 0 <= i < |actions| :: actions[i].Local? ==> KeepsChannels(actions[i].step)
  }

  lemma {:induction false} NothingRemoved(actions: seq<Action>)
    requires RemovesNoChannel(actions)
    ensures RemovesNothing(Labels(actions))
  {
    if actions != [] {
      NothingRemoved(Init(actions));
    }
  }

  /** In every run in which no channel is removed, of any length: a pending request has exactly one
      continuation, and the message the pump holds has a callback waiting for it. */
  lemma RegisteredOverRedis(actions: seq<Action>, c: string)
    requires RemovesNoChannel(actions) && c in ProtocolOverRedis.Run(actions).core.conns
    ensures var core := ProtocolOverRedis.Run(actions).core;
            var r := core.conns[c];
            && (r.status == HttpSteps.Pending ==> Continuations(r, c in core.callbacks) == 1)
            && (core.pump.Holding? ==> core.pump.channel in core.callbacks)
            && (core.pump.Snapped? ==> forall d | d in core.pump.names :: d in core.callbacks)
  {
    NothingRemoved(actions);
    Simulation(actions);
    var core := ProtocolOverRedis.Run(actions).core;
    OneContinuation(Labels(actions), c);
    forall d
      ensures core.pump.Snapped? && d in core.pump.names ==> d in core.callbacks
      ensures core.pump.Holding? && core.pump.channel == d ==> d in core.callbacks
    {
      SnapshotStaysRegistered(Labels(actions), d);
    }
  }

  predicate EveryInTime(gone: seq<Runs.Gone<Payload>>) {
    forall i | 0 <= i < |gone| :: Runs.InTime(gone[i])
  }

  lemma OneMoreInTime(gone: seq<Runs.Gone<Payload>>, last: Runs.Gone<Payload>)
    ensures EveryInTime(gone + [last]) <==> EveryInTime(gone) && Runs.InTime(last)
  {
    var all := gone + [last];
    assert all[|gone|] == last;
    assert forall i | 0 <= i < |gone| :: gone[i] == all[i];
  }

  /** How many of the messages left after their deadline. */
  function Late(gone: seq<Runs.Gone<Payload>>): nat {
    if gone == [] then 0
    else Late(gone[..|gone| - 1]) + if Runs.InTime(gone[|gone| - 1]) then 0 else 1
  }

  lemma {:induction false} ExpiredCounted(h: History<Payload>, g: History<Runs.Gone<Payload>>)
    requires SameRecord(h, g) && Runs.FatesAreRight(g)
    ensures Count(h, Expired) == Late(g.Payloads())
  {
    if h.Then? {
      ExpiredCounted(h.earlier, g.earlier);
      assert g.Payloads()[..|g.Payloads()| - 1] == g.earlier.Payloads();
    }
  }

  lemma {:induction false} NoneLate(gone: seq<Runs.Gone<Payload>>)
    ensures Late(gone) == 0 <==> EveryInTime(gone)
  {
    if gone != [] {
      NoneLate(gone[..|gone| - 1]);
      OneMoreInTime(gone[..|gone| - 1], gone[|gone| - 1]);
      assert gone == gone[..|gone| - 1] + [gone[|gone| - 1]];
    }
  }

  /** In every run of the server, as many messages are recorded as expired as left their queue after
      their deadline. */
  lemma ExpiredAreLate(actions: seq<Action>, c: string)
    ensures Count(HistoryOf(ProtocolOverRedis.Run(actions).core, c), Expired) == Late(Gone(actions, c))
  {
    ServerRunsLayer(actions);
    assert RecordedAlike(ProtocolOverRedis.Run(actions).core, Layer(actions), c);
    Runs.ExpirySafety(PREFIX, Ops(actions), c);
    ExpiredCounted(HistoryOf(ProtocolOverRedis.Run(actions).core, c), Runs.HistoryOf(Layer(actions), c));
  }

  /** And in every run, an action drops a message exactly if it dispatches one whose channel has no
      callback. */
  lemma DropsHaveCauses(actions: seq<Action>, a: Action, c: string)
    ensures var core, core' := ProtocolOverRedis.Run(actions).core, ProtocolOverRedis.Run(actions + [a]).core;
            Count(HistoryOf(core', c), Dropped) == Count(HistoryOf(core, c), Dropped)
              + (if a.Local? && a.step.Dispatch? && core.pump.Holding? && core.pump.channel == c
                    && c !in core.callbacks then 1 else 0)
  {
    var s := ProtocolOverRedis.Run(actions);
    var l := LabelOf(s, a);
    assert Init(actions + [a]) == actions;
    Simulation(actions);
    Simulation(actions + [a]);
    if l.Some? {
      assert Init(Labels(actions) + [l.value]) == Labels(actions);
      if Enabled(Exec(Labels(actions)), l.value) {
        LossesHaveCauses(Labels(actions), l.value, c);
      }
    }
  }

  /** In every run in which no channel is removed, nothing of a channel has been lost exactly if
      everything that left its queue left in time. */
  lemma LosslessExactly(actions: seq<Action>, c: string)
    requires RemovesNoChannel(actions)
    ensures HistoryOf(ProtocolOverRedis.Run(actions).core, c).Lossless() <==>
            EveryInTime(Gone(actions, c))
  {
    NothingRemoved(actions);
    Simulation(actions);
    assert ProtocolOverRedis.Run(actions).core == Exec(Labels(actions)).core;
    NothingDropped(Labels(actions), c);
    ExpiredAreLate(actions, c);
    NoneLate(Gone(actions, c));
  }

  lemma {:induction false} InTimeOneByOne(g: History<Runs.Gone<Payload>>)
    ensures Runs.AllInTime(g) <==> EveryInTime(g.Payloads())
  {
    if g.Then? {
      InTimeOneByOne(g.earlier);
      OneMoreInTime(g.earlier.Payloads(), g.payload);
    }
  }

  /** At every point of the run, every message stored for `c` was within its deadline. */
  ghost predicate Timely(actions: seq<Action>, c: string) {
    forall k | 0 <= k <= |actions| ::
      var s := ProtocolOverRedis.Run(actions[..k]);
      Runs.AllAlive(ProtocolOverRedis.QueueOf(s, c), s.now)
  }

  lemma TimelyBefore(actions: seq<Action>, c: string)
    requires Timely(actions, c)
    ensures actions != [] ==> Timely(Init(actions), c)
    ensures var s := ProtocolOverRedis.Run(actions); Runs.AllAlive(ProtocolOverRedis.QueueOf(s, c), s.now)
  {
    assert actions[..|actions|] == actions;
    if actions != [] {
      forall k | 0 <= k <= |Init(actions)|
        ensures var s := ProtocolOverRedis.Run(Init(actions)[..k]);
                Runs.AllAlive(ProtocolOverRedis.QueueOf(s, c), s.now)
      {
        assert Init(actions)[..k] == actions[..k];
      }
    }
  }

  /** If messages are received in time, they leave their queue in time, in runs of any length. */
  lemma {:induction false} TimelyLeavesInTime(actions: seq<Action>, c: string)
    requires Timely(actions, c)
    ensures Runs.AllInTime(Runs.HistoryOf(Layer(actions), c))
  {
    if actions != [] {
      var before := Init(actions);
      TimelyBefore(actions, c);
      TimelyLeavesInTime(before, c);
      TimelyBefore(before, c);
      ServerRunsLayer(before);
      Runs.InvAlways(PREFIX, Ops(before));
      var op := OpOf(ProtocolOverRedis.Run(before), Last(actions));
      if op.Some? {
        Runs.AliveLeavesInTime(PREFIX, Layer(before), op.value, c);
        assert Ops(actions)[..|Ops(actions)| - 1] == Ops(before);
      } else {
        assert Ops(actions) == Ops(before);
      }
    }
  }

  /** If no channel is removed and no message of `c` is ever left lying past its deadline, nothing
      of `c` is lost. */
  lemma TimelyLosesNothing(actions: seq<Action>, c: string)
    requires RemovesNoChannel(actions) && Timely(actions, c)
    ensures HistoryOf(ProtocolOverRedis.Run(actions).core, c).Lossless()
  {
    TimelyLeavesInTime(actions, c);
    InTimeOneByOne(Runs.HistoryOf(Layer(actions), c));
    LosslessExactly(actions, c);
  }

  // ----- Streaming -----

  /** In every run on the channel layer: the bytes written to a client are an initial part of the
      contents of the responses its request has applied, these are an initial part of what was
      received from its own reply channel, and a request that has ended has written them all. As
      long as none of its writes failed, the same holds of the bytes that IIS has confirmed; and
      at the end they are all of them exactly if none failed. */
  lemma StreamingOverRedis(actions: seq<Action>, c: string)
    requires c in ProtocolOverRedis.Run(actions).core.conns
    ensures var core := ProtocolOverRedis.Run(actions).core;
            var r := core.conns[c];
            && r.status != HttpSteps.Crashed
            && Responses(r.h.applied) <= HistoryOf(core, c).Passed()
            && Written(r.h.trace) <= Contents(r.h.applied)
            && (NoWriteFailed(r.h.outcomes) ==> Confirmed(r.h.outcomes) <= Contents(r.h.applied))
            && (Ended(r) ==> Written(r.h.trace) == Contents(r.h.applied))
            && (Ended(r) ==> (Confirmed(r.h.outcomes) == Contents(r.h.applied) <==> NoWriteFailed(r.h.outcomes)))
  {
    Simulation(actions);
    StreamingInOrder(Labels(actions), c);
    ConfirmedExactly(Labels(actions), c);
    OneContinuation(Labels(actions), c);
  }

  /** In every run on the channel layer, whatever expired: what the client gets is the response that
      the messages received alive from the request's channel spell out, up to and including the first
      without more content. */
  lemma PassedOverRedis(actions: seq<Action>, c: string)
    requires c in ProtocolOverRedis.Run(actions).core.conns
    ensures var core := ProtocolOverRedis.Run(actions).core;
            && AllResponses(HistoryOf(core, c).Passed())
            && Delivered(core.conns[c], Contents(UpToFinal(Unpacked(HistoryOf(core, c).Passed()))))
  {
    Simulation(actions);
    ConfirmedPassed(Labels(actions), c);
  }

  /** And if no message of the channel has been lost, these are the contents of the response that
      was sent to it. */
  lemma StreamingOverRedisComplete(actions: seq<Action>, c: string)
    requires c in ProtocolOverRedis.Run(actions).core.conns
    requires HistoryOf(ProtocolOverRedis.Run(actions).core, c).Lossless()
    ensures var core := ProtocolOverRedis.Run(actions).core;
            var r := core.conns[c];
            && AllResponses(SentOn(core, c))
            && Delivered(r, Contents(UpToFinal(Unpacked(SentOn(core, c)))))
  {
    Simulation(actions);
    ConfirmedResponse(Labels(actions), c);
  }

  /** Client streams are complete in runs of any length: no channel is removed, and the messages of
      the request's channel are received within their time to live. */
  lemma TimelyStreams(actions: seq<Action>, c: string)
    requires RemovesNoChannel(actions) && Timely(actions, c) && c in ProtocolOverRedis.Run(actions).core.conns
    ensures var core := ProtocolOverRedis.Run(actions).core;
            var r := core.conns[c];
            && AllResponses(SentOn(core, c))
            && Delivered(r, Contents(UpToFinal(Unpacked(SentOn(core, c)))))
  {
    TimelyLosesNothing(actions, c);
    StreamingOverRedisComplete(actions, c);
  }
}
