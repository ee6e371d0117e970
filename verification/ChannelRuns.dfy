/** Timed runs of the channel layer: any sequence of Sends, ReceiveManys and clock ticks. */
module ChannelRuns {
  import opened ChannelLayer
  import opened Redis
  import opened RedisChannelLayer
  import opened Ledger

  datatype Op<+P> =
    | Send(channel: string, payload: P, dataKey: string)
    | Receive(channels: seq<string>, keys: seq<string>)
    | Tick(seconds: nat)

  /** A message that has left its queue, and when. */
  datatype Gone<+P> = Gone(message: Stamped<P>, at: nat)

  /** It left before its time to live had run out. */
  predicate InTime<P>(g: Gone<P>) {
    g.at <= g.message.deadline
  }

  function Depart<P>(q: seq<Stamped<P>>, now: nat): (gone: seq<Gone<P>>)
    ensures |gone| == |q|
    ensures forall i | 0 <= i < |gone| :: gone[i] == Gone(q[i], now)
  {
    seq(|q|, i requires 0 <= i < |q| => Gone(q[i], now))
  }

  function Departed<P>(gone: seq<Gone<P>>): (q: seq<Stamped<P>>)
    ensures |q| == |gone|
    ensures forall i | 0 <= i < |q| :: q[i] == gone[i].message
  {
    seq(|gone|, i requires 0 <= i < |gone| => gone[i].message)
  }

  /** The store and the clock, with a record of what was sent and of what left each queue. */
  datatype Run<P> = Run(
    store: Keyspace<P>, now: nat,
    sent: map<string, seq<Stamped<P>>>, history: map<string, History<Gone<P>>>)

  function SentOn<P>(s: Run<P>, c: string): seq<Stamped<P>> {
    if c in s.sent then s.sent[c] else []
  }

  function HistoryOf<P>(s: Run<P>, c: string): History<Gone<P>> {
    if c in s.history then s.history[c] else Start
  }

  ghost function QueueOf<P>(prefix: string, s: Run<P>, c: string): seq<Stamped<P>> {
    if WellFormed(prefix, s.store, s.now) then Stored(prefix, s.store, s.now, c) else []
  }

  /** Random names are fresh; the keys of a receive are a shuffle of the right ones. */
  predicate Enabled<P>(prefix: string, s: Run<P>, op: Op<P>) {
    match op
    case Send(c, _, dataKey) => IsChannelName(c) && IsDataKey(prefix, dataKey) && dataKey !in s.store
    case Receive(channels, keys) => AllChannelNames(channels) && IsShuffle(prefix, channels, keys)
    case Tick(_) => true
  }

  /** What is gone with an expired list, and what a new message joins. */
  function Vanished<P>(q: seq<Stamped<P>>, now: nat): seq<Stamped<P>> {
    if Visible(q, now) then [] else q
  }

  function Remaining<P>(q: seq<Stamped<P>>, now: nat): seq<Stamped<P>> {
    if Visible(q, now) then q else []
  }

  /** A receive takes the head of queue `c`, with this fate. */
  ghost function TakeHead<P>(prefix: string, s: Run<P>, store': Keyspace<P>, c: string, fate: Fate): Run<P> {
    var q := QueueOf(prefix, s, c);
    if q == [] then s.(store := store')
    else s.(store := store', history := s.history[c := Then(HistoryOf(s, c), Gone(q[0], s.now), fate)])
  }

  ghost function Next<P>(prefix: string, s: Run<P>, op: Op<P>): Run<P> {
    if !Enabled(prefix, s, op) then s
    else match op
      case Send(c, p, dataKey) =>
        var q := QueueOf(prefix, s, c);
        Run(SendTo(prefix, s.store, s.now, c, p, dataKey), s.now,
            s.sent[c := SentOn(s, c) + [Stamped(p, s.now + EXPIRY)]],
            s.history[c := HistoryOf(s, c).Purged(Depart(Vanished(q, s.now), s.now))])
      case Receive(_, keys) =>
        var (store', r) := ReceiveFrom(prefix, s.store, s.now, keys);
        (match r
         case Message(c, _) => TakeHead(prefix, s, store', c, Kept)
         case Dead(c) => TakeHead(prefix, s, store', c, Expired)
         case _ => s.(store := store'))
      case Tick(seconds) => s.(now := s.now + seconds)
  }

  ghost function Exec<P>(prefix: string, ops: seq<Op<P>>): Run<P> {
    if ops == [] then Run(map[], 0, map[], map[])
    else Next(prefix, Exec(prefix, ops[..|ops| - 1]), ops[|ops| - 1])
  }

  /** What is recorded as expired are exactly the messages that left after their deadline; nothing
      is ever dropped here. */
  predicate FatesAreRight<P>(h: History<Gone<P>>) {
    h.Then? ==> h.fate != Dropped && (h.fate == Expired <==> !InTime(h.payload)) && FatesAreRight(h.earlier)
  }

  ghost predicate ChannelInv<P>(sent: seq<Stamped<P>>, h: History<Gone<P>>, q: seq<Stamped<P>>, now: nat) {
    && sent == Departed(h.Payloads()) + q
    && Sorted(sent) && (forall i | 0 <= i < |sent| :: sent[i].deadline <= now + EXPIRY)
    && FatesAreRight(h)
  }

  ghost predicate InvAt<P>(prefix: string, s: Run<P>, c: string)
    requires WellFormed(prefix, s.store, s.now)
  {
    ChannelInv(SentOn(s, c), HistoryOf(s, c), Stored(prefix, s.store, s.now, c), s.now)
  }

  ghost predicate Inv<P>(prefix: string, s: Run<P>) {
    WellFormed(prefix, s.store, s.now) && forall c :: InvAt(prefix, s, c)
  }

  lemma {:induction false} PurgingTheDead<P>(h: History<Gone<P>>, q: seq<Stamped<P>>, now: nat)
    requires FatesAreRight(h) && forall i | 0 <= i < |q| :: q[i].deadline < now
    ensures FatesAreRight(h.Purged(Depart(q, now)))
  {
    if q != [] {
      assert Depart(q, now)[..|q| - 1] == Depart(q[..|q| - 1], now);
      PurgingTheDead(h, q[..|q| - 1], now);
    }
  }

  /** A list that has expired references only payloads that have been dead for longer than the
      extra time the list was given. */
  lemma InvisibleIsDead<P>(q: seq<Stamped<P>>, now: nat)
    requires Sorted(q) && !Visible(q, now)
    ensures forall i | 0 <= i < |q| :: q[i].deadline + CHANNEL_GRACE < now
  {
    forall i | 0 <= i < |q|
      ensures q[i].deadline + CHANNEL_GRACE < now
    {
      assert q[i].deadline <= q[|q| - 1].deadline;
    }
  }

  /** What one operation does to the store and to channel `c`'s record and queue. */
  ghost predicate Effects<P>(prefix: string, s': Run<P>, now: nat, c: string,
      sent: seq<Stamped<P>>, h: History<Gone<P>>, q: seq<Stamped<P>>)
  {
    && WellFormed(prefix, s'.store, s'.now) && s'.now == now
    && SentOn(s', c) == sent && HistoryOf(s', c) == h && Stored(prefix, s'.store, s'.now, c) == q
  }

  lemma SendEffectsThere<P>(prefix: string, s: Run<P>, op: Op<P>)
    requires WellFormed(prefix, s.store, s.now) && Enabled(prefix, s, op) && op.Send?
    ensures var q, m := Stored(prefix, s.store, s.now, op.channel), Stamped(op.payload, s.now + EXPIRY);
            Effects(prefix, Next(prefix, s, op), s.now, op.channel, SentOn(s, op.channel) + [m],
                    HistoryOf(s, op.channel).Purged(Depart(Vanished(q, s.now), s.now)), Remaining(q, s.now) + [m])
  {
    SendAppends(prefix, s.store, s.now, op.channel, op.payload, op.dataKey);
  }

  lemma SendEffectsElsewhere<P>(prefix: string, s: Run<P>, op: Op<P>, c: string)
    requires WellFormed(prefix, s.store, s.now) && Enabled(prefix, s, op) && op.Send? && c != op.channel
    ensures Effects(prefix, Next(prefix, s, op), s.now, c, SentOn(s, c), HistoryOf(s, c),
                    Stored(prefix, s.store, s.now, c))
  {
    SendAppends(prefix, s.store, s.now, op.channel, op.payload, op.dataKey);
  }

  lemma SendKeeps<P>(prefix: string, s: Run<P>, op: Op<P>, c: string)
    requires WellFormed(prefix, s.store, s.now) && InvAt(prefix, s, c) && Enabled(prefix, s, op) && op.Send?
    ensures var s' := Next(prefix, s, op); WellFormed(prefix, s'.store, s'.now) && InvAt(prefix, s', c)
  {
    if c == op.channel {
      SendKeepsThere(prefix, s, op);
    } else {
      SendEffectsElsewhere(prefix, s, op, c);
      Transfer(prefix, Next(prefix, s, op), s.now, c, SentOn(s, c), HistoryOf(s, c), Stored(prefix, s.store, s.now, c));
    }
  }

  lemma SendKeepsThere<P>(prefix: string, s: Run<P>, op: Op<P>)
    requires WellFormed(prefix, s.store, s.now) && Enabled(prefix, s, op) && op.Send?
    requires InvAt(prefix, s, op.channel)
    ensures var s' := Next(prefix, s, op); WellFormed(prefix, s'.store, s'.now) && InvAt(prefix, s', op.channel)
  {
    var c := op.channel;
    SendEffectsThere(prefix, s, op);
    QueuesAreSorted(prefix, s.store, s.now, s.now, c);
    DepositTransfers(prefix, Next(prefix, s, op), SentOn(s, c), HistoryOf(s, c),
                     Stored(prefix, s.store, s.now, c), s.now, c, op.payload);
  }

  lemma DepositTransfers<P>(prefix: string, s': Run<P>, sent: seq<Stamped<P>>, h: History<Gone<P>>,
      q: seq<Stamped<P>>, now: nat, c: string, p: P)
    requires ChannelInv(sent, h, q, now) && Sorted(q)
    requires var m := Stamped(p, now + EXPIRY);
             Effects(prefix, s', now, c, sent + [m], h.Purged(Depart(Vanished(q, now), now)), Remaining(q, now) + [m])
    ensures WellFormed(prefix, s'.store, s'.now) && InvAt(prefix, s', c)
  {
    DepositKeeps(sent, h, q, now, p);
  }

  lemma Transfer<P>(prefix: string, s': Run<P>, now: nat, c: string,
      sent: seq<Stamped<P>>, h: History<Gone<P>>, q: seq<Stamped<P>>)
    requires Effects(prefix, s', now, c, sent, h, q) && ChannelInv(sent, h, q, now)
    ensures WellFormed(prefix, s'.store, s'.now) && InvAt(prefix, s', c)
  {
  }

  lemma DepositKeeps<P>(sent: seq<Stamped<P>>, h: History<Gone<P>>, q: seq<Stamped<P>>, now: nat, p: P)
    requires ChannelInv(sent, h, q, now) && Sorted(q)
    ensures var m := Stamped(p, now + EXPIRY);
            ChannelInv(sent + [m], h.Purged(Depart(Vanished(q, now), now)), Remaining(q, now) + [m], now)
  {
    PurgeKeeps(sent, h, q, now);
    AppendKeeps(sent, h.Purged(Depart(Vanished(q, now), now)), Remaining(q, now), now, p);
  }

  lemma PurgeKeeps<P>(sent: seq<Stamped<P>>, h: History<Gone<P>>, q: seq<Stamped<P>>, now: nat)
    requires ChannelInv(sent, h, q, now) && Sorted(q)
    ensures ChannelInv(sent, h.Purged(Depart(Vanished(q, now), now)), Remaining(q, now), now)
  {
    var lost := Vanished(q, now);
    if !Visible(q, now) {
      InvisibleIsDead(q, now);
    }
    PurgingTheDead(h, lost, now);
    DepartedPurged(h, lost, now);
    assert lost + Remaining(q, now) == q;
    assert sent == Departed(h.Payloads()) + lost + Remaining(q, now);
  }

  lemma AppendKeeps<P>(sent: seq<Stamped<P>>, h: History<Gone<P>>, q: seq<Stamped<P>>, now: nat, p: P)
    requires ChannelInv(sent, h, q, now)
    ensures var m := Stamped(p, now + EXPIRY); ChannelInv(sent + [m], h, q + [m], now)
  {
    var m := Stamped(p, now + EXPIRY);
    assert Departed(h.Payloads()) + q + [m] == Departed(h.Payloads()) + (q + [m]);
  }

  lemma DepartedPurged<P>(h: History<Gone<P>>, lost: seq<Stamped<P>>, now: nat)
    ensures Departed(h.Purged(Depart(lost, now)).Payloads()) == Departed(h.Payloads()) + lost
  {
  }

  lemma TakeKeeps<P>(sent: seq<Stamped<P>>, h: History<Gone<P>>, q: seq<Stamped<P>>, now: nat, fate: Fate)
    requires ChannelInv(sent, h, q, now) && q != []
    requires fate == if now <= q[0].deadline then Kept else Expired
    ensures ChannelInv(sent, Then(h, Gone(q[0], now), fate), q[1..], now)
  {
    assert Departed(h.Payloads() + [Gone(q[0], now)]) == Departed(h.Payloads()) + [q[0]];
    assert q == [q[0]] + q[1..];
    assert Departed(h.Payloads()) + q == Departed(h.Payloads()) + [q[0]] + q[1..];
  }

  /** The receive takes the head of channel `c`. */
  predicate Takes<P>(r: Received<P>, c: string) {
    (r.Message? || r.Dead?) && r.channel == c
  }

  function FateOf<P>(r: Received<P>): Fate {
    if r.Message? then Kept else Expired
  }

  lemma ReceiveEffectsThere<P>(prefix: string, s: Run<P>, op: Op<P>, c: string)
    requires WellFormed(prefix, s.store, s.now) && Enabled(prefix, s, op) && op.Receive?
    requires Takes(ReceiveFrom(prefix, s.store, s.now, op.keys).1, c)
    ensures var q := Stored(prefix, s.store, s.now, c);
            var r := ReceiveFrom(prefix, s.store, s.now, op.keys).1;
            && q != [] && (r.Dead? <==> q[0].deadline < s.now)
            && Effects(prefix, Next(prefix, s, op), s.now, c, SentOn(s, c),
                       Then(HistoryOf(s, c), Gone(q[0], s.now), FateOf(r)), q[1..])
  {
    ReceiveTakesHead(prefix, s.store, s.now, op.channels, op.keys);
  }

  lemma ReceiveEffectsElsewhere<P>(prefix: string, s: Run<P>, op: Op<P>, c: string)
    requires WellFormed(prefix, s.store, s.now) && Enabled(prefix, s, op) && op.Receive?
    requires !Takes(ReceiveFrom(prefix, s.store, s.now, op.keys).1, c)
    ensures Effects(prefix, Next(prefix, s, op), s.now, c, SentOn(s, c), HistoryOf(s, c),
                    Stored(prefix, s.store, s.now, c))
  {
    ReceiveTakesHead(prefix, s.store, s.now, op.channels, op.keys);
  }

  lemma ReceiveKeeps<P>(prefix: string, s: Run<P>, op: Op<P>, c: string)
    requires WellFormed(prefix, s.store, s.now) && InvAt(prefix, s, c) && Enabled(prefix, s, op) && op.Receive?
    ensures var s' := Next(prefix, s, op); WellFormed(prefix, s'.store, s'.now) && InvAt(prefix, s', c)
  {
    var q := Stored(prefix, s.store, s.now, c);
    var r := ReceiveFrom(prefix, s.store, s.now, op.keys).1;
    if Takes(r, c) {
      ReceiveEffectsThere(prefix, s, op, c);
      TakeKeeps(SentOn(s, c), HistoryOf(s, c), q, s.now, FateOf(r));
      Transfer(prefix, Next(prefix, s, op), s.now, c, SentOn(s, c),
               Then(HistoryOf(s, c), Gone(q[0], s.now), FateOf(r)), q[1..]);
    } else {
      ReceiveEffectsElsewhere(prefix, s, op, c);
      Transfer(prefix, Next(prefix, s, op), s.now, c, SentOn(s, c), HistoryOf(s, c), q);
    }
  }

  lemma TickKeeps<P>(prefix: string, s: Run<P>, op: Op<P>, c: string)
    requires WellFormed(prefix, s.store, s.now) && InvAt(prefix, s, c) && op.Tick?
    ensures var s' := Next(prefix, s, op); WellFormed(prefix, s'.store, s'.now) && InvAt(prefix, s', c)
  {
    var s' := Next(prefix, s, op);
    QueuesAreSorted(prefix, s.store, s.now, s'.now, c);
    assert InvAt(prefix, s, c);
    assert ChannelInv(SentOn(s', c), HistoryOf(s', c), Stored(prefix, s.store, s.now, c), s'.now);
  }

  lemma OpKeeps<P>(prefix: string, s: Run<P>, op: Op<P>)
    requires Inv(prefix, s)
    ensures Inv(prefix, Next(prefix, s, op))
  {
    var s' := Next(prefix, s, op);
    if Enabled(prefix, s, op) {
      OpKeepsAt(prefix, s, op, "");
      forall c: string
        ensures InvAt(prefix, s', c)
      {
        OpKeepsAt(prefix, s, op, c);
      }
    }
  }

  lemma OpKeepsAt<P>(prefix: string, s: Run<P>, op: Op<P>, c: string)
    requires WellFormed(prefix, s.store, s.now) && InvAt(prefix, s, c) && Enabled(prefix, s, op)
    ensures var s' := Next(prefix, s, op); WellFormed(prefix, s'.store, s'.now) && InvAt(prefix, s', c)
  {
    match op
    case Send(_, _, _) => SendKeeps(prefix, s, op, c);
    case Receive(_, _) => ReceiveKeeps(prefix, s, op, c);
    case Tick(_) => TickKeeps(prefix, s, op, c);
  }

  lemma {:induction false} InvAlways<P>(prefix: string, ops: seq<Op<P>>)
    ensures Inv(prefix, Exec(prefix, ops))
  {
    if ops != [] {
      InvAlways(prefix, ops[..|ops| - 1]);
      OpKeeps(prefix, Exec(prefix, ops[..|ops| - 1]), ops[|ops| - 1]);
    }
  }

  /** In every timed run: what was sent to a channel is, in order, what has left its queue and
      what is still stored; what left is recorded as expired exactly if it left after its
      deadline; whatever is stored and still alive can be seen, behind a prefix of dead messages
      only. */
  lemma ExpirySafety<P>(prefix: string, ops: seq<Op<P>>, c: string)
    ensures var s := Exec(prefix, ops);
            var q := QueueOf(prefix, s, c);
            && SentOn(s, c) == Departed(HistoryOf(s, c).Payloads()) + q
            && FatesAreRight(HistoryOf(s, c))
            && (forall i | 0 <= i < |q| :: s.now <= q[i].deadline ==> Visible(q, s.now))
            && (forall i, j | 0 <= i < j < |q| :: q[j].deadline < s.now ==> q[i].deadline < s.now)
  {
    var s := Exec(prefix, ops);
    InvAlways(prefix, ops);
    var q := QueueOf(prefix, s, c);
    assert InvAt(prefix, s, c);
    QueuesAreSorted(prefix, s.store, s.now, s.now, c);
    if !Visible(q, s.now) {
      InvisibleIsDead(q, s.now);
    }
  }

  /** From `s` to `s'`, the head of channel `d` was taken, with the fate its deadline gives. */
  ghost predicate TookHead<P>(prefix: string, s: Run<P>, s': Run<P>, d: string) {
    var q := QueueOf(prefix, s, d);
    && q != [] && QueueOf(prefix, s', d) == q[1..]
    && (forall e | e != d :: QueueOf(prefix, s', e) == QueueOf(prefix, s, e))
    && HistoryOf(s', d) == Then(HistoryOf(s, d), Gone(q[0], s.now), if s.now <= q[0].deadline then Kept else Expired)
  }

  lemma ReceiveTookHead<P>(prefix: string, s: Run<P>, op: Op<P>)
    requires WellFormed(prefix, s.store, s.now) && Enabled(prefix, s, op) && op.Receive?
    requires var r := ReceiveFrom(prefix, s.store, s.now, op.keys).1; r.Message? || r.Dead?
    ensures TookHead(prefix, s, Next(prefix, s, op), ReceiveFrom(prefix, s.store, s.now, op.keys).1.channel)
  {
    var d := ReceiveFrom(prefix, s.store, s.now, op.keys).1.channel;
    ReceiveEffectsThere(prefix, s, op, d);
    forall e | e != d
      ensures QueueOf(prefix, Next(prefix, s, op), e) == QueueOf(prefix, s, e)
    {
      ReceiveEffectsElsewhere(prefix, s, op, e);
    }
  }

  lemma SomethingIsTaken<P>(prefix: string, s: Run<P>, op: Op<P>, c: string)
    requires WellFormed(prefix, s.store, s.now) && Enabled(prefix, s, op) && op.Receive? && c in op.channels
    requires Visible(Stored(prefix, s.store, s.now, c), s.now)
    ensures var r := ReceiveFrom(prefix, s.store, s.now, op.keys).1; (r.Message? || r.Dead?) && r.channel in op.channels
  {
    ReceiveTakesHead(prefix, s.store, s.now, op.channels, op.keys);
  }

  /** In every timed run, a receive on channels of which one stores a live message either returns
      the oldest message of some requested channel, still alive, or discards exactly one message,
      already dead; so no live message is ever overtaken by a younger one of its channel. */
  lemma ReceiveIsFifo<P>(prefix: string, ops: seq<Op<P>>, channels: seq<string>, keys: seq<string>, c: string)
    requires AllChannelNames(channels) && IsShuffle(prefix, channels, keys) && c in channels
    requires var s := Exec(prefix, ops);
             exists i :: 0 <= i < |QueueOf(prefix, s, c)| && s.now <= QueueOf(prefix, s, c)[i].deadline
    ensures var s := Exec(prefix, ops);
            exists d :: d in channels && TookHead(prefix, s, Next(prefix, s, Receive(channels, keys)), d)
  {
    var s, op := Exec(prefix, ops), Receive(channels, keys);
    InvAlways(prefix, ops);
    ExpirySafety(prefix, ops, c);
    SomethingIsTaken(prefix, s, op, c);
    ReceiveTookHead(prefix, s, op);
  }

  // ----- What is lost -----

  /** Everything on record left in time. */
  predicate AllInTime<P>(h: History<Gone<P>>) {
    h.Then? ==> InTime(h.payload) && AllInTime(h.earlier)
  }

  lemma {:induction false} LosslessExactly<P>(h: History<Gone<P>>)
    requires FatesAreRight(h)
    ensures h.Lossless() <==> AllInTime(h)
  {
    if h.Then? {
      LosslessExactly(h.earlier);
    }
  }

  predicate AllAlive<P>(q: seq<Stamped<P>>, now: nat) {
    forall i | 0 <= i < |q| :: now <= q[i].deadline
  }

  /** While everything stored for a channel is alive, what leaves its queue leaves in time. */
  lemma AliveLeavesInTime<P>(prefix: string, s: Run<P>, op: Op<P>, c: string)
    requires Inv(prefix, s) && AllAlive(QueueOf(prefix, s, c), s.now) && AllInTime(HistoryOf(s, c))
    ensures AllInTime(HistoryOf(Next(prefix, s, op), c))
  {
    var q := QueueOf(prefix, s, c);
    if Enabled(prefix, s, op) {
      match op
      case Send(d, _, _) =>
        if d == c {
          assert Vanished(q, s.now) == [];
          assert HistoryOf(s, c).Purged([]) == HistoryOf(s, c);
          assert Depart(Vanished(q, s.now), s.now) == [];
        }
      case Receive(_, keys) =>
        var r := ReceiveFrom(prefix, s.store, s.now, keys).1;
        if Takes(r, c) {
          ReceiveEffectsThere(prefix, s, op, c);
        } else {
          ReceiveEffectsElsewhere(prefix, s, op, c);
        }
      case Tick(_) =>
    }
  }
}
