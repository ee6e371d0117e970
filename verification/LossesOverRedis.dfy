/** Runs on the channel layer, action by action, in which something goes wrong: a message expires, a
    request hangs, and a response is lost on the way to the client. */
module LossesOverRedis {
  import opened AsgiMessages
  import opened ChannelLayer
  import opened Redis
  import opened RedisChannelLayer
  import opened Ledger
  import opened Protocol
  import opened Delivery
  import opened Completions
  import opened ProtocolOverRedis
  import opened RedisDelivery
  import opened ProgressOverRedis

  // ----- A message expires -----

  /** Two messages are sent to a channel, some time apart. */
  function TwoSends(c: string, m: AsgiHttpResponseMsg, n: AsgiHttpResponseMsg, mKey: string, nKey: string,
      seconds: nat): seq<Action>
  {
    [ApplicationSend(c, m, mKey), Tick(seconds), ApplicationSend(c, n, nKey)]
  }

  lemma TwoSendsUnfold(c: string, m: AsgiHttpResponseMsg, n: AsgiHttpResponseMsg, mKey: string, nKey: string,
      seconds: nat)
    ensures var s0 := System(map[], 0, INITIAL.core);
            var s1 := Perform(s0, ApplicationSend(c, m, mKey));
            var s2 := Perform(s1, Tick(seconds));
            ProtocolOverRedis.Run(TwoSends(c, m, n, mKey, nKey, seconds)) == Perform(s2, ApplicationSend(c, n, nKey))
  {
    var (first, second) := (ApplicationSend(c, m, mKey), ApplicationSend(c, n, nKey));
    RunSnoc([], first);
    RunSnoc([] + [first], Tick(seconds));
    RunSnoc([] + [first] + [Tick(seconds)], second);
    assert TwoSends(c, m, n, mKey, nKey, seconds) == [] + [first] + [Tick(seconds)] + [second];
  }

  /** The first message stored. */
  lemma FirstIsStored(c: string, p: Payload, key: string, other: string)
    requires IsChannelName(c) && IsDataKey(PREFIX, key) && IsDataKey(PREFIX, other) && other != key
    ensures var store: Keyspace<Payload> := map[]; other !in SendTo(PREFIX, store, 0, c, p, key)
  {
    var store: Keyspace<Payload> := map[];
    SendCommands(PREFIX, store, 0, c, p, key);
    KeySpacesAreDisjoint(PREFIX, other);
    assert (PREFIX + c)[|PREFIX|..] == c;
  }

  lemma FirstQueue(c: string, p: Payload, key: string, seconds: nat)
    requires IsChannelName(c) && IsDataKey(PREFIX, key)
    ensures var store: Keyspace<Payload> := map[];
            var store' := SendTo(PREFIX, store, 0, c, p, key);
            && WellFormed(PREFIX, store', seconds)
            && Stored(PREFIX, store', seconds, c) == [Stamped(p, EXPIRY)]
  {
    var store: Keyspace<Payload> := map[];
    SendAppends(PREFIX, store, 0, c, p, key);
    QueuesAreSorted(PREFIX, SendTo(PREFIX, store, 0, c, p, key), 0, seconds, c);
  }

  lemma FirstSend(c: string, m: AsgiHttpResponseMsg, mKey: string, nKey: string, seconds: nat)
    requires IsChannelName(c) && IsDataKey(PREFIX, mKey) && IsDataKey(PREFIX, nKey) && nKey != mKey
    ensures var s := Perform(System(map[], 0, INITIAL.core), ApplicationSend(c, m, mKey));
            var s' := Perform(s, Tick(seconds));
            && WellFormed(PREFIX, s'.store, s'.now) && s'.now == seconds && nKey !in s'.store
            && QueueOf(s', c) == [Stamped(Response(m), EXPIRY)]
            && HistoryOf(s'.core, c) == Start && SentOn(s'.core, c) == [Response(m)]
  {
    FirstQueue(c, Response(m), mKey, seconds);
    FirstIsStored(c, Response(m), mKey, nKey);
    var s := System(map[], 0, INITIAL.core);
    assert !Purges(s, c);
  }

  lemma SecondSend(s: System, c: string, m: AsgiHttpResponseMsg, n: AsgiHttpResponseMsg, nKey: string)
    requires WellFormed(PREFIX, s.store, s.now) && nKey !in s.store && IsChannelName(c) && IsDataKey(PREFIX, nKey)
    requires QueueOf(s, c) == [Stamped(Response(m), EXPIRY)]
    requires HistoryOf(s.core, c) == Start && SentOn(s.core, c) == [Response(m)]
    ensures var s' := Perform(s, ApplicationSend(c, n, nKey));
            var late := s.now > EXPIRY + CHANNEL_GRACE;
            && SentOn(s'.core, c) == [Response(m), Response(n)]
            && HistoryOf(s'.core, c) == if late then Then(Start, Response(m), Expired) else Start
  {
    var q := QueueOf(s, c);
    assert Visible(q, s.now) <==> s.now <= EXPIRY + CHANNEL_GRACE;
    assert Loads(q) == [Response(m)];
    assert Start.Purged([Response(m)]) == Then(Start, Response(m), Expired);
  }

  /** A message that nobody receives is lost to the next send exactly if its list has expired. */
  lemma LeftLyingExactly(c: string, m: AsgiHttpResponseMsg, n: AsgiHttpResponseMsg, mKey: string, nKey: string,
      seconds: nat)
    requires IsChannelName(c) && IsDataKey(PREFIX, mKey) && IsDataKey(PREFIX, nKey) && nKey != mKey
    ensures var core := ProtocolOverRedis.Run(TwoSends(c, m, n, mKey, nKey, seconds)).core;
            && SentOn(core, c) == [Response(m), Response(n)]
            && (HistoryOf(core, c).Lossless() <==> seconds <= 70)
  {
    var s := Perform(Perform(System(map[], 0, INITIAL.core), ApplicationSend(c, m, mKey)), Tick(seconds));
    TwoSendsUnfold(c, m, n, mKey, nKey, seconds);
    FirstSend(c, m, mKey, nKey, seconds);
    SecondSend(s, c, m, n, nKey);
  }

  // ----- A request is answered -----

  const REQUEST_KEY := "asgi:aaaaaaaaaa"
  const REPLY_KEY := "asgi:bbbbbbbbbb"

  lemma KeysAreDataKeys()
    ensures IsDataKey(PREFIX, REQUEST_KEY) && IsDataKey(PREFIX, REPLY_KEY)
    ensures REQUEST_KEY != REPLY_KEY && IsChannelName(CHANNEL) && IsChannelName(REQUEST_CHANNEL)
    ensures CHANNEL != REQUEST_CHANNEL
  {
    assert REQUEST_KEY[|PREFIX|..] == "aaaaaaaaaa" && REPLY_KEY[|PREFIX|..] == "bbbbbbbbbb";
    assert REQUEST_KEY[..|PREFIX|] == PREFIX && REPLY_KEY[..|PREFIX|] == PREFIX;
    assert REQUEST_KEY[|PREFIX|] != REPLY_KEY[|PREFIX|];
    assert CHANNEL[4] == '.' && REQUEST_CHANNEL[4] == '.' && |CHANNEL| != |REQUEST_CHANNEL|;
  }

  const ARRIVAL := Arrive(CHANNEL, REQUEST, "", ALWAYS_LATER)

  /** The request arrives, is sent, and waits; then the application answers it. */
  const WAITING_ACTIONS :=
    [Local(ARRIVAL)] + [TaskSend(CHANNEL, REQUEST_KEY)] + [Local(PostedCompletion(CHANNEL))]
  const ANSWERING := WAITING_ACTIONS + [ApplicationSend(CHANNEL, REPLY, REPLY_KEY)]

  /** What these actions amount to. */
  const WAITING_LABELS := [ARRIVAL] + [SendTask(CHANNEL, false)] + [PostedCompletion(CHANNEL)]
  const ANSWERING_LABELS := WAITING_LABELS + [AppSend(CHANNEL, REPLY, false)]

  /** `actions` amount to `labels`, time has stood still, and nothing has left the channel. */
  ghost predicate Reached(actions: seq<Action>, labels: seq<Label>) {
    && Labels(actions) == labels && ProtocolOverRedis.Run(actions).now == 0
    && ProtocolOverRedis.Run(actions).core == Exec(labels).core
    && HistoryOf(Exec(labels).core, CHANNEL) == Start
  }

  lemma LocalReached(actions: seq<Action>, labels: seq<Label>, l: Label)
    requires Reached(actions, labels) && IsLocal(l) && Enabled(Exec(labels), l)
    ensures Labels(actions + [Local(l)]) == labels + [l] && Reached(actions + [Local(l)], labels + [l])
    ensures ProtocolOverRedis.Run(actions + [Local(l)]).store == ProtocolOverRedis.Run(actions).store
  {
    LocalMore(actions, l);
    LocalRecord(ProtocolOverRedis.Run(actions).core, l, CHANNEL);
  }

  lemma ArrivalReached()
    ensures Reached([Local(ARRIVAL)], [ARRIVAL]) && Stage([ARRIVAL], SENDING, map[], Idle, [])
    ensures ProtocolOverRedis.Run([Local(ARRIVAL)]).store == map[]
  {
    Arrives();
    assert REPLY_PREFIX == CHANNEL[..13];
    assert Enabled(Exec([]), ARRIVAL);
    LocalReached([], [], ARRIVAL);
    assert [] + [Local(ARRIVAL)] == [Local(ARRIVAL)] && [] + [ARRIVAL] == [ARRIVAL];
  }

  lemma RequestPerformed(s: System)
    requires CHANNEL in s.core.conns && s.core.conns[CHANNEL] == SENDING && s.store == map[] && s.now == 0
    ensures var a := TaskSend(CHANNEL, REQUEST_KEY);
            var core := Update(s.core, CHANNEL, AfterSendTask(SENDING, REQUEST));
            && LabelOf(s, a) == Some(SendTask(CHANNEL, false))
            && Perform(s, a) == Put(s, core, REQUEST_CHANNEL, Request(REQUEST), REQUEST_KEY)
  {
    KeysAreDataKeys();
    assert !Purges(s, REQUEST_CHANNEL);
  }

  lemma RequestReached(actions: seq<Action>, labels: seq<Label>)
    requires Reached(actions, labels) && Stage(labels, SENDING, map[], Idle, [])
    requires ProtocolOverRedis.Run(actions).store == map[]
    ensures Reached(actions + [TaskSend(CHANNEL, REQUEST_KEY)], labels + [SendTask(CHANNEL, false)])
    ensures REPLY_KEY !in ProtocolOverRedis.Run(actions + [TaskSend(CHANNEL, REQUEST_KEY)]).store
  {
    RequestPerformed(ProtocolOverRedis.Run(actions));
    KeysAreDataKeys();
    FirstIsStored(REQUEST_CHANNEL, Request(REQUEST), REQUEST_KEY, REPLY_KEY);
    RunSnoc(actions, TaskSend(CHANNEL, REQUEST_KEY));
    CoreOf(actions + [TaskSend(CHANNEL, REQUEST_KEY)]);
  }

  lemma WaitingReached()
    ensures Reached(WAITING_ACTIONS, WAITING_LABELS)
    ensures Stage(WAITING_LABELS, WAITING, map[CHANNEL := CHANNEL], Idle, [])
    ensures REPLY_KEY !in ProtocolOverRedis.Run(WAITING_ACTIONS).store
  {
    ArrivalReached();
    IsSentOff([ARRIVAL]);
    RequestReached([Local(ARRIVAL)], [ARRIVAL]);
    var actions := [Local(ARRIVAL)] + [TaskSend(CHANNEL, REQUEST_KEY)];
    var labels := [ARRIVAL] + [SendTask(CHANNEL, false)];
    StartsWaiting(labels);
    LocalReached(actions, labels, PostedCompletion(CHANNEL));
  }

  lemma AnswerPerformed(s: System)
    requires WellFormed(PREFIX, s.store, s.now) && QueueOf(s, CHANNEL) == [] && s.now == 0 && REPLY_KEY !in s.store
    ensures var s' := Perform(s, ApplicationSend(CHANNEL, REPLY, REPLY_KEY));
            && LabelOf(s, ApplicationSend(CHANNEL, REPLY, REPLY_KEY)) == Some(AppSend(CHANNEL, REPLY, false))
            && s'.now == 0 && HistoryOf(s'.core, CHANNEL) == HistoryOf(s.core, CHANNEL)
            && QueueOf(s', CHANNEL) == [Stamped(Response(REPLY), EXPIRY)]
  {
    KeysAreDataKeys();
    assert !Purges(s, CHANNEL);
    SendAppends(PREFIX, s.store, 0, CHANNEL, Response(REPLY), REPLY_KEY);
  }

  /** A request that waits is answered. */
  lemma AnswerReached(actions: seq<Action>, labels: seq<Label>)
    requires Reached(actions, labels) && Stage(labels, WAITING, map[CHANNEL := CHANNEL], Idle, [])
    requires REPLY_KEY !in ProtocolOverRedis.Run(actions).store
    ensures var (a, l) := (ApplicationSend(CHANNEL, REPLY, REPLY_KEY), AppSend(CHANNEL, REPLY, false));
            && Reached(actions + [a], labels + [l])
            && QueueOf(ProtocolOverRedis.Run(actions + [a]), CHANNEL) == [Stamped(Response(REPLY), EXPIRY)]
  {
    NothingStored(actions, CHANNEL);
    StoreIsWellFormed(actions);
    AnswerPerformed(ProtocolOverRedis.Run(actions));
    RunSnoc(actions, ApplicationSend(CHANNEL, REPLY, REPLY_KEY));
    CoreOf(actions + [ApplicationSend(CHANNEL, REPLY, REPLY_KEY)]);
  }

  lemma NothingStored(actions: seq<Action>, c: string)
    requires Queue(Exec(Labels(actions)), c) == []
    ensures QueueOf(ProtocolOverRedis.Run(actions), c) == []
  {
    Simulation(actions);
    assert |Loads(QueueOf(ProtocolOverRedis.Run(actions), c))| == 0;
  }

  lemma AnsweringReached()
    ensures Reached(ANSWERING, ANSWERING_LABELS)
    ensures Stage(ANSWERING_LABELS, WAITING, map[CHANNEL := CHANNEL], Idle, [Response(REPLY)])
    ensures QueueOf(ProtocolOverRedis.Run(ANSWERING), CHANNEL) == [Stamped(Response(REPLY), EXPIRY)]
  {
    WaitingReached();
    IsAnswered(WAITING_LABELS);
    AnswerReached(WAITING_ACTIONS, WAITING_LABELS);
  }

  // ----- A request hangs -----

  /** A run in which the application answers a request and nothing is recorded as lost; but the
      answer is not received within a minute, and then the request never ends, whatever happens. */
  lemma HangingRequest(more: seq<Action>)
    requires SendsNothing(more, CHANNEL)
    ensures var late := ANSWERING + [Tick(61)];
            var s, s' := ProtocolOverRedis.Run(late), ProtocolOverRedis.Run(late + more);
            && SentOn(s.core, CHANNEL) == [Response(REPLY)] && !REPLY.moreContent
            && HistoryOf(s.core, CHANNEL).Lossless()
            && CHANNEL in s'.core.conns && !Ended(s'.core.conns[CHANNEL])
  {
    AnsweringReached();
    TickIsSilent(ANSWERING, 61);
    LateIsHopeless(ANSWERING, CHANNEL, 61, more);
    CoreOf(ANSWERING);
    Conservation(ANSWERING_LABELS, CHANNEL);
  }

  lemma AnswerWaits(s: System, s': System, seconds: nat)
    requires QueueOf(s, CHANNEL) == [Stamped(Response(REPLY), EXPIRY)] && WellFormed(PREFIX, s.store, s.now)
    requires s.now == 0 && s' == s.(now := seconds) && HistoryOf(s.core, CHANNEL) == Start
    ensures FinalWaits(s', CHANNEL) <==> seconds <= EXPIRY
  {
    QueuesAreSorted(PREFIX, s.store, 0, seconds, CHANNEL);
    var q := QueueOf(s', CHANNEL);
    AliveOfTail(q, seconds);
    assert Alive(q, seconds) == if seconds <= EXPIRY then [Response(REPLY)] else [];
    assert IsFinal([Response(REPLY)][0]);
  }

  lemma AnsweringRemovesNothing(seconds: nat)
    ensures RemovesNoChannel(ANSWERING + [Tick(seconds)])
  {
    assert |ANSWERING| == 4 && ANSWERING[0] == Local(ARRIVAL) && ANSWERING[2] == Local(PostedCompletion(CHANNEL));
    assert ANSWERING[1].TaskSend? && ANSWERING[3].ApplicationSend?;
  }

  /** The answer has been left lying. */
  lemma AnswerLies(seconds: nat)
    ensures var s := ProtocolOverRedis.Run(ANSWERING + [Tick(seconds)]);
            && CHANNEL in s.core.conns && s.core.conns[CHANNEL] == WAITING
            && (FinalWaits(s, CHANNEL) <==> seconds <= EXPIRY)
  {
    AnsweringReached();
    StoreIsWellFormed(ANSWERING);
    TickIsSilent(ANSWERING, seconds);
    AnswerWaits(ProtocolOverRedis.Run(ANSWERING), ProtocolOverRedis.Run(ANSWERING + [Tick(seconds)]), seconds);
  }

  /** The same request, with the answer left lying for any time: it can still be brought to its end
      exactly if that was at most a minute. */
  lemma AnsweredInTimeExactly(seconds: nat)
    ensures (exists more :: EndsBy(ANSWERING + [Tick(seconds)], more, CHANNEL, REQUEST_KEY)) <==> seconds <= 60
  {
    AnsweringRemovesNothing(seconds);
    AnswerLies(seconds);
    CanEndExactly(ANSWERING + [Tick(seconds)], CHANNEL, REQUEST_KEY);
  }

  // ----- A response is lost on the way -----

  const KEYS := [PREFIX + CHANNEL] + [""]

  lemma KeysAreAShuffle()
    ensures IsShuffle(PREFIX, [CHANNEL], KEYS)
  {
    assert KeysFor(PREFIX, [CHANNEL]) == [""] + [PREFIX + CHANNEL];
  }

  /** The pump, with `CHANNEL` alone in its snapshot, receives the answer. */
  lemma ReceiptReached(actions: seq<Action>, labels: seq<Label>)
    requires Labels(actions) == labels
    requires Stage(labels, WAITING, map[CHANNEL := CHANNEL], Snapped({CHANNEL}), [Response(REPLY)])
    requires QueueOf(ProtocolOverRedis.Run(actions), CHANNEL) == [Stamped(Response(REPLY), EXPIRY)]
    requires ProtocolOverRedis.Run(actions).now == 0
    ensures Labels(actions + [Receive([CHANNEL], KEYS)]) == labels + [Pop(CHANNEL, true)]
  {
    var s := ProtocolOverRedis.Run(actions);
    CoreOf(actions);
    KeysAreAShuffle();
    KeysAreDataKeys();
    assert (set c | c in [CHANNEL]) == {CHANNEL};
    FirstIsTaken(s.store, s.now, KEYS, CHANNEL);
    RunSnoc(actions, Receive([CHANNEL], KEYS));
  }

  lemma LocalFollows(actions: seq<Action>, labels: seq<Label>, l: Label)
    requires Labels(actions) == labels && IsLocal(l) && Enabled(Exec(labels), l)
    ensures Labels(actions + [Local(l)]) == labels + [l]
  {
    CoreOf(actions);
    LocalMore(actions, l);
  }

  const RECEIVING := ANSWERING + [Local(Snapshot)] + [Receive([CHANNEL], KEYS)]
  const RECEIVING_LABELS := ANSWERING_LABELS + [Snapshot] + [Pop(CHANNEL, true)]

  lemma ReceivingReached()
    ensures Labels(RECEIVING) == RECEIVING_LABELS
    ensures Stage(RECEIVING_LABELS, WAITING, map[CHANNEL := CHANNEL], Holding(CHANNEL, Response(REPLY)), [])
  {
    AnsweringReached();
    IsSnapped(ANSWERING_LABELS);
    LocalReached(ANSWERING, ANSWERING_LABELS, Snapshot);
    ReceiptReached(ANSWERING + [Local(Snapshot)], ANSWERING_LABELS + [Snapshot]);
    IsPopped(ANSWERING_LABELS + [Snapshot]);
  }

  const WRITING_ACTIONS :=
    RECEIVING + [Local(Dispatch)] + [Local(CallbackTask(CHANNEL, 0))] + [Local(PostedCompletion(CHANNEL))]

  lemma WritingReached()
    ensures Stage(Labels(WRITING_ACTIONS), WRITING, map[], Idle, [])
  {
    ReceivingReached();
    var actions, labels := RECEIVING, RECEIVING_LABELS;
    LocalFollows(actions, labels, Dispatch);
    IsDispatched(labels);
    actions, labels := actions + [Local(Dispatch)], labels + [Dispatch];
    LocalFollows(actions, labels, CallbackTask(CHANNEL, 0));
    IsCalled(labels);
    actions, labels := actions + [Local(CallbackTask(CHANNEL, 0))], labels + [CallbackTask(CHANNEL, 0)];
    LocalFollows(actions, labels, PostedCompletion(CHANNEL));
    StartsWriting(labels);
  }

  /** A run on the channel layer in which the answer is received in time, IIS accepts the write of its
      one byte and then reports that it failed: the request ends, and nothing has been confirmed. */
  lemma LostResponseOverRedis()
    ensures var core := ProtocolOverRedis.Run(WRITING_ACTIONS + [Local(IoCompletion(CHANNEL, false, 0))]).core;
            && CHANNEL in core.conns
            && var r := core.conns[CHANNEL];
               Ended(r) && r.h.applied == [REPLY] && Confirmed(r.h.outcomes) != Contents(r.h.applied)
  {
    WritingReached();
    FailedWriteIsSilent(Labels(WRITING_ACTIONS), CHANNEL, 0);
    LocalFollows(WRITING_ACTIONS, Labels(WRITING_ACTIONS), IoCompletion(CHANNEL, false, 0));
    CoreOf(WRITING_ACTIONS + [Local(IoCompletion(CHANNEL, false, 0))]);
  }
}
