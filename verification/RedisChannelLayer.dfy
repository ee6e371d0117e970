/** The channel layer (AsgiHandlerLib/RedisChannelLayer.cpp): a channel is a list of random data
    keys, and each data key holds one payload; both expire. */
module RedisChannelLayer {
  import opened AsgiMessages
  import opened ChannelLayer
  import opened Redis

  /** m_expiry, and the extra time a channel gets. */
  const EXPIRY: nat := 60
  const CHANNEL_GRACE: nat := 10

  // ----- The key space -----

  predicate IsDataKey(prefix: string, key: string) {
    prefix <= key && IsRandomName(key[|prefix|..])
  }

  predicate IsChannelKey(prefix: string, key: string) {
    prefix <= key && IsChannelName(key[|prefix|..])
  }

  lemma KeySpacesAreDisjoint(prefix: string, key: string)
    ensures !(IsDataKey(prefix, key) && IsChannelKey(prefix, key))
    ensures IsDataKey(prefix, key) || IsChannelKey(prefix, key) ==> key != ""
  {
    if IsDataKey(prefix, key) {
      RandomNamesAreNoChannels(key[|prefix|..]);
    }
  }

  /** A payload and the last second at which it can be read. */
  datatype Stamped<+P> = Stamped(payload: P, deadline: nat)

  predicate HoldsPayload<P>(store: Keyspace<P>, key: string) {
    key in store && store[key].Value? && store[key].expires.Some?
  }

  predicate HoldsPayloads<P>(store: Keyspace<P>, items: seq<string>) {
    forall i | 0 <= i < |items| :: HoldsPayload(store, items[i])
  }

  function Stamps<P>(store: Keyspace<P>, items: seq<string>): (q: seq<Stamped<P>>)
    requires HoldsPayloads(store, items)
    ensures |q| == |items|
    ensures forall i | 0 <= i < |q| :: q[i] == Stamped(store[items[i]].payload, store[items[i]].expires.value)
  {
    seq(|items|, i requires 0 <= i < |items| => Stamped(store[items[i]].payload, store[items[i]].expires.value))
  }

  predicate Sorted<P>(q: seq<Stamped<P>>) {
    forall i, j | 0 <= i < j < |q| :: q[i].deadline <= q[j].deadline
  }

  /** What Send and ReceiveMany keep: data keys hold expiring payloads; channel keys hold
      non-empty lists of data keys in order of deadline, and expire a fixed time after their
      last payload. */
  ghost predicate WellFormed<P>(prefix: string, store: Keyspace<P>, now: nat) {
    forall key | key in store :: WellFormedAt(prefix, store, now, key)
  }

  predicate WellFormedAt<P>(prefix: string, store: Keyspace<P>, now: nat, key: string)
    requires key in store
  {
    match store[key]
    case Value(_, expires) => IsDataKey(prefix, key) && expires.Some? && expires.value <= now + EXPIRY
    case List(items, expires) =>
      && IsChannelKey(prefix, key) && items != [] && HoldsPayloads(store, items)
      && var q := Stamps(store, items);
         Sorted(q) && expires == Some(q[|q| - 1].deadline + CHANNEL_GRACE)
  }

  /** The messages stored for a channel, whether or not they or the list can still be seen. */
  ghost function Stored<P>(prefix: string, store: Keyspace<P>, now: nat, channel: string): seq<Stamped<P>>
    requires WellFormed(prefix, store, now)
  {
    var key := prefix + channel;
    if key in store && store[key].List? then
      assert WellFormedAt(prefix, store, now, key);
      Stamps(store, store[key].items)
    else []
  }

  /** The channel's list itself has not expired. */
  predicate Visible<P>(q: seq<Stamped<P>>, now: nat) {
    q != [] && now <= q[|q| - 1].deadline + CHANNEL_GRACE
  }

  // ----- Send and ReceiveMany as functions -----

  function SendTo<P>(prefix: string, store: Keyspace<P>, now: nat, channel: string, payload: P, dataKey: string)
    : Keyspace<P>
  {
    var s1 := Expire(Set(store, dataKey, payload), now, dataKey, EXPIRY);
    var channelKey := prefix + channel;
    Expire(RPush(s1, now, channelKey, dataKey), now, channelKey, EXPIRY + CHANNEL_GRACE)
  }

  /** The outcome of ReceiveMany: nothing, a message, or a head that turned out to be dead. The
      caller sees None for the last as for the first. */
  datatype Received<+P> = Nothing | Message(channel: string, payload: P) | Dead(channel: string) | Malformed

  function ReceiveFrom<P>(prefix: string, store: Keyspace<P>, now: nat, keys: seq<string>): (Keyspace<P>, Received<P>) {
    match FirstItem(store, now, keys)
    case NoItem => (store, Nothing)
    case NotAList => (store, Malformed)
    case Item(key, item) =>
      FirstItemIsLive(store, now, keys);
      var store' := PopHead(store, key);
      if !(prefix <= key) then (store', Malformed)
      else
        var channel := key[|prefix|..];
        match Get(store', now, item)
        case Nil => (store', Dead(channel))
        case Bulk(payload) => (store', Message(channel, payload))
        case WrongType => (store', Malformed)
  }

  /** The keys ReceiveMany asks for before shuffling: a vector constructed with one empty string
      for each channel, to which the prefixed names are appended. */
  function KeysFor(prefix: string, channels: seq<string>): seq<string> {
    seq(|channels|, _ => "") + seq(|channels|, i requires 0 <= i < |channels| => prefix + channels[i])
  }

  predicate IsShuffle(prefix: string, channels: seq<string>, keys: seq<string>) {
    multiset(keys) == multiset(KeysFor(prefix, channels))
  }

  lemma ShuffledKeys(prefix: string, channels: seq<string>, keys: seq<string>)
    requires IsShuffle(prefix, channels, keys)
    ensures forall k | k in keys :: k == "" || exists c :: c in channels && k == prefix + c
    ensures forall c | c in channels :: prefix + c in keys
  {
    var all := KeysFor(prefix, channels);
    forall k | k in keys
      ensures k == "" || exists c :: c in channels && k == prefix + c
    {
      assert k in multiset(keys) && k in all;
      var i :| 0 <= i < |all| && all[i] == k;
      if i >= |channels| {
        assert k == prefix + channels[i - |channels|];
      }
    }
    forall c | c in channels
      ensures prefix + c in keys
    {
      var i :| 0 <= i < |channels| && channels[i] == c;
      assert all[|channels| + i] == prefix + c;
      assert prefix + c in multiset(all);
    }
  }

  /** What ReceiveMany asks for: twice as many keys as channels, half of them empty, and each channel's
      key as often as the channel is requested. */
  lemma AskedFor(prefix: string, channels: seq<string>, keys: seq<string>, c: string)
    requires IsShuffle(prefix, channels, keys) && forall i | 0 <= i < |channels| :: prefix + channels[i] != ""
    ensures |keys| == 2 * |channels| && multiset(keys)[""] == |channels|
    ensures prefix + c != "" ==> multiset(keys)[prefix + c] == multiset(channels)[c]
  {
    var empty := seq(|channels|, _ => "");
    var prefixed := seq(|channels|, i requires 0 <= i < |channels| => prefix + channels[i]);
    assert multiset(KeysFor(prefix, channels)) == multiset(empty) + multiset(prefixed);
    SameSize(KeysFor(prefix, channels), keys);
    AllAlike(empty, "");
    AllAlike(empty, prefix + c);
    NoneAlike(prefixed, "");
    PrefixedAlike(prefix, channels, c);
  }

  lemma {:induction false} AllAlike(s: seq<string>, x: string)
    requires forall i | 0 <= i < |s| :: s[i] == ""
    ensures multiset(s)[x] == if x == "" then |s| else 0
  {
    if s != [] {
      assert s == [s[0]] + s[1..];
      AllAlike(s[1..], x);
    }
  }

  lemma NoneAlike(s: seq<string>, x: string)
    requires x !in s
    ensures multiset(s)[x] == 0
  {
  }

  lemma {:induction false} PrefixedAlike(prefix: string, channels: seq<string>, c: string)
    ensures multiset(seq(|channels|, i requires 0 <= i < |channels| => prefix + channels[i]))[prefix + c]
            == multiset(channels)[c]
  {
    if channels != [] {
      var (d, rest) := (channels[0], channels[1..]);
      PrefixedAlike(prefix, rest, c);
      assert channels == [d] + rest;
      assert seq(|channels|, i requires 0 <= i < |channels| => prefix + channels[i])
          == [prefix + d] + seq(|rest|, i requires 0 <= i < |rest| => prefix + rest[i]);
      assert (prefix + c)[|prefix|..] == c && (prefix + d)[|prefix|..] == d;
    }
  }

  // ----- Send refines appending to a queue -----

  /** The items a push to the channel's key would extend. */
  function VisibleItems<P>(store: Keyspace<P>, now: nat, key: string): seq<string> {
    if Live(store, now, key) && store[key].List? then store[key].items else []
  }

  /** What the four commands of Send do to the store: they never meet a key of the wrong kind. */
  lemma SendCommands<P>(prefix: string, store: Keyspace<P>, now: nat, channel: string, payload: P, dataKey: string)
    requires WellFormed(prefix, store, now) && IsChannelName(channel)
    requires IsDataKey(prefix, dataKey) && dataKey !in store
    ensures var key := prefix + channel;
            && key != dataKey && (key in store ==> store[key].List?)
            && SendTo(prefix, store, now, channel, payload, dataKey) ==
               store[dataKey := Value(payload, Some(now + 60))]
                    [key := List(VisibleItems(store, now, key) + [dataKey], Some(now + 70))]
  {
    var key := prefix + channel;
    assert key[|prefix|..] == channel;
    KeySpacesAreDisjoint(prefix, dataKey);
    KeySpacesAreDisjoint(prefix, key);
    if key in store {
      assert WellFormedAt(prefix, store, now, key);
    }
    var s1 := Expire(Set(store, dataKey, payload), now, dataKey, EXPIRY);
    assert s1 == store[dataKey := Value(payload, Some(now + EXPIRY))];
    var s2 := RPush(s1, now, key, dataKey);
    assert Live(s1, now, key) == Live(store, now, key);
    assert key in s2 && s2[key].List? && s2[key].items == VisibleItems(store, now, key) + [dataKey];
    assert Live(s2, now, key);
  }

  /** Adding a fresh value changes nothing for lists that do not mention it. */
  lemma StampsFramed<P>(store: Keyspace<P>, store': Keyspace<P>, items: seq<string>)
    requires HoldsPayloads(store, items)
    requires forall i | 0 <= i < |items| :: items[i] in store' && store'[items[i]] == store[items[i]]
    ensures HoldsPayloads(store', items) && Stamps(store', items) == Stamps(store, items)
  {
    forall i | 0 <= i < |items|
      ensures HoldsPayload(store', items[i])
    {
      assert HoldsPayload(store, items[i]);
    }
  }

  /** Send appends to its channel's queue, which starts afresh if the old list had expired, and
      leaves every other channel's queue alone. */
  lemma SendAppends<P>(prefix: string, store: Keyspace<P>, now: nat, channel: string, payload: P, dataKey: string)
    requires WellFormed(prefix, store, now) && IsChannelName(channel)
    requires IsDataKey(prefix, dataKey) && dataKey !in store
    ensures var store' := SendTo(prefix, store, now, channel, payload, dataKey);
            var q := Stored(prefix, store, now, channel);
            && WellFormed(prefix, store', now)
            && Stored(prefix, store', now, channel) ==
               (if Visible(q, now) then q else []) + [Stamped(payload, now + EXPIRY)]
            && forall c | c != channel :: Stored(prefix, store', now, c) == Stored(prefix, store, now, c)
  {
    var store' := SendTo(prefix, store, now, channel, payload, dataKey);
    var key := prefix + channel;
    SendCommands(prefix, store, now, channel, payload, dataKey);
    SendKeepsTarget(prefix, store, now, channel, payload, dataKey);
    forall k | k in store'
      ensures WellFormedAt(prefix, store', now, k)
    {
      if k != key {
        SendKeepsOther(prefix, store, now, channel, payload, dataKey, k);
      }
    }
    forall c | c != channel
      ensures Stored(prefix, store', now, c) == Stored(prefix, store, now, c)
    {
      assert (prefix + c)[|prefix|..] == c && (prefix + channel)[|prefix|..] == channel;
      assert prefix + c != key;
      if prefix + c in store' {
        SendKeepsOther(prefix, store, now, channel, payload, dataKey, prefix + c);
      }
    }
  }

  lemma SendKeepsOther<P>(prefix: string, store: Keyspace<P>, now: nat, channel: string, payload: P,
      dataKey: string, k: string)
    requires WellFormed(prefix, store, now) && IsChannelName(channel)
    requires IsDataKey(prefix, dataKey) && dataKey !in store
    requires k in SendTo(prefix, store, now, channel, payload, dataKey) && k != prefix + channel
    ensures var store' := SendTo(prefix, store, now, channel, payload, dataKey);
            && WellFormedAt(prefix, store', now, k)
            && (store'[k].List? ==>
                  k in store && store'[k] == store[k] && WellFormedAt(prefix, store, now, k)
                  && Stamps(store', store'[k].items) == Stamps(store, store[k].items))
  {
    var store' := SendTo(prefix, store, now, channel, payload, dataKey);
    var key := prefix + channel;
    assert key[|prefix|..] == channel;
    SendCommands(prefix, store, now, channel, payload, dataKey);
    if k != dataKey {
      assert WellFormedAt(prefix, store, now, k);
      if store[k].List? {
        ListUntouched(prefix, store, store', now, store[k].items, key, dataKey);
      }
    }
  }

  lemma SendKeepsTarget<P>(prefix: string, store: Keyspace<P>, now: nat, channel: string, payload: P, dataKey: string)
    requires WellFormed(prefix, store, now) && IsChannelName(channel)
    requires IsDataKey(prefix, dataKey) && dataKey !in store
    ensures var store' := SendTo(prefix, store, now, channel, payload, dataKey);
            var q := Stored(prefix, store, now, channel);
            var key := prefix + channel;
            && key in store' && store'[key].List? && WellFormedAt(prefix, store', now, key)
            && Stamps(store', store'[key].items) ==
               (if Visible(q, now) then q else []) + [Stamped(payload, now + EXPIRY)]
  {
    var store' := SendTo(prefix, store, now, channel, payload, dataKey);
    var key := prefix + channel;
    assert key[|prefix|..] == channel;
    SendCommands(prefix, store, now, channel, payload, dataKey);
    var items := VisibleItems(store, now, key);
    VisibleIsLive(prefix, store, now, channel);
    ListUntouched(prefix, store, store', now, items, key, dataKey);
    DeadlinesBounded(prefix, store, now, items);
    ExtendedList(prefix, store', now, key, items, payload, dataKey);
  }

  /** A list extended by a data key whose payload lives longest. */
  lemma ExtendedList<P>(prefix: string, store: Keyspace<P>, now: nat, key: string, items: seq<string>, payload: P,
      dataKey: string)
    requires IsChannelKey(prefix, key) && key in store && dataKey in store
    requires store[dataKey] == Value(payload, Some(now + EXPIRY))
    requires store[key] == List(items + [dataKey], Some(now + EXPIRY + CHANNEL_GRACE))
    requires HoldsPayloads(store, items) && Sorted(Stamps(store, items))
    requires forall i | 0 <= i < |items| :: Stamps(store, items)[i].deadline <= now + EXPIRY
    ensures WellFormedAt(prefix, store, now, key)
    ensures Stamps(store, store[key].items) == Stamps(store, items) + [Stamped(payload, now + EXPIRY)]
  {
    AppendStamps(store, items, dataKey);
    AppendSorts(Stamps(store, items), Stamped(payload, now + EXPIRY));
  }

  lemma AppendSorts<P>(q: seq<Stamped<P>>, last: Stamped<P>)
    requires Sorted(q) && forall i | 0 <= i < |q| :: q[i].deadline <= last.deadline
    ensures Sorted(q + [last])
  {
  }

  lemma AppendStamps<P>(store: Keyspace<P>, items: seq<string>, dataKey: string)
    requires HoldsPayloads(store, items) && HoldsPayload(store, dataKey)
    ensures HoldsPayloads(store, items + [dataKey])
    ensures Stamps(store, items + [dataKey]) ==
            Stamps(store, items) + [Stamped(store[dataKey].payload, store[dataKey].expires.value)]
  {
  }

  /** The list key is live exactly when the channel's queue is visible. */
  lemma VisibleIsLive<P>(prefix: string, store: Keyspace<P>, now: nat, channel: string)
    requires WellFormed(prefix, store, now)
    ensures var items := VisibleItems(store, now, prefix + channel);
            var q := Stored(prefix, store, now, channel);
            && HoldsPayloads(store, items)
            && Stamps(store, items) == (if Visible(q, now) then q else [])
            && (items != [] ==> Sorted(Stamps(store, items)))
  {
    var key := prefix + channel;
    if key in store {
      assert WellFormedAt(prefix, store, now, key);
    }
  }

  /** Data keys are never overwritten, so no list's payloads change. */
  lemma ListUntouched<P>(prefix: string, store: Keyspace<P>, store': Keyspace<P>, now: nat, items: seq<string>,
      key: string, dataKey: string)
    requires WellFormed(prefix, store, now) && HoldsPayloads(store, items)
    requires IsChannelKey(prefix, key) && dataKey !in store
    requires forall k | k in store && k != key && k != dataKey :: k in store' && store'[k] == store[k]
    ensures HoldsPayloads(store', items) && Stamps(store', items) == Stamps(store, items)
  {
    forall i | 0 <= i < |items|
      ensures items[i] in store' && store'[items[i]] == store[items[i]]
    {
      assert HoldsPayload(store, items[i]) && WellFormedAt(prefix, store, now, items[i]);
      KeySpacesAreDisjoint(prefix, items[i]);
    }
    StampsFramed(store, store', items);
  }

  lemma DeadlinesBounded<P>(prefix: string, store: Keyspace<P>, now: nat, items: seq<string>)
    requires WellFormed(prefix, store, now) && HoldsPayloads(store, items)
    ensures forall i | 0 <= i < |items| :: Stamps(store, items)[i].deadline <= now + EXPIRY
  {
    forall i | 0 <= i < |items|
      ensures Stamps(store, items)[i].deadline <= now + EXPIRY
    {
      assert HoldsPayload(store, items[i]) && WellFormedAt(prefix, store, now, items[i]);
    }
  }

  // ----- ReceiveMany refines taking the head of a queue -----

  predicate AllChannelNames(channels: seq<string>) {
    forall i | 0 <= i < |channels| :: IsChannelName(channels[i])
  }

  /** The key that BLPOP picks belongs to one of the requested channels, and the prefix is cut off
      exactly; the empty keys are never picked, nor is a key of the wrong kind met. */
  lemma PickedKey<P>(prefix: string, store: Keyspace<P>, now: nat, channels: seq<string>, keys: seq<string>)
    requires WellFormed(prefix, store, now) && IsShuffle(prefix, channels, keys) && AllChannelNames(channels)
    ensures !FirstItem(store, now, keys).NotAList?
    ensures FirstItem(store, now, keys).NoItem? ==>
              forall c | c in channels :: !Visible(Stored(prefix, store, now, c), now)
    ensures FirstItem(store, now, keys).Item? ==>
              var Item(key, item) := FirstItem(store, now, keys);
              && prefix <= key && key[|prefix|..] in channels && key == prefix + key[|prefix|..]
              && key in store && store[key].List? && store[key].items != [] && store[key].items[0] == item
              && Visible(Stored(prefix, store, now, key[|prefix|..]), now)
  {
    FirstItemIsLive(store, now, keys);
    ShuffledKeys(prefix, channels, keys);
    forall k | k in keys && Live(store, now, k)
      ensures prefix <= k && k == prefix + k[|prefix|..] && k[|prefix|..] in channels && store[k].List?
    {
      assert WellFormedAt(prefix, store, now, k);
      KeySpacesAreDisjoint(prefix, k);
      var c :| c in channels && k == prefix + c;
      assert k[|prefix|..] == c;
    }
    forall c | c in channels
      ensures Visible(Stored(prefix, store, now, c), now) <==>
              Live(store, now, prefix + c) && store[prefix + c].List? && store[prefix + c].items != []
    {
      VisibleIsLive(prefix, store, now, c);
    }
  }

  /** Removing a list's head takes the head of that channel's queue and nothing else. */
  lemma PopTakesHead<P>(prefix: string, store: Keyspace<P>, now: nat, channel: string)
    requires WellFormed(prefix, store, now)
    requires var key := prefix + channel; key in store && store[key].List?
    ensures store[prefix + channel].items != []
    ensures var store' := PopHead(store, prefix + channel);
            && WellFormed(prefix, store', now)
            && Stored(prefix, store', now, channel) == Stored(prefix, store, now, channel)[1..]
            && forall c | c != channel :: Stored(prefix, store', now, c) == Stored(prefix, store, now, c)
  {
    var key := prefix + channel;
    assert key[|prefix|..] == channel;
    assert WellFormedAt(prefix, store, now, key);
    var store' := PopHead(store, key);
    forall k | k in store'
      ensures WellFormedAt(prefix, store', now, k)
      ensures store'[k].List? ==>
                && HoldsPayloads(store, store'[k].items)
                && Stamps(store', store'[k].items) == Stamps(store, store'[k].items)
    {
      assert WellFormedAt(prefix, store, now, k);
      PopKeepsKey(prefix, store, now, key, k);
    }
    var items := store[key].items;
    assert Stamps(store, items)[1..] == Stamps(store, items[1..]) by {
      assert HoldsPayloads(store, items[1..]);
    }
    forall c | c != channel
      ensures Stored(prefix, store', now, c) == Stored(prefix, store, now, c)
    {
      assert (prefix + c)[|prefix|..] == c;
      assert prefix + c != key;
    }
  }

  lemma PopKeepsPayloads<P>(prefix: string, store: Keyspace<P>, now: nat, key: string, k: string)
    requires key in store && store[key].List? && store[key].items != []
    requires k in store && store[k].List? && WellFormedAt(prefix, store, now, k)
    ensures var store' := PopHead(store, key);
            HoldsPayloads(store', store[k].items) && Stamps(store', store[k].items) == Stamps(store, store[k].items)
  {
    var store' := PopHead(store, key);
    var items := store[k].items;
    forall i | 0 <= i < |items|
      ensures items[i] in store' && store'[items[i]] == store[items[i]]
    {
      assert HoldsPayload(store, items[i]);
    }
    StampsFramed(store, store', items);
  }

  lemma PopKeepsKey<P>(prefix: string, store: Keyspace<P>, now: nat, key: string, k: string)
    requires key in store && store[key].List? && store[key].items != []
    requires k in PopHead(store, key) && WellFormedAt(prefix, store, now, k)
    ensures var store' := PopHead(store, key);
            && WellFormedAt(prefix, store', now, k)
            && (store'[k].List? ==>
                  && HoldsPayloads(store, store'[k].items)
                  && Stamps(store', store'[k].items) == Stamps(store, store'[k].items))
  {
    if store[k].List? {
      PopKeepsPayloads(prefix, store, now, key, k);
      if k == key {
        TailStamps(PopHead(store, key), store[k].items);
        TailStamps(store, store[k].items);
      }
    }
  }

  lemma TailStamps<P>(store: Keyspace<P>, items: seq<string>)
    requires HoldsPayloads(store, items) && items != []
    ensures HoldsPayloads(store, items[1..]) && Stamps(store, items[1..]) == Stamps(store, items)[1..]
  {
  }

  /** The popped item leads to the payload of the queue's head. */
  lemma HeadPayload<P>(prefix: string, store: Keyspace<P>, now: nat, channel: string)
    requires WellFormed(prefix, store, now)
    requires var key := prefix + channel; key in store && store[key].List? && store[key].items != []
    ensures var key := prefix + channel;
            var q := Stored(prefix, store, now, channel);
            q != [] &&
            Get(PopHead(store, key), now, store[key].items[0]) ==
            if now <= q[0].deadline then Bulk(q[0].payload) else Nil
  {
    var key := prefix + channel;
    var item := store[key].items[0];
    assert WellFormedAt(prefix, store, now, key);
    assert HoldsPayload(store, item);
    assert PopHead(store, key)[item] == store[item];
    assert Stored(prefix, store, now, channel)[0] == Stamped(store[item].payload, store[item].expires.value);
  }

  /** ReceiveMany returns the head of a requested channel's queue, unless it has expired, in which
      case that one message is discarded; with nothing to be seen it changes nothing. */
  lemma ReceiveTakesHead<P>(prefix: string, store: Keyspace<P>, now: nat, channels: seq<string>, keys: seq<string>)
    requires WellFormed(prefix, store, now) && IsShuffle(prefix, channels, keys) && AllChannelNames(channels)
    ensures var (store', r) := ReceiveFrom(prefix, store, now, keys);
            Outcome(prefix, store, store', now, channels, r)
  {
    PickedKey(prefix, store, now, channels, keys);
    var first := FirstItem(store, now, keys);
    if first.Item? {
      var channel := first.key[|prefix|..];
      PopTakesHead(prefix, store, now, channel);
      HeadPayload(prefix, store, now, channel);
      assert Took(prefix, store, PopHead(store, first.key), now, channels, channel);
    }
  }

  ghost predicate Outcome<P>(prefix: string, store: Keyspace<P>, store': Keyspace<P>, now: nat,
      channels: seq<string>, r: Received<P>)
    requires WellFormed(prefix, store, now)
  {
    && WellFormed(prefix, store', now)
    && match r {
         case Malformed => false
         case Nothing => store' == store && forall c | c in channels :: !Visible(Stored(prefix, store, now, c), now)
         case Message(c, p) =>
           && Took(prefix, store, store', now, channels, c)
           && var head := Stored(prefix, store, now, c)[0]; p == head.payload && now <= head.deadline
         case Dead(c) =>
           && Took(prefix, store, store', now, channels, c)
           && Stored(prefix, store, now, c)[0].deadline < now
       }
  }

  /** From `store` to `store'`, the head of channel `c`'s visible queue was taken. */
  ghost predicate Took<P>(prefix: string, store: Keyspace<P>, store': Keyspace<P>, now: nat,
      channels: seq<string>, c: string)
    requires WellFormed(prefix, store, now) && WellFormed(prefix, store', now)
  {
    && c in channels && Visible(Stored(prefix, store, now, c), now)
    && Stored(prefix, store', now, c) == Stored(prefix, store, now, c)[1..]
    && forall d | d != c :: Stored(prefix, store', now, d) == Stored(prefix, store, now, d)
  }

  /** Queues stay in order of deadline, and time passing does not touch them. */
  lemma QueuesAreSorted<P>(prefix: string, store: Keyspace<P>, now: nat, later: nat, c: string)
    requires WellFormed(prefix, store, now) && now <= later
    ensures WellFormed(prefix, store, later) && Stored(prefix, store, later, c) == Stored(prefix, store, now, c)
    ensures Sorted(Stored(prefix, store, now, c))
    ensures forall i | 0 <= i < |Stored(prefix, store, now, c)| ::
              Stored(prefix, store, now, c)[i].deadline <= now + EXPIRY
  {
    forall k | k in store
      ensures WellFormedAt(prefix, store, later, k)
    {
      assert WellFormedAt(prefix, store, now, k);
    }
    var key := prefix + c;
    if key in store && store[key].List? {
      assert WellFormedAt(prefix, store, now, key);
      DeadlinesBounded(prefix, store, now, store[key].items);
    }
  }

  // ----- The class -----

  class Layer<P> {
    const prefix: string
    const server: Server<P>
    const engine: RandomEngine

    constructor (server: Server<P>, engine: RandomEngine, prefix: string := "asgi:")
      ensures this.server == server && this.engine == engine && this.prefix == prefix
    {
      this.server := server;
      this.engine := engine;
      this.prefix := prefix;
    }

    /** RedisChannelLayer::Send */
    method Send(channel: string, payload: P) returns (ghost dataKey: string)
      modifies server`store, engine`used
      ensures IsDataKey(prefix, dataKey)
      ensures server.store == SendTo(prefix, old(server.store), server.now, channel, payload, dataKey)
    {
      var random := engine.GenerateRandomAscii(RANDOM_LENGTH);
      var key := prefix + random;
      assert key[|prefix|..] == random;
      server.ExecuteSet(key, payload);
      server.ExecuteExpire(key, EXPIRY);

      var channelKey := prefix + channel;
      server.ExecuteRPush(channelKey, key);
      server.ExecuteExpire(channelKey, EXPIRY + CHANNEL_GRACE);
      dataKey := key;
    }

    /** The keys that ReceiveMany asks for, shuffled. */
    method ShuffledNames(channels: seq<string>) returns (keys: seq<string>)
      modifies engine`used
      ensures IsShuffle(prefix, channels, keys)
    {
      var prefixed := seq(|channels|, _ => "");
      var i := 0;
      while i < |channels|
        invariant i <= |channels|
        invariant prefixed == seq(|channels|, _ => "") + seq(i, j requires 0 <= j < i => prefix + channels[j])
      {
        prefixed := prefixed + [prefix + channels[i]];
        i := i + 1;
      }
      keys := engine.Shuffle(prefixed);
    }

    /** RedisChannelLayer::ReceiveMany; None is the pair of empty strings. */
    method ReceiveMany(channels: seq<string>) returns (received: Option<(string, P)>, ghost keys: seq<string>)
      requires WellFormed(prefix, server.store, server.now) && AllChannelNames(channels)
      modifies server`store, engine`used
      ensures IsShuffle(prefix, channels, keys)
      ensures var (store', r) := ReceiveFrom(prefix, old(server.store), server.now, keys);
              && server.store == store'
              && received == match r { case Message(c, p) => Some((c, p)) case _ => None }
    {
      var shuffled := ShuffledNames(channels);
      keys := shuffled;
      PickedKey(prefix, server.store, server.now, channels, shuffled);

      var popped := server.ExecuteBLPop(shuffled);
      match popped
      case NoItem => return None, keys;
      case NotAList => assert false;
      case Item(key, item) =>
        var channel := key[|prefix|..];
        var reply := server.ExecuteGet(item);
        if reply.Bulk? {
          return Some((channel, reply.payload)), keys;
        }
        return None, keys;
    }
  }
}
