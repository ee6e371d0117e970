/** The Redis commands the channel layer uses, on one keyspace with a clock in seconds. A key
    whose time to live has run out may still be stored here, but no command sees it. */
module Redis {
  import opened AsgiMessages

  datatype Entry<+P> =
    | Value(payload: P, expires: Option<nat>)
    | List(items: seq<string>, expires: Option<nat>)

  type Keyspace<P> = map<string, Entry<P>>

  predicate Live<P>(store: Keyspace<P>, now: nat, key: string) {
    key in store && (store[key].expires.Some? ==> now <= store[key].expires.value)
  }

  // ----- SET, EXPIRE, RPUSH, GET, BLPOP -----

  function Set<P>(store: Keyspace<P>, key: string, payload: P): Keyspace<P> {
    store[key := Value(payload, None)]
  }

  function Expire<P>(store: Keyspace<P>, now: nat, key: string, seconds: nat): Keyspace<P> {
    if Live(store, now, key) then store[key := store[key].(expires := Some(now + seconds))] else store
  }

  /** A dead key counts as absent; pushing to a value is an error that changes nothing. */
  function RPush<P>(store: Keyspace<P>, now: nat, key: string, item: string): Keyspace<P> {
    if !Live(store, now, key) then store[key := List([item], None)]
    else if store[key].List? then store[key := List(store[key].items + [item], store[key].expires)]
    else store
  }

  datatype Reply<+P> = Nil | WrongType | Bulk(payload: P)

  function Get<P>(store: Keyspace<P>, now: nat, key: string): Reply<P> {
    if !Live(store, now, key) then Nil
    else if store[key].Value? then Bulk(store[key].payload)
    else WrongType
  }

  datatype PopReply = NoItem | NotAList | Item(key: string, item: string)

  /** The first of `keys` that exists decides the reply. */
  function FirstItem<P>(store: Keyspace<P>, now: nat, keys: seq<string>): PopReply {
    if keys == [] then NoItem
    else if !Live(store, now, keys[0]) then FirstItem(store, now, keys[1..])
    else match store[keys[0]]
      case Value(_, _) => NotAList
      case List(items, _) => if items == [] then FirstItem(store, now, keys[1..]) else Item(keys[0], items[0])
  }

  /** Removes the head of a list; an emptied list is deleted. */
  function PopHead<P>(store: Keyspace<P>, key: string): Keyspace<P>
    requires key in store && store[key].List? && store[key].items != []
  {
    var items := store[key].items[1..];
    if items == [] then store - {key} else store[key := List(items, store[key].expires)]
  }

  lemma {:induction false} FirstItemIsLive<P>(store: Keyspace<P>, now: nat, keys: seq<string>)
    ensures FirstItem(store, now, keys).Item? ==>
              var Item(key, item) := FirstItem(store, now, keys);
              && key in keys && Live(store, now, key) && store[key].List?
              && store[key].items != [] && item == store[key].items[0]
    ensures FirstItem(store, now, keys).NotAList? ==>
              exists key :: key in keys && Live(store, now, key) && store[key].Value?
    ensures FirstItem(store, now, keys).NoItem? ==>
              forall key | key in keys && Live(store, now, key) :: store[key].List? && store[key].items == []
  {
    if keys != [] && FirstItem(store, now, keys) == FirstItem(store, now, keys[1..]) {
      FirstItemIsLive(store, now, keys[1..]);
    }
  }

  /** A list with items is alive under the key, and the reply is its head. */
  predicate Answers<P>(store: Keyspace<P>, now: nat, key: string, reply: PopReply) {
    && Live(store, now, key) && store[key].List? && store[key].items != []
    && reply == Item(key, store[key].items[0])
  }

  /** There is nothing to be had under the key. */
  predicate Silent<P>(store: Keyspace<P>, now: nat, key: string) {
    !Live(store, now, key) || (store[key].List? && store[key].items == [])
  }

  /** The keys are tried in the order in which they are listed: the one that answers is the first with a
      live list, and what it gives is the head of that list. */
  lemma {:induction false} FirstListedAnswers<P>(store: Keyspace<P>, now: nat, keys: seq<string>)
    ensures var reply := FirstItem(store, now, keys);
            && (reply.Item? ==>
                  exists i :: 0 <= i < |keys| && Answers(store, now, keys[i], reply)
                    && forall j | 0 <= j < i :: Silent(store, now, keys[j]))
            && (reply.NoItem? ==> forall j | 0 <= j < |keys| :: Silent(store, now, keys[j]))
  {
    var reply := FirstItem(store, now, keys);
    if keys != [] && Silent(store, now, keys[0]) {
      FirstListedAnswers(store, now, keys[1..]);
      if reply.Item? {
        var i :| 0 <= i < |keys[1..]| && Answers(store, now, keys[1..][i], reply)
                 && forall j | 0 <= j < i :: Silent(store, now, keys[1..][j]);
        assert Answers(store, now, keys[i + 1], reply);
        forall j | 0 <= j < i + 1
          ensures Silent(store, now, keys[j])
        {
          assert j > 0 ==> keys[j] == keys[1..][j - 1];
        }
      }
    } else if reply.Item? {
      assert Answers(store, now, keys[0], reply);
    }
  }

  /** A Redis server, shared by every client. */
  class Server<P> {
    var store: Keyspace<P>
    var now: nat

    constructor ()
      ensures store == map[] && now == 0
    {
      store := map[];
      now := 0;
    }

    method ExecuteSet(key: string, payload: P)
      modifies this`store
      ensures store == Set(old(store), key, payload)
    {
      store := store[key := Value(payload, None)];
    }

    method ExecuteExpire(key: string, seconds: nat)
      modifies this`store
      ensures store == Expire(old(store), now, key, seconds)
    {
      if Live(store, now, key) {
        store := store[key := store[key].(expires := Some(now + seconds))];
      }
    }

    method ExecuteRPush(key: string, item: string)
      modifies this`store
      ensures store == RPush(old(store), now, key, item)
    {
      if !Live(store, now, key) {
        store := store[key := List([item], None)];
      } else if store[key].List? {
        store := store[key := List(store[key].items + [item], store[key].expires)];
      }
    }

    method ExecuteGet(key: string) returns (reply: Reply<P>)
      ensures reply == Get(store, now, key)
    {
      reply := Get(store, now, key);
    }

    method ExecuteBLPop(keys: seq<string>) returns (reply: PopReply)
      modifies this`store
      ensures reply == FirstItem(old(store), now, keys)
      ensures if reply.Item? then
                && reply.key in old(store) && old(store)[reply.key].List?
                && old(store)[reply.key].items != []
                && store == PopHead(old(store), reply.key)
              else store == old(store)
    {
      var i := 0;
      while i < |keys|
        invariant i <= |keys| && store == old(store)
        invariant FirstItem(store, now, keys) == FirstItem(store, now, keys[i..])
      {
        var key := keys[i];
        assert keys[i..][1..] == keys[i + 1..];
        if Live(store, now, key) {
          if store[key].Value? {
            return NotAList;
          }
          if store[key].items != [] {
            reply := Item(key, store[key].items[0]);
            store := PopHead(store, key);
            return;
          }
        }
        i := i + 1;
      }
      return NoItem;
    }
  }
}
