/** The response pump (AsgiHandlerLib/ResponsePump.cpp): the callback table, and the loop that
    takes one message from the channel layer and schedules its one-shot callback. A callback is
    represented by the identity of the request it captures. */
module ResponsePump {
  import opened AsgiMessages
  import opened ChannelLayer
  import Protocol
  import opened RedisChannelLayer

  function Names(channels: seq<string>): set<string> {
    set c | c in channels
  }

  lemma NoNames(names: seq<string>, callbacks: map<string, string>)
    requires Names(names) == callbacks.Keys
    ensures names == [] <==> callbacks == map[]
    ensures forall i | 0 <= i < |names| :: names[i] in callbacks
  {
    forall i | 0 <= i < |names|
      ensures names[i] in callbacks
    {
      assert names[i] in Names(names);
    }
    if names == [] {
      assert forall c :: c in callbacks ==> c in Names(names);
      assert callbacks == map[];
    } else {
      assert names[0] in callbacks;
    }
  }

  /** The data of the tasks that belong to one request. */
  function TasksFor(tasks: seq<(string, Payload)>, id: string): seq<Payload> {
    if tasks == [] then []
    else
      var (callback, data) := tasks[|tasks| - 1];
      TasksFor(tasks[..|tasks| - 1], id) + if callback == id then [data] else []
  }

  class Pump {
    const channels: Layer<Payload>
    var callbacks: map<string, string>
    var scheduled: seq<(string, Payload)>   // tasks that have been created, with their data

    constructor (channels: Layer<Payload>)
      ensures this.channels == channels && callbacks == map[] && scheduled == []
    {
      this.channels := channels;
      callbacks := map[];
      scheduled := [];
    }

    method AddChannel(channel: string, callback: string)
      modifies this`callbacks
      ensures callbacks == old(callbacks)[channel := callback]
    {
      callbacks := callbacks[channel := callback];
    }

    method RemoveChannel(channel: string)
      modifies this`callbacks
      ensures callbacks == old(callbacks) - {channel}
    {
      callbacks := callbacks - {channel};
    }

    /** The first critical section: the registered channels, each once, in some order; it is the
        snapshot step of the protocol, whose view of the server is `core`. */
    method Snapshot(ghost core: Protocol.Core) returns (names: seq<string>)
      requires core.callbacks == callbacks
      ensures Names(names) == callbacks.Keys
      ensures forall i, j | 0 <= i < j < |names| :: names[i] != names[j]
      ensures Protocol.TakeSnapshot(core).pump == if names == [] then Protocol.Idle else Protocol.Snapped(Names(names))
    {
      names := [];
      var rest := callbacks.Keys;
      while rest != {}
        invariant rest <= callbacks.Keys && Names(names) == callbacks.Keys - rest
        invariant forall i, j | 0 <= i < j < |names| :: names[i] != names[j]
        decreases |rest|
      {
        var c :| c in rest;
        assert c !in Names(names);
        assert Names(names + [c]) == Names(names) + {c};
        names := names + [c];
        rest := rest - {c};
      }
      NoNames(names, callbacks);
    }

    /** The second critical section: the callback is taken out of the table and becomes a task; a
        message without a callback is dropped. It is the dispatch step of the protocol: the same
        table, and each request gets the tasks scheduled for it. */
    method Dispatch(channel: string, data: Payload, ghost core: Protocol.Core)
      requires core.callbacks == callbacks && core.pump == Protocol.Holding(channel, data)
      modifies this`callbacks, this`scheduled
      ensures if channel in old(callbacks) then
                && callbacks == old(callbacks) - {channel}
                && scheduled == old(scheduled) + [(old(callbacks)[channel], data)]
              else callbacks == old(callbacks) && scheduled == old(scheduled)
      ensures callbacks == Protocol.DispatchHeld(core).callbacks
      ensures forall id | id in core.conns ::
                && id in Protocol.DispatchHeld(core).conns
                && Protocol.DispatchHeld(core).conns[id].tasks ==
                   core.conns[id].tasks + TasksFor(scheduled[|old(scheduled)|..], id)
    {
      assert scheduled[|scheduled|..] == [];
      if channel in callbacks {
        assert forall task: (string, Payload) :: (scheduled + [task])[|scheduled|..] == [task];
        scheduled := scheduled + [(callbacks[channel], data)];
        callbacks := callbacks - {channel};
      }
    }

    /** One round of ThreadMain when nothing interferes: the oldest live message of some registered
        channel goes to that channel's callback and to no other, and the pump does not sleep;
        otherwise no callback is touched. What it does to the store is one receive on the
        registered channels, or nothing. */
    method Round() returns (delay: nat)
      requires forall c | c in callbacks :: IsChannelName(c)
      requires WellFormed(channels.prefix, channels.server.store, channels.server.now)
      modifies this, channels.server`store, channels.engine`used
      ensures WellFormed(channels.prefix, channels.server.store, channels.server.now)
      ensures delay == 0 ==>
                exists c :: c in old(callbacks)
                  && var q := old(Stored(channels.prefix, channels.server.store, channels.server.now, c));
                     && q != [] && channels.server.now <= q[0].deadline
                     && callbacks == old(callbacks) - {c}
                     && scheduled == old(scheduled) + [(old(callbacks)[c], q[0].payload)]
                     && Stored(channels.prefix, channels.server.store, channels.server.now, c) == q[1..]
      ensures exists names, received: Received<Payload> ::
                && Names(names) == old(callbacks).Keys && (delay == 0 <==> received.Message?)
                && Outcome(channels.prefix, old(channels.server.store), channels.server.store, channels.server.now,
                           names, received)
      ensures delay != 0 ==> callbacks == old(callbacks) && scheduled == old(scheduled)
      ensures delay == 50 <==> old(callbacks) == map[]
      ensures delay in {0, 10, 50}
    {
      ghost var core := Protocol.Core(map[], callbacks, Protocol.Idle, map[], map[]);
      var names := Snapshot(core);
      delay := 50;
      NoNames(names, callbacks);
      ghost var store := channels.server.store;
      ghost var outcome: Received<Payload> := Nothing;
      if |names| > 0 {
        delay := 10;
        var received, keys := channels.ReceiveMany(names);
        ReceiveTakesHead(channels.prefix, store, channels.server.now, names, keys);
        outcome := ReceiveFrom(channels.prefix, store, channels.server.now, keys).1;
        if received.Some? {
          delay := 0;
          var (channel, data) := received.value;
          assert channel in Names(names);
          Dispatch(channel, data, core.(pump := Protocol.Holding(channel, data)));
        }
      }
      assert Outcome(channels.prefix, store, channels.server.store, channels.server.now, names, outcome);
    }
  }
}
