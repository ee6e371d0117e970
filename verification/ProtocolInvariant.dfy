/** Every step of every schedule keeps the invariant. */
module ProtocolInvariant {
  import opened AsgiMessages
  import opened HttpSteps
  import opened Connections
  import opened Ledger
  import opened Protocol

  // ----- One channel at a time -----

  /** Channel `c` goes from view `v` to `v'` and stays good; it stays sound if the step
      `keeps` the registrations. */
  predicate Kept(c: string, v: View, v': View, keeps: bool) {
    Good(c, v') && (Sound(v) && keeps ==> Sound(v'))
  }

  ghost predicate KeptAt(s: State, l: Label, c: string)
    requires Enabled(s, l)
  {
    exists v', keeps ::
      v' == ViewOf(Effect(s, l), c) && Kept(c, ViewOf(s, c), v', keeps) && (KeepsChannels(l) ==> keeps)
  }

  /** A driver call has settled: the request's view after it. */
  function AfterDriver(v: View, base: AsgiHttpRequestMsg, d: Driven): View {
    var c := d.w.h.id;
    v.(conn := Some(Connection(base, d.w.h, d.status, [], 0)),
       registered := if c in d.w.callbacks then Some(d.w.callbacks[c]) else None)
  }

  lemma DriverKeeps(c: string, v: View, w: World, base: AsgiHttpRequestMsg, d: Driven)
    requires Good(c, v) && REPLY_PREFIX <= c && w.h.id == c == d.w.h.id && !v.snapped && v.held == []
    requires exists ms :: v.history.Passed() == Responses(ms) && Settled(base, w, d, ms)
    ensures Kept(c, v, AfterDriver(v, base, d), true)
  {
    var ms :| v.history.Passed() == Responses(ms) && Settled(base, w, d, ms);
    assert Responses(ms) == Responses(ms) + [];
  }

  /** A message joins a channel's queue, after the expired ones left it. */
  function AfterDeposit(v: View, p: Payload, purge: bool): View {
    v.(sent := v.sent + [p],
       history := v.history.Purged(if purge then v.queue else []),
       queue := if purge then [p] else v.queue + [p])
  }

  lemma DepositKeeps(c: string, v: View, p: Payload, purge: bool)
    requires Good(c, v) && (c == REQUEST_CHANNEL || p.Response?)
    ensures Kept(c, v, AfterDeposit(v, p, purge), true)
  {
    var lost := if purge then v.queue else [];
    assert v.history.Payloads() + v.queue + [p] == v.history.Payloads() + (v.queue + [p]);
    assert !purge ==> v.history.Payloads() + lost == v.history.Payloads();
  }

  lemma PopKeeps(c: string, v: View, live: bool)
    requires Good(c, v) && v.snapped && v.held == [] && v.queue != []
    ensures var p := v.queue[0];
            Kept(c, v, v.(snapped := false, held := if live then [p] else [], queue := v.queue[1..],
                          history := Then(v.history, p, if live then Ledger.Kept else Expired)), true)
  {
    assert v.queue == [v.queue[0]] + v.queue[1..];
    assert v.history.Payloads() + v.queue == v.history.Payloads() + [v.queue[0]] + v.queue[1..];
    assert Absorbed(v.conn.value) + [] == Absorbed(v.conn.value);
    assert v.history.Passed() + [] == v.history.Passed();
  }

  /** The held message becomes a task of the quiet request that is registered for it. */
  lemma DispatchKeeps(c: string, v: View, data: Payload)
    requires Good(c, v) && !v.snapped && v.held == [data] && v.registered.Some?
    ensures v.conn.Some?
    ensures var r := v.conn.value;
            Kept(c, v, v.(registered := None, held := [], conn := Some(r.(tasks := r.tasks + [data]))), true)
  {
    var r := v.conn.value;
    var r' := r.(tasks := r.tasks + [data]);
    assert Absorbed(r) + [data] == Absorbed(r') + [];
  }

  lemma DropKeeps(c: string, v: View, data: Payload)
    requires Good(c, v) && v.held == [data] && v.registered.None?
    ensures v.history.Passed() != []
    ensures Kept(c, v, v.(held := [], history := v.history.LastDropped()), true)
  {
    var before := Absorbed(v.conn.value);
    var after := v.history.LastDropped().Passed();
    assert after + [data] == before + [data];
    assert after == (after + [data])[..|after|] == (before + [data])[..|before|] == before + [];
  }

  // ----- What a connection's continuations find -----

  /** A posted completion finds what its poster left: the request sent, or a response stored. */
  lemma PostedSettles(c: string, r: Connection, callbacks: map<string, string>)
    requires ConnectionInv(c, r, c in callbacks) && r.posted > 0
    ensures r.status == Pending && !Quiet(r) && r.posted == 1 && r.tasks == []
    ensures exists ms ::
              && Absorbed(r) == Responses(ms)
              && Settled(r.base, World(r.h, callbacks), Complete(World(r.h, callbacks), true, 0), ms)
  {
    var w := World(r.h, callbacks);
    var ms;
    if r.h.step.SendToApplication? {
      AfterSend(r.base, w, true, 0);
      ms := [];
    } else {
      AfterWait(r.base, w, true, 0);
      ms := r.h.applied + [r.h.step.response.value];
    }
    assert Absorbed(r) == Responses(ms);
    assert Settled(r.base, w, Complete(w, true, 0), ms);
  }

  /** The world in which IIS completes an operation, and the size it reports. */
  function IoWorld(r: Connection, callbacks: map<string, string>, ok: bool, bytes: nat): (World, nat)
    requires r.h.io > 0 && (r.h.step.ReadBody? ==> CanRead(r.h) && r.h.Remaining() > 0)
  {
    var h := r.h.(io := r.h.io - 1);
    if h.step.ReadBody? then
      var n := ReadSize(bytes, h.Remaining());
      (World(if ok then Deliver(h, n) else h, callbacks), n)
    else (World(h, callbacks), bytes)
  }

  /** What the request that awaits an I/O completion looks like. */
  lemma IoIsAwaited(c: string, r: Connection, registered: bool)
    requires ConnectionInv(c, r, registered) && r.h.io > 0
    ensures r.status == Pending && !Quiet(r) && r.posted == 0 && r.tasks == [] && r.h.io == 1 && !registered
    ensures r.h.step.ReadBody? || r.h.step.WriteResponse? || r.h.step.FlushResponse?
    ensures r.h.step.ReadBody? ==> CanRead(r.h) && r.h.Remaining() > 0
    ensures Absorbed(r) == Responses(r.h.applied)
  {
  }

  lemma ReadSettles(c: string, r: Connection, callbacks: map<string, string>, ok: bool, bytes: nat)
    requires ConnectionInv(c, r, c in callbacks) && r.h.io > 0 && r.h.step.ReadBody?
    ensures CanRead(r.h) && r.h.Remaining() > 0
    ensures var (w, n) := IoWorld(r, callbacks, ok, bytes);
            exists d :: d == Complete(w, ok, n) && Settled(r.base, w, d, r.h.applied)
  {
    var (w, n) := IoWorld(r, callbacks, ok, bytes);
    var before := World(r.h.(io := 0), callbacks);
    if ok {
      AfterRead(r.base, before, n);
      assert w == before.(h := Deliver(before.h, n));
    } else {
      AfterFailedRead(r.base, before, n);
      assert w == before;
    }
  }

  lemma WriteSettles(c: string, r: Connection, callbacks: map<string, string>, ok: bool, bytes: nat)
    requires ConnectionInv(c, r, c in callbacks) && r.h.io > 0 && r.h.step.WriteResponse?
    ensures var (w, n) := IoWorld(r, callbacks, ok, bytes);
            exists d :: d == Complete(w, ok, n) && Settled(r.base, w, d, r.h.applied)
  {
    var (w, n) := IoWorld(r, callbacks, ok, bytes);
    AfterWrite(r.base, w, ok, n);
  }

  lemma FlushSettles(c: string, r: Connection, callbacks: map<string, string>, ok: bool, bytes: nat)
    requires ConnectionInv(c, r, c in callbacks) && r.h.io > 0 && r.h.step.FlushResponse?
    ensures var (w, n) := IoWorld(r, callbacks, ok, bytes);
            exists d :: d == Complete(w, ok, n) && Settled(r.base, w, d, r.h.applied)
  {
    var (w, n) := IoWorld(r, callbacks, ok, bytes);
    AfterFlush(r.base, w, ok, n);
  }

  /** An I/O completion finds the step that asked for it. */
  lemma IoSettles(c: string, r: Connection, callbacks: map<string, string>, ok: bool, bytes: nat)
    requires ConnectionInv(c, r, c in callbacks) && r.h.io > 0
    ensures r.status == Pending && !Quiet(r) && r.posted == 0 && r.tasks == []
    ensures r.h.step.ReadBody? ==> CanRead(r.h) && r.h.Remaining() > 0
    ensures var (w, n) := IoWorld(r, callbacks, ok, bytes);
            exists ms :: Absorbed(r) == Responses(ms) && Settled(r.base, w, Complete(w, ok, n), ms)
  {
    IoIsAwaited(c, r, c in callbacks);
    if r.h.step.ReadBody? {
      ReadSettles(c, r, callbacks, ok, bytes);
    } else if r.h.step.WriteResponse? {
      WriteSettles(c, r, callbacks, ok, bytes);
    } else {
      FlushSettles(c, r, callbacks, ok, bytes);
    }
  }

  /** The send task finds the complete request message. */
  lemma SendTaskKeeps(c: string, v: View, r: Connection)
    requires Good(c, v) && v.conn == Some(r) && r.h.sending > 0
    ensures TaskSends(r) == Some(r.base)
    ensures Kept(c, v, v.(conn := Some(AfterSendTask(r, r.base))), true)
  {
    var r' := AfterSendTask(r, r.base);
    assert r'.h.trace == [Sent(r.base)];
    assert Absorbed(r') == Absorbed(r);
  }

  /** A callback task finds the waiting step that registered it, and a response as its data. */
  lemma CallbackKeeps(c: string, v: View, r: Connection, k: nat)
    requires Good(c, v) && v.conn == Some(r) && k < |r.tasks|
    ensures r.status == Pending && r.h.step.WaitForResponse? && r.tasks[k].Response?
    ensures var r' := r.(h := r.h.(step := WaitForResponse(r.h.step.replyChannel, Some(r.tasks[k].response))),
                         tasks := r.tasks[..k] + r.tasks[k + 1..], posted := r.posted + 1);
            Kept(c, v, v.(conn := Some(r')), true)
  {
    assert r.tasks == [r.tasks[0]];
    assert r.tasks[..k] + r.tasks[k + 1..] == [];
    assert r.tasks[k] in Absorbed(r) + v.held;
    PassedWereTaken(v.history, r.tasks[k]);
    assert r.tasks[k] in v.history.Payloads() + v.queue;
    var r' := r.(h := r.h.(step := WaitForResponse(r.h.step.replyChannel, Some(r.tasks[k].response))),
                 tasks := r.tasks[..k] + r.tasks[k + 1..], posted := r.posted + 1);
    assert Absorbed(r') == Absorbed(r);
  }

  lemma {:induction false} PassedWereTaken<P>(h: History<P>, p: P)
    requires p in h.Passed()
    ensures p in h.Payloads()
  {
    if p in h.earlier.Passed() {
      PassedWereTaken(h.earlier, p);
    }
  }

  // ----- One step at a time -----

  /** A driver call on `c` touches no other channel. */
  lemma ResumeKeeps(s: State, l: Label, c: string, r: Connection, w: World, d: Driven, c': string)
    requires Inv(s) && Enabled(s, l) && Effect(s, l) == s.(core := Resume(s.core, c, r, d))
    requires REPLY_PREFIX <= c && r.tasks == [] && r.posted == 0
    requires w.h.id == c && w.callbacks == s.core.callbacks
    requires var v := ViewOf(s, c); !v.snapped && v.held == []
    requires exists ms :: ViewOf(s, c).history.Passed() == Responses(ms) && Settled(r.base, w, d, ms)
    ensures KeptAt(s, l, c')
  {
    var v := ViewOf(s, c');
    assert Good(c', v);
    SettledFrame(c, r.base, w, d);
    if c' == c {
      DriverKeeps(c, v, w, r.base, d);
      ResumeView(s, c, r, d);
    } else {
      ResumeElsewhere(s, c, r, d, c');
      assert Kept(c', v, v, KeepsChannels(l));
    }
  }

  lemma ResumeView(s: State, c: string, r: Connection, d: Driven)
    requires d.w.h.id == c && r.tasks == [] && r.posted == 0
    ensures ViewOf(s.(core := Resume(s.core, c, r, d)), c) == AfterDriver(ViewOf(s, c), r.base, d)
  {
  }

  lemma ResumeElsewhere(s: State, c: string, r: Connection, d: Driven, c': string)
    requires d.w.callbacks - {c} == s.core.callbacks - {c} && c' != c
    ensures ViewOf(s.(core := Resume(s.core, c, r, d)), c') == ViewOf(s, c')
  {
    OthersUntouched(s.core.callbacks, d.w.callbacks, c, c');
  }

  lemma SettledFrame(c: string, base: AsgiHttpRequestMsg, w: World, d: Driven)
    requires w.h.id == c && exists ms :: Settled(base, w, d, ms)
    ensures d.w.h.id == c && d.w.callbacks - {c} == w.callbacks - {c}
  {
    var ms :| Settled(base, w, d, ms);
  }

  lemma OthersUntouched(m: map<string, string>, m': map<string, string>, c: string, c': string)
    requires m - {c} == m' - {c} && c' != c
    ensures c' in m <==> c' in m'
    ensures c' in m ==> m[c'] == m'[c']
  {
    assert c' in m <==> c' in m - {c};
    assert c' in m' <==> c' in m' - {c};
    if c' in m {
      assert (m - {c})[c'] == (m' - {c})[c'];
    }
  }

  lemma ArriveStep(s: State, l: Label, c': string)
    requires Inv(s) && Enabled(s, l) && l.Arrive?
    ensures KeptAt(s, l, c')
  {
    var c := l.channel;
    var base := l.request.(replyChannel := c, rootPath := "", body := l.entity);
    var h := FirstHandler(l.request.(replyChannel := c), l.entity, l.oracle);
    var w := World(h, s.core.callbacks);
    assert Good(c, ViewOf(s, c));
    ReadLoop(base, w);
    assert ViewOf(s, c).history.Passed() == Responses([]);
    assert Reading(base, h);
    ResumeKeeps(s, l, c, Connection(base, h, Pending, [], 0), w, Continue(Enter(w)), c');
  }

  /** The pump does not hold anything for a request that is not quiet. */
  lemma HeldByNobody(c: string, v: View, r: Connection)
    requires Good(c, v) && v.conn == Some(r) && !Quiet(r)
    ensures !v.snapped && v.held == [] && v.history.Passed() == Absorbed(r) && REPLY_PREFIX <= c
  {
    assert Absorbed(r) + [] == Absorbed(r);
  }

  lemma PostedStep(s: State, l: Label, c': string)
    requires Inv(s) && Enabled(s, l) && l.PostedCompletion?
    ensures KeptAt(s, l, c')
  {
    var c := l.channel;
    var r := s.core.conns[c];
    var v := ViewOf(s, c);
    assert Good(c, v);
    PostedSettles(c, r, s.core.callbacks);
    HeldByNobody(c, v, r);
    var w := World(r.h, s.core.callbacks);
    ResumeKeeps(s, l, c, r.(posted := 0), w, Complete(w, true, 0), c');
  }

  lemma IoStep(s: State, l: Label, c': string)
    requires Inv(s) && Enabled(s, l) && l.IoCompletion?
    ensures KeptAt(s, l, c')
  {
    var c := l.channel;
    var r := s.core.conns[c];
    var v := ViewOf(s, c);
    assert Good(c, v);
    IoSettles(c, r, s.core.callbacks, l.ok, l.bytes);
    HeldByNobody(c, v, r);
    var (w, n) := IoWorld(r, s.core.callbacks, l.ok, l.bytes);
    ResumeKeeps(s, l, c, r, w, Complete(w, l.ok, n), c');
  }

  lemma DepositView(s: State, core: Core, d: string, p: Payload, purge: bool, c: string)
    ensures var v := ViewOf(State(core, s.queues), c);
            ViewOf(Deposit(s, core, d, p, purge), c) == (if c == d then AfterDeposit(v, p, purge) else v)
  {
  }

  lemma UpdateView(s: State, d: string, r: Connection, c: string)
    ensures ViewOf(State(Update(s.core, d, r), s.queues), c) ==
            (if c == d then ViewOf(s, c).(conn := Some(r)) else ViewOf(s, c))
  {
  }

  lemma AppSendStep(s: State, l: Label, c': string)
    requires Inv(s) && Enabled(s, l) && l.AppSend?
    ensures KeptAt(s, l, c')
  {
    var v := ViewOf(s, c');
    assert Good(c', v);
    DepositView(s, s.core, l.channel, Response(l.response), l.purge, c');
    if c' == l.channel {
      DepositKeeps(c', v, Response(l.response), l.purge);
    } else {
      assert Kept(c', v, v, KeepsChannels(l));
    }
  }

  lemma SendTaskStep(s: State, l: Label, c': string)
    requires Inv(s) && Enabled(s, l) && l.SendTask?
    ensures KeptAt(s, l, c')
  {
    var v, r := ViewOf(s, c'), s.core.conns[l.channel];
    assert Good(c', v) && Good(l.channel, ViewOf(s, l.channel));
    SendTaskKeeps(l.channel, ViewOf(s, l.channel), r);
    UpdateView(s, l.channel, AfterSendTask(r, r.base), c');
    DepositView(s, Update(s.core, l.channel, AfterSendTask(r, r.base)), REQUEST_CHANNEL, Request(r.base), l.purge, c');
    if c' == REQUEST_CHANNEL {
      DepositKeeps(c', v, Request(r.base), l.purge);
    } else if c' != l.channel {
      assert Kept(c', v, v, KeepsChannels(l));
    }
  }

  lemma CallbackStep(s: State, l: Label, c': string)
    requires Inv(s) && Enabled(s, l) && l.CallbackTask?
    ensures KeptAt(s, l, c')
  {
    var c := l.channel;
    var r := s.core.conns[c];
    var v := ViewOf(s, c');
    assert Good(c, ViewOf(s, c)) && Good(c', v);
    CallbackKeeps(c, ViewOf(s, c), r, l.index);
    UpdateView(s, c, Effect(s, l).core.conns[c], c');
    if c' != c {
      assert Kept(c', v, v, KeepsChannels(l));
    }
  }

  lemma PopStep(s: State, l: Label, c': string)
    requires Inv(s) && Enabled(s, l) && l.Pop?
    ensures KeptAt(s, l, c')
  {
    var v, v' := ViewOf(s, c'), ViewOf(Effect(s, l), c');
    assert Good(c', v);
    if c' == l.channel {
      PopKeeps(c', v, l.live);
      var p := v.queue[0];
      assert v' == v.(snapped := false, held := if l.live then [p] else [], queue := v.queue[1..],
                      history := Then(v.history, p, if l.live then Ledger.Kept else Expired));
    } else {
      assert v' == v.(snapped := false);
      assert Kept(c', v, v', KeepsChannels(l));
    }
  }

  lemma DispatchStep(s: State, l: Label, c': string)
    requires Inv(s) && Enabled(s, l) && l.Dispatch?
    ensures KeptAt(s, l, c')
  {
    var c, data := s.core.pump.channel, s.core.pump.data;
    var v := ViewOf(s, c');
    assert Good(c', v) && Good(c, ViewOf(s, c));
    DispatchView(s, c');
    if c' != c {
      assert Kept(c', v, v, KeepsChannels(l));
    } else if c in s.core.callbacks {
      DispatchKeeps(c, v, data);
    } else {
      DropKeeps(c, v, data);
    }
  }

  lemma DispatchView(s: State, c': string)
    requires s.core.pump.Holding? && Good(s.core.pump.channel, ViewOf(s, s.core.pump.channel))
    ensures var c, data, v := s.core.pump.channel, s.core.pump.data, ViewOf(s, c');
            ViewOf(s.(core := DispatchHeld(s.core)), c') ==
            if c' != c then v
            else if c in s.core.callbacks then
              var r := s.core.conns[c];
              v.(registered := None, held := [], conn := Some(r.(tasks := r.tasks + [data])))
            else v.(held := [], history := v.history.LastDropped())
  {
    var c, v := s.core.pump.channel, ViewOf(s, s.core.pump.channel);
    if c !in s.core.callbacks {
      DropKeeps(c, v, s.core.pump.data);
    }
  }

  lemma TableStep(s: State, l: Label, c': string)
    requires Inv(s) && Enabled(s, l) && (l.Snapshot? || l.PopNothing? || l.RemoveChannel?)
    ensures KeptAt(s, l, c')
  {
    var v, v' := ViewOf(s, c'), ViewOf(Effect(s, l), c');
    assert Good(c', v);
    assert v' == v.(snapped := v'.snapped, registered := v'.registered);
    assert Kept(c', v, v', KeepsChannels(l));
  }

  lemma StepKeeps(s: State, l: Label, c: string)
    requires Inv(s) && Enabled(s, l)
    ensures KeptAt(s, l, c)
  {
    match l
    case Arrive(_, _, _, _) => ArriveStep(s, l, c);
    case SendTask(_, _) => SendTaskStep(s, l, c);
    case AppSend(_, _, _) => AppSendStep(s, l, c);
    case CallbackTask(_, _) => CallbackStep(s, l, c);
    case PostedCompletion(_) => PostedStep(s, l, c);
    case IoCompletion(_, _, _) => IoStep(s, l, c);
    case Pop(_, _) => PopStep(s, l, c);
    case Dispatch => DispatchStep(s, l, c);
    case _ => TableStep(s, l, c);
  }

  lemma NextKeeps(s: State, l: Label)
    requires Inv(s)
    ensures Inv(Next(s, l))
    ensures SoundInv(s) && KeepsChannels(l) ==> SoundInv(Next(s, l))
  {
    if Enabled(s, l) {
      var s' := Effect(s, l);
      forall c
        ensures exists v' :: v' == ViewOf(s', c) && Good(c, v') && (SoundInv(s) && KeepsChannels(l) ==> Sound(v'))
      {
        StepKeeps(s, l, c);
      }
    }
  }

  /** The invariant holds after every schedule. */
  lemma {:induction false} InvAlways(labels: seq<Label>)
    ensures Inv(Exec(labels))
    ensures (forall i | 0 <= i < |labels| :: KeepsChannels(labels[i])) ==> SoundInv(Exec(labels))
  {
    if labels != [] {
      InvAlways(Init(labels));
      NextKeeps(Exec(Init(labels)), Last(labels));
    }
  }
}
