/** The whole server as a transition system: any number of HTTP requests, the application, the
    one pump thread, the task pool and IIS, interleaved in any way. Channels are plain FIFOs
    here; ProtocolOverRedis replaces them by the two-level storage of the channel layer. */
module Protocol {
  import opened AsgiMessages
  import opened HttpSteps
  import opened Connections
  import opened Ledger

  const REQUEST_CHANNEL := "http.request"
  const REPLY_PREFIX := "http.request!"

  /** Where the pump thread is in its loop: before the snapshot, between snapshot and pop, and
      between pop and dispatch. */
  datatype Pump = Idle | Snapped(names: set<string>) | Holding(channel: string, data: Payload)

  /** Everything but the queues. A request is identified by its reply channel, which is also what
      a registered callback captures. `sent` and `history` record what was sent to each channel
      and what became of everything that left its queue. */
  datatype Core = Core(
    conns: map<string, Connection>, callbacks: map<string, string>, pump: Pump,
    sent: map<string, seq<Payload>>, history: map<string, History<Payload>>)

  datatype State = State(core: Core, queues: map<string, seq<Payload>>)

  datatype Label =
    | Arrive(channel: string, request: AsgiHttpRequestMsg, entity: Bytes, oracle: nat -> IisReply)
    | SendTask(channel: string, purge: bool)
    | AppSend(channel: string, response: AsgiHttpResponseMsg, purge: bool)
    | Snapshot
    | Pop(channel: string, live: bool)
    | PopNothing
    | Dispatch
    | CallbackTask(channel: string, index: nat)
    | PostedCompletion(channel: string)
    | IoCompletion(channel: string, ok: bool, bytes: nat)
    | RemoveChannel(channel: string)

  function SentOn(core: Core, c: string): seq<Payload> {
    if c in core.sent then core.sent[c] else []
  }

  function HistoryOf(core: Core, c: string): History<Payload> {
    if c in core.history then core.history[c] else Start
  }

  function Queue(s: State, c: string): seq<Payload> {
    if c in s.queues then s.queues[c] else []
  }

  // ----- Steps of the core -----

  /** `p` is sent to `c`; the messages `lost` were still queued there but had expired. */
  function Record(core: Core, c: string, p: Payload, lost: seq<Payload>): Core {
    core.(sent := core.sent[c := SentOn(core, c) + [p]],
          history := core.history[c := HistoryOf(core, c).Purged(lost)])
  }

  function Update(core: Core, c: string, r: Connection): Core {
    core.(conns := core.conns[c := r])
  }

  /** A driver call on request `c` has returned. */
  function Resume(core: Core, c: string, r: Connection, d: Driven): Core {
    Update(core, c, r.(h := d.w.h, status := d.status)).(callbacks := d.w.callbacks)
  }

  function Crash(core: Core, c: string): Core
    requires c in core.conns
  {
    Update(core, c, core.conns[c].(status := Crashed))
  }

  /** HttpRequestHandler::OnExecuteRequestHandler: a fresh reply channel, a zeroed body buffer of
      the size of the entity, and a first driver call. */
  function Accept(core: Core, c: string, request: AsgiHttpRequestMsg, entity: Bytes, oracle: nat -> IisReply): Core {
    var base := request.(replyChannel := c, rootPath := "", body := entity);
    var h := FirstHandler(request.(replyChannel := c), entity, oracle);
    Resume(core, c, Connection(base, h, Pending, [], 0), Continue(Enter(World(h, core.callbacks))))
  }

  /** The task of SendToApplicationStep: the request is packed and sent, then a completion is
      posted. None means that it dereferences a message that is not there. */
  function TaskSends(r: Connection): Option<AsgiHttpRequestMsg> {
    if r.status == Pending && r.h.step.SendToApplication? then r.h.step.request else None
  }

  function AfterSendTask(r: Connection, m: AsgiHttpRequestMsg): Connection
    requires r.h.sending > 0
  {
    r.(h := r.h.(sending := r.h.sending - 1).Log(Sent(m)), posted := r.posted + 1)
  }

  function TakeSnapshot(core: Core): Core {
    core.(pump := if core.callbacks == map[] then Idle else Snapped(core.callbacks.Keys))
  }

  function Popped(core: Core, c: string, p: Payload, live: bool): Core {
    core.(pump := if live then Holding(c, p) else Idle,
          history := core.history[c := Then(HistoryOf(core, c), p, if live then Kept else Expired)])
  }

  /** The second critical section of the pump: a one-shot callback becomes a task, or the
      message is dropped. */
  function DispatchHeld(core: Core): Core
    requires core.pump.Holding?
  {
    var c, data := core.pump.channel, core.pump.data;
    if c in core.callbacks then
      var core' := core.(pump := Idle, callbacks := core.callbacks - {c});
      var id := core.callbacks[c];
      if id in core.conns then Update(core', id, core.conns[id].(tasks := core.conns[id].tasks + [data])) else core'
    else
      var h := HistoryOf(core, c);
      core.(pump := Idle, history := core.history[c := if h.Passed() == [] then h else h.LastDropped()])
  }

  /** A scheduled callback runs: it stores the unpacked response in the step it was created by
      and posts a completion. */
  function RunCallback(core: Core, c: string, k: nat): Core
    requires c in core.conns && k < |core.conns[c].tasks|
  {
    var r := core.conns[c];
    if r.status == Pending && r.h.step.WaitForResponse? && r.tasks[k].Response? then
      var step' := WaitForResponse(r.h.step.replyChannel, Some(r.tasks[k].response));
      Update(core, c, r.(h := r.h.(step := step'), tasks := r.tasks[..k] + r.tasks[k + 1..], posted := r.posted + 1))
    else Crash(core, c)
  }

  function RunPosted(core: Core, c: string): Core
    requires c in core.conns && core.conns[c].posted > 0
  {
    var r := core.conns[c].(posted := core.conns[c].posted - 1);
    if r.status != Pending then Crash(core, c)
    else Resume(core, c, r, Complete(World(r.h, core.callbacks), true, 0))
  }

  /** IIS finishes an operation it had left pending. For a read, the data is in the buffer by now. */
  function RunIo(core: Core, c: string, ok: bool, bytes: nat): Core
    requires c in core.conns && core.conns[c].h.io > 0
  {
    var r := core.conns[c];
    var h := r.h.(io := r.h.io - 1);
    if r.status != Pending then Crash(core, c)
    else if !h.step.ReadBody? then Resume(core, c, r, Complete(World(h, core.callbacks), ok, bytes))
    else if !CanRead(h) || h.Remaining() == 0 then Crash(core, c)
    else
      var n := ReadSize(bytes, h.Remaining());
      Resume(core, c, r, Complete(World(if ok then Deliver(h, n) else h, core.callbacks), ok, n))
  }

  // ----- Steps of the system -----

  function Deposit(s: State, core: Core, c: string, p: Payload, purge: bool): State {
    if purge then State(Record(core, c, p, Queue(s, c)), s.queues[c := [p]])
    else State(Record(core, c, p, []), s.queues[c := Queue(s, c) + [p]])
  }

  predicate Enabled(s: State, l: Label) {
    match l
    case Arrive(c, _, _, _) => c !in s.core.conns && REPLY_PREFIX <= c
    case SendTask(c, _) => c in s.core.conns && s.core.conns[c].h.sending > 0
    case AppSend(_, _, _) => true
    case Snapshot => s.core.pump.Idle?
    case Pop(c, _) => s.core.pump.Snapped? && c in s.core.pump.names && Queue(s, c) != []
    case PopNothing => s.core.pump.Snapped?
    case Dispatch => s.core.pump.Holding?
    case CallbackTask(c, k) => c in s.core.conns && k < |s.core.conns[c].tasks|
    case PostedCompletion(c) => c in s.core.conns && s.core.conns[c].posted > 0
    case IoCompletion(c, _, _) => c in s.core.conns && s.core.conns[c].h.io > 0
    case RemoveChannel(_) => true
  }

  function Effect(s: State, l: Label): State
    requires Enabled(s, l)
  {
    var core := s.core;
    match l
    case Arrive(c, request, entity, oracle) => s.(core := Accept(core, c, request, entity, oracle))
    case SendTask(c, purge) =>
      var m := TaskSends(core.conns[c]);
      if m.None? then s.(core := Crash(core, c))
      else Deposit(s, Update(core, c, AfterSendTask(core.conns[c], m.value)), REQUEST_CHANNEL, Request(m.value), purge)
    case AppSend(c, response, purge) => Deposit(s, core, c, Response(response), purge)
    case Snapshot => s.(core := TakeSnapshot(core))
    case Pop(c, live) => State(Popped(core, c, Queue(s, c)[0], live), s.queues[c := Queue(s, c)[1..]])
    case PopNothing => s.(core := core.(pump := Idle))
    case Dispatch => s.(core := DispatchHeld(core))
    case CallbackTask(c, k) => s.(core := RunCallback(core, c, k))
    case PostedCompletion(c) => s.(core := RunPosted(core, c))
    case IoCompletion(c, ok, bytes) => s.(core := RunIo(core, c, ok, bytes))
    case RemoveChannel(c) => s.(core := core.(callbacks := core.callbacks - {c}))
  }

  /** A step that is not possible leaves the state as it is, so that every sequence of labels is
      a schedule. */
  function Next(s: State, l: Label): State {
    if Enabled(s, l) then Effect(s, l) else s
  }

  const INITIAL := State(Core(map[], map[], Idle, map[], map[]), map[])

  /** The state after any schedule. */
  function Exec(labels: seq<Label>): State {
    if labels == [] then INITIAL else Next(Exec(Init(labels)), Last(labels))
  }

  // ----- The invariant, channel by channel -----

  /** What the state holds for one channel. */
  datatype View = View(
    conn: Option<Connection>, registered: Option<string>, snapped: bool, held: seq<Payload>,
    sent: seq<Payload>, history: History<Payload>, queue: seq<Payload>)

  function ViewOf(s: State, c: string): View {
    View(
      if c in s.core.conns then Some(s.core.conns[c]) else None,
      if c in s.core.callbacks then Some(s.core.callbacks[c]) else None,
      s.core.pump.Snapped? && c in s.core.pump.names,
      if s.core.pump.Holding? && s.core.pump.channel == c then [s.core.pump.data] else [],
      SentOn(s.core, c), HistoryOf(s.core, c), Queue(s, c))
  }

  predicate AllResponses(ps: seq<Payload>) {
    forall i | 0 <= i < |ps| :: ps[i].Response?
  }

  /** What holds in every run: the ledger balances; nothing but responses is sent to a reply
      channel; whatever was passed on is applied, on its way to the request, or held by the pump,
      in order; and a channel is only registered, snapshot or held while its request is quiet. */
  predicate Good(c: string, v: View) {
    && v.history.Payloads() + v.queue == v.sent
    && (c != REQUEST_CHANNEL ==> AllResponses(v.sent))
    && match v.conn {
         case None => v.registered.None? && !v.snapped && v.held == [] && v.history.Passed() == []
         case Some(r) =>
           && REPLY_PREFIX <= c
           && ConnectionInv(c, r, v.registered.Some?)
           && (v.registered.Some? ==> v.registered.value == c)
           && (v.registered.Some? || v.snapped || v.held != [] ==> Quiet(r))
           && v.history.Passed() == Absorbed(r) + v.held
       }
  }

  /** What holds besides, as long as no channel is removed. */
  predicate Sound(v: View) {
    && (v.snapped || v.held != [] ==> v.registered.Some?)
    && (v.conn.Some? && v.conn.value.status == Pending ==>
          Continuations(v.conn.value, v.registered.Some?) == 1)
  }

  ghost predicate Inv(s: State) {
    forall c :: Good(c, ViewOf(s, c))
  }

  ghost predicate SoundInv(s: State) {
    forall c :: Sound(ViewOf(s, c))
  }

  /** The step leaves the registrations to the requests and the pump. */
  predicate KeepsChannels(l: Label) {
    !l.RemoveChannel?
  }
}
