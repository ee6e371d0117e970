/** The HTTP request step machine (AsgiHandlerLib/HttpRequestHandlerSteps.cpp and
    AsgiHandlerLib/RequestHandler.cpp) as functions on one request's state. The class that
    runs it in place is in HttpRequestHandler.dfy. */
module HttpSteps {
  import opened AsgiMessages

  datatype StepResult = AsyncPending | Rerun | GotoNext | FinishRequest

  /** What the driver reports to IIS. Crashed stands for a dereferenced null message or the
      exception of WriteResponseStep::GetNextStep. */
  datatype Status = Pending | Finished | Crashed

  /** IIS's answer to an asynchronous-capable call. */
  datatype IisReply = Failed | Sync(bytes: nat) | Async

  datatype Event =
    | Sent(request: AsgiHttpRequestMsg)        // the request went to the application
    | AwaitReply                               // a callback was registered for the reply channel
    | Applied(response: AsgiHttpResponseMsg)   // status and headers were set
    | Wrote(content: Bytes)
    | Flushed
    | Broken                                   // an IIS call failed

  /** The current step. A message that has been moved out of a step is None. */
  datatype Step =
    | ReadBody(request: Option<AsgiHttpRequestMsg>, bytesRead: nat)
    | SendToApplication(request: Option<AsgiHttpRequestMsg>)
    | WaitForResponse(replyChannel: string, response: Option<AsgiHttpResponseMsg>)
    | WriteResponse(response: Option<AsgiHttpResponseMsg>, replyChannel: string)
    | FlushResponse(replyChannel: string)

  /** One request: its identity, the IIS side (the entity, how much of it IIS has handed over,
      and IIS's answers to its calls in order), the current step, the continuations it has
      started itself, what it has done so far, and what IIS reported of each completed write and
      flush, which the code does not look at. */
  datatype Handler = Handler(
    id: string, entity: Bytes, oracle: nat -> IisReply, position: nat, calls: nat,
    step: Step, io: nat, sending: nat,
    chunks: seq<(nat, nat)>, applied: seq<AsgiHttpResponseMsg>, trace: seq<Event>, outcomes: seq<(Event, bool)>)
  {
    function Remaining(): nat {
      if position <= |entity| then |entity| - position else 0
    }

    function Log(e: Event): Handler {
      this.(trace := trace + [e])
    }

    function Report(e: Event, ok: bool): Handler {
      this.(outcomes := outcomes + [(e, ok)])
    }
  }

  /** A request at its start: the message as it arrived, without a root path and with a zeroed buffer
      as large as the entity. */
  function FirstHandler(request: AsgiHttpRequestMsg, entity: Bytes, oracle: nat -> IisReply): Handler {
    Handler(request.replyChannel, entity, oracle, 0, 0,
            ReadBody(Some(request.(rootPath := "", body := seq(|entity|, _ => '\0'))), 0), 0, 0, [], [], [], [])
  }

  /** A request together with the callback table it shares with every other request. */
  datatype World = World(h: Handler, callbacks: map<string, string>)

  datatype Outcome = Outcome(w: World, result: StepResult) | Crash(w: World)

  /** The request has gone to the application. */
  predicate IsSent(trace: seq<Event>) {
    trace != [] && trace[0].Sent?
  }

  // ----- The environment's contract -----

  /** A successful read hands over at least one byte and no more than was asked for. */
  function ReadSize(offered: nat, remaining: nat): (n: nat)
    requires remaining > 0
    ensures 1 <= n <= remaining
  {
    if offered == 0 then 1 else if offered > remaining then remaining else offered
  }

  /** The buffer can take what is left of the entity at the reading offset. */
  predicate CanRead(h: Handler) {
    h.step.ReadBody? && h.step.request.Some? && h.position <= |h.entity| &&
    h.step.bytesRead + h.Remaining() <= |h.step.request.value.body|
  }

  /** IIS copies the next n bytes of the entity into the buffer at the step's offset. */
  function Deliver(h: Handler, n: nat): (r: Handler)
    requires CanRead(h) && n <= h.Remaining()
  {
    var at := h.step.bytesRead;
    var body := h.step.request.value.body;
    var body' := body[..at] + h.entity[h.position..h.position + n] + body[at + n..];
    h.(step := ReadBody(Some(h.step.request.value.(body := body')), at),
       position := h.position + n,
       chunks := h.chunks + [(at, n)])
  }

  // ----- The steps -----

  /** OnAsyncCompletion of the current step. The read step's data is already in its buffer. */
  function OnAsyncCompletion(w: World, ok: bool, bytes: nat): (out: Outcome)
    ensures out.w.callbacks == w.callbacks && IsSent(out.w.h.trace) == IsSent(w.h.trace)
    ensures out.Outcome? && out.result == Rerun ==> w.h.step.ReadBody?
  {
    var h := w.h;
    match h.step
    case ReadBody(_, n) =>
      if !ok then Outcome(w.(h := h.Log(Broken)), FinishRequest)
      else
        var h' := h.(step := ReadBody(h.step.request, n + bytes));
        Outcome(w.(h := h'), if h.Remaining() > 0 then Rerun else GotoNext)
    case SendToApplication(_) => Outcome(w, GotoNext)
    case WaitForResponse(_, None) => Crash(w)
    case WaitForResponse(_, Some(m)) =>
      var h' := h.(applied := h.applied + [m]).Log(Applied(m));
      Outcome(w.(h := h'), if m.content == "" && !m.moreContent then FinishRequest else GotoNext)
    case WriteResponse(None, _) => Crash(w)
    case WriteResponse(Some(m), _) =>
      Outcome(w.(h := h.Report(Wrote(m.content), ok)), if m.moreContent then GotoNext else FinishRequest)
    case FlushResponse(_) => Outcome(w.(h := h.Report(Flushed, ok)), GotoNext)
  }

  /** ReadBodyStep::Enter's loop: read until IIS goes asynchronous, fails, or nothing remains. */
  function ReadEntity(w: World): (out: Outcome)
    ensures out.w.callbacks == w.callbacks && IsSent(out.w.h.trace) == IsSent(w.h.trace)
    ensures out.Outcome? ==> out.result != Rerun && out.w.h.step.ReadBody?
    ensures out.w.h.calls <= w.h.calls + w.h.Remaining()
    decreases w.h.Remaining()
  {
    var h := w.h;
    if h.Remaining() == 0 && h.step.ReadBody? then Outcome(w, GotoNext)
    else if !CanRead(h) then Crash(w)
    else
      var h' := h.(calls := h.calls + 1);
      match h.oracle(h.calls)
      case Failed => Outcome(w.(h := h'.Log(Broken)), FinishRequest)
      case Async => Outcome(w.(h := h'.(io := h.io + 1)), AsyncPending)
      case Sync(offered) =>
        var n := ReadSize(offered, h.Remaining());
        var out := OnAsyncCompletion(w.(h := Deliver(h', n)), true, n);
        if out.Outcome? && out.result == Rerun then ReadEntity(out.w) else out
  }

  function Enter(w: World): (out: Outcome)
    ensures IsSent(out.w.h.trace) == IsSent(w.h.trace)
    ensures out.Outcome? ==> out.result != Rerun
    ensures out.Outcome? && out.result == GotoNext ==> Rank(out.w.h.step) == Rank(w.h.step)
    ensures w.h.step.SendToApplication? || w.h.step.WaitForResponse? ==> out.Outcome? && out.result == AsyncPending
  {
    var h := w.h;
    match h.step
    case ReadBody(_, _) => ReadEntity(w)
    case SendToApplication(_) => Outcome(w.(h := h.(sending := h.sending + 1)), AsyncPending)
    case WaitForResponse(c, _) =>
      Outcome(World(h.Log(AwaitReply), w.callbacks[c := h.id]), AsyncPending)
    case WriteResponse(None, _) => Crash(w)
    case WriteResponse(Some(m), _) => Call(w, Wrote(m.content))
    case FlushResponse(_) => Call(w, Flushed)
  }

  /** The loop shared by WriteResponseStep::Enter and FlushResponseStep::Enter: the completion
      never asks for a re-run, so one call to IIS is made. */
  function Call(w: World, done: Event): (out: Outcome)
    requires w.h.step.WriteResponse? || w.h.step.FlushResponse?
    requires !done.Sent?
    ensures out.Outcome? ==> out.result != Rerun && out.w.h.step == w.h.step
    ensures out.w.callbacks == w.callbacks && IsSent(out.w.h.trace) == IsSent(w.h.trace)
  {
    var h := w.h.(calls := w.h.calls + 1);
    match h.oracle(w.h.calls)
    case Failed => Outcome(w.(h := h.Log(Broken)), FinishRequest)
    case Async => Outcome(w.(h := h.Log(done).(io := h.io + 1)), AsyncPending)
    case Sync(n) => OnAsyncCompletion(w.(h := h.Log(done)), true, n)
  }

  /** GetNextStep; None is a null dereference or WriteResponseStep's exception. */
  function NextStep(step: Step): (next: Option<Step>)
    ensures next.Some? && Rank(next.value) >= Rank(step) ==> next.value.WaitForResponse?
  {
    match step
    case ReadBody(m, _) => Some(SendToApplication(m))
    case SendToApplication(None) => None
    case SendToApplication(Some(m)) => Some(WaitForResponse(m.replyChannel, None))
    case WaitForResponse(_, None) => None
    case WaitForResponse(c, Some(m)) =>
      Some(if m.content == "" && m.moreContent then FlushResponse(c) else WriteResponse(Some(m), c))
    case WriteResponse(None, _) => None
    case WriteResponse(Some(m), c) => if m.moreContent then Some(FlushResponse(c)) else None
    case FlushResponse(c) => Some(WaitForResponse(c, None))
  }

  // ----- The driver -----

  /** Steps in the order in which one driver call can run through them without pausing. */
  function Rank(step: Step): nat {
    match step
    case ReadBody(_, _) => 5
    case SendToApplication(_) => 4
    case WaitForResponse(_, _) => 3
    case WriteResponse(_, _) => 2
    case FlushResponse(_) => 1
  }

  /** How many rounds the driver's loop can still make. */
  function Fuel(step: Step, result: StepResult): nat {
    match result
    case AsyncPending => 0
    case FinishRequest => 0
    case GotoNext => Rank(step)
    case Rerun => 6
  }

  datatype Driven = Driven(w: World, status: Status)

  /** HandlerStateMachine. */
  function Drive(w: World, result: StepResult): (d: Driven)
    ensures IsSent(d.w.h.trace) == IsSent(w.h.trace)
    decreases Fuel(w.h.step, result), 0
  {
    match result
    case AsyncPending => Driven(w, Pending)
    case FinishRequest => Driven(w, Finished)
    case Rerun =>
      var out := Enter(w);
      if out.Crash? then Driven(out.w, Crashed) else Drive(out.w, out.result)
    case GotoNext =>
      var next := NextStep(w.h.step);
      if next.None? then Driven(w, Crashed)
      else
        var out := Enter(w.(h := w.h.(step := next.value)));
        if out.Crash? then Driven(out.w, Crashed) else Drive(out.w, out.result)
  }

  /** What HttpRequestHandler does with the outcome of a step's method. */
  function Continue(out: Outcome): Driven {
    if out.Crash? then Driven(out.w, Crashed) else Drive(out.w, out.result)
  }

  /** HttpRequestHandler::OnAsyncCompletion. */
  function Complete(w: World, ok: bool, bytes: nat): Driven {
    Continue(OnAsyncCompletion(w, ok, bytes))
  }

  // ----- How much one driver call does -----

  /** However IIS mixes synchronous and asynchronous answers, one driver call makes at most one
      IIS call per unread byte, or else at most one write and one flush. */
  lemma {:induction false} DriveCalls(w: World, result: StepResult)
    requires result == Rerun ==> w.h.step.ReadBody?
    ensures Drive(w, result).w.h.calls <= w.h.calls + if result == Rerun then w.h.Remaining() else 2
    ensures result != Rerun && !w.h.step.WaitForResponse? ==>
              Drive(w, result).w.h.calls <= w.h.calls + 1
    decreases Fuel(w.h.step, result)
  {
    if result == Rerun {
      var out := Enter(w);
      if out.Outcome? {
        DriveCalls(out.w, out.result);
      }
    } else if result == GotoNext && NextStep(w.h.step).Some? {
      var out := Enter(w.(h := w.h.(step := NextStep(w.h.step).value)));
      if out.Outcome? {
        DriveCalls(out.w, out.result);
      }
    }
  }
}
