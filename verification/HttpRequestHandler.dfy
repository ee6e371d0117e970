/** The request handler as it runs (AsgiHandlerLib/HttpRequestHandler.cpp,
    AsgiHandlerLib/RequestHandler.cpp, AsgiHandlerLib/HttpRequestHandlerSteps.cpp): fields updated
    in place, loops that go on while IIS answers synchronously, and the driver loop. Each method
    is proved to do what HttpSteps says. */
module HttpRequestHandler {
  import opened AsgiMessages
  import opened HttpSteps
  import opened ResponsePump

  /** A pass through the reading loop took `w` to `after`: either the loop goes on from there with
      less to read, or it has come to its result. */
  ghost predicate ReadOn(w: World, after: World, result: Option<StepResult>) {
    if result == Some(Rerun) then
      && ReadEntity(w) == ReadEntity(after)
      && after.h.step.ReadBody? && 0 < after.h.Remaining() < w.h.Remaining()
    else
      ReadEntity(w).w == after && result == if ReadEntity(w).Outcome? then Some(ReadEntity(w).result) else None
  }

  /** What a read that IIS answers at once leaves, once its completion has run. */
  ghost function AnsweredAtOnce(w: World): Outcome
    requires CanRead(w.h) && w.h.Remaining() > 0 && w.h.oracle(w.h.calls).Sync?
  {
    var n := ReadSize(w.h.oracle(w.h.calls).bytes, w.h.Remaining());
    OnAsyncCompletion(w.(h := Deliver(w.h.(calls := w.h.calls + 1), n)), true, n)
  }

  /** One synchronous round of the reading loop. */
  lemma ReadEntityRound(w: World)
    requires CanRead(w.h) && w.h.Remaining() > 0 && w.h.oracle(w.h.calls).Sync?
    ensures var out := AnsweredAtOnce(w);
            out.Outcome? && ReadOn(w, out.w, Some(out.result)) && (out.result == Rerun <==> out.w.h.Remaining() > 0)
  {
  }

  /** A round that IIS refuses or leaves pending. */
  lemma ReadEntityStops(w: World)
    requires CanRead(w.h) && w.h.Remaining() > 0 && !w.h.oracle(w.h.calls).Sync?
    ensures var h := w.h.(calls := w.h.calls + 1);
            ReadEntity(w) == if w.h.oracle(w.h.calls).Failed? then Outcome(w.(h := h.Log(Broken)), FinishRequest)
                             else Outcome(w.(h := h.(io := h.io + 1)), AsyncPending)
  {
  }

  class RequestHandler {
    const id: string
    const entity: Bytes
    const oracle: nat -> IisReply
    const pump: Pump
    var position: nat
    var calls: nat
    var step: Step
    var io: nat
    var sending: nat
    var chunks: seq<(nat, nat)>
    var applied: seq<AsgiHttpResponseMsg>
    var trace: seq<Event>
    var outcomes: seq<(Event, bool)>

    function Value(): Handler
      reads this
    {
      Handler(id, entity, oracle, position, calls, step, io, sending, chunks, applied, trace, outcomes)
    }

    ghost function Here(): World
      reads this, pump
    {
      World(Value(), pump.callbacks)
    }

    /** The start of OnExecuteRequestHandler: the message with an empty buffer for the entity. It is the
        handler from which the protocol accepts a request. */
    constructor (pump: Pump, request: AsgiHttpRequestMsg, entity: Bytes, oracle: nat -> IisReply)
      ensures this.pump == pump
      ensures var buffer := request.(rootPath := "", body := seq(|entity|, _ => '\0'));
              Value() == Handler(request.replyChannel, entity, oracle, 0, 0,
                                 ReadBody(Some(buffer), 0), 0, 0, [], [], [], [])
      ensures Value() == FirstHandler(request, entity, oracle)
    {
      this.pump := pump;
      this.id := request.replyChannel;
      this.entity := entity;
      this.oracle := oracle;
      position, calls, io, sending := 0, 0, 0, 0;
      step := ReadBody(Some(request.(rootPath := "", body := seq(|entity|, _ => '\0'))), 0);
      chunks, applied, trace, outcomes := [], [], [], [];
    }

    /** IHttpRequest::GetRemainingEntityBytes */
    function GetRemainingEntityBytes(): (n: nat)
      reads this
      ensures n == Value().Remaining()
    {
      if position <= |entity| then |entity| - position else 0
    }

    /** The data of a read arrives in the buffer. */
    method ReceiveChunk(n: nat)
      requires CanRead(Value()) && n <= GetRemainingEntityBytes()
      modifies this`step, this`position, this`chunks
      ensures Value() == Deliver(old(Value()), n)
    {
      var at, request := step.bytesRead, step.request.value;
      var body := request.body[..at] + entity[position..position + n] + request.body[at + n..];
      step := ReadBody(Some(request.(body := body)), at);
      position := position + n;
      chunks := chunks + [(at, n)];
    }

    /** OnAsyncCompletion of the current step; None stands for a null dereference. */
    method CompleteStep(ok: bool, bytes: nat) returns (result: Option<StepResult>)
      modifies this`step, this`applied, this`trace, this`outcomes
      ensures var out := OnAsyncCompletion(old(Here()), ok, bytes);
              Here() == out.w && result == if out.Outcome? then Some(out.result) else None
    {
      match step {
        case ReadBody(request, bytesRead) =>
          if !ok {
            trace := trace + [Broken];
            return Some(FinishRequest);
          }
          step := ReadBody(request, bytesRead + bytes);
          return Some(if GetRemainingEntityBytes() > 0 then Rerun else GotoNext);
        case SendToApplication(_) =>
          return Some(GotoNext);
        case WaitForResponse(_, response) =>
          if response.None? {
            return None;
          }
          var m := response.value;
          applied := applied + [m];
          trace := trace + [Applied(m)];
          return Some(if m.content == "" && !m.moreContent then FinishRequest else GotoNext);
        case WriteResponse(response, _) =>
          if response.None? {
            return None;
          }
          outcomes := outcomes + [(Wrote(response.value.content), ok)];
          return Some(if response.value.moreContent then GotoNext else FinishRequest);
        case FlushResponse(_) =>
          outcomes := outcomes + [(Flushed, ok)];
          return Some(GotoNext);
      }
    }

    /** A read that IIS answers at once: the data arrives and the completion runs. `before` is the
        world in which the read was asked for. */
    method ReadAtOnce(offered: nat, ghost before: World) returns (result: Option<StepResult>)
      requires CanRead(before.h) && before.h.Remaining() > 0 && before.h.oracle(before.h.calls) == Sync(offered)
      requires Here() == before.(h := before.h.(calls := before.h.calls + 1))
      modifies this
      ensures ReadOn(before, Here(), result)
    {
      var n := ReadSize(offered, GetRemainingEntityBytes());
      ReceiveChunk(n);
      result := CompleteStep(true, n);
      ReadEntityRound(before);
      assert Here() == AnsweredAtOnce(before).w && result == Some(AnsweredAtOnce(before).result);
    }

    /** One pass through the reading loop: ReadEntityBody, and if it is answered at once its
        completion. */
    method ReadOnce() returns (result: Option<StepResult>)
      requires step.ReadBody? && Value().Remaining() > 0
      modifies this
      ensures ReadOn(old(Here()), Here(), result)
    {
      if !CanRead(Value()) {
        return None;
      }
      ghost var before := Here();
      var reply := oracle(calls);
      calls := calls + 1;
      match reply {
        case Failed =>
          trace := trace + [Broken];
          ReadEntityStops(before);
          return Some(FinishRequest);
        case Async =>
          io := io + 1;
          ReadEntityStops(before);
          return Some(AsyncPending);
        case Sync(offered) =>
          result := ReadAtOnce(offered, before);
      }
    }

    /** ReadBodyStep::Enter */
    method EnterReadBody() returns (result: Option<StepResult>)
      requires step.ReadBody?
      modifies this
      ensures var out := ReadEntity(old(Here()));
              Here() == out.w && result == if out.Outcome? then Some(out.result) else None
    {
      if GetRemainingEntityBytes() == 0 {
        return Some(GotoNext);
      }
      ghost var expected := ReadEntity(Here());
      var completionExpected := false;
      while !completionExpected
        invariant completionExpected ==> expected == Outcome(Here(), AsyncPending)
        invariant !completionExpected ==>
                    expected == ReadEntity(Here()) && step.ReadBody? && Value().Remaining() > 0
        decreases !completionExpected, Value().Remaining()
      {
        result := ReadOnce();
        completionExpected := result == Some(AsyncPending);
        if !completionExpected && result != Some(Rerun) {
          return;
        }
      }
      return Some(AsyncPending);
    }

    /** WriteResponseStep::Enter and FlushResponseStep::Enter, which differ in the IIS call. */
    method EnterCall(done: Event) returns (result: Option<StepResult>)
      requires (step.WriteResponse? || step.FlushResponse?) && !done.Sent?
      modifies this
      ensures var out := Call(old(Here()), done);
              Here() == out.w && result == if out.Outcome? then Some(out.result) else None
      ensures old(oracle(calls)).Failed? ==>
                result == Some(FinishRequest) && trace == old(trace) + [Broken] && outcomes == old(outcomes)
    {
      var completionExpected := false;
      while !completionExpected
        invariant completionExpected ==> Call(old(Here()), done) == Outcome(Here(), AsyncPending)
        invariant !completionExpected ==> Here() == old(Here())
        decreases !completionExpected
      {
        var reply := oracle(calls);
        calls := calls + 1;
        match reply {
          case Failed =>
            trace := trace + [Broken];
            return Some(FinishRequest);
          case Async =>
            trace := trace + [done];
            io := io + 1;
            completionExpected := true;
          case Sync(n) =>
            trace := trace + [done];
            result := CompleteStep(true, n);
            if result != Some(Rerun) {
              return;
            }
            assert false;
        }
      }
      return Some(AsyncPending);
    }

    method EnterStep() returns (result: Option<StepResult>)
      modifies this, pump`callbacks
      ensures var out := Enter(old(Here()));
              Here() == out.w && result == if out.Outcome? then Some(out.result) else None
    {
      match step {
        case ReadBody(_, _) =>
          result := EnterReadBody();
        case SendToApplication(_) =>
          sending := sending + 1;
          return Some(AsyncPending);
        case WaitForResponse(replyChannel, _) =>
          pump.AddChannel(replyChannel, id);
          trace := trace + [AwaitReply];
          return Some(AsyncPending);
        case WriteResponse(response, _) =>
          if response.None? {
            return None;
          }
          result := EnterCall(Wrote(response.value.content));
        case FlushResponse(_) =>
          result := EnterCall(Flushed);
      }
    }

    /** RequestHandler::HandlerStateMachine. The source's loop has no bound of its own; it ends
        because the rank of the step falls with every round. */
    method HandlerStateMachine(first: StepResult) returns (status: Status)
      modifies this, pump`callbacks
      ensures var d := Drive(old(Here()), first); Here() == d.w && status == d.status
    {
      var result := first;
      while true
        invariant Drive(Here(), result) == Drive(old(Here()), first)
        decreases Fuel(step, result)
      {
        match result {
          case AsyncPending =>
            return Pending;
          case FinishRequest =>
            return Finished;
          case Rerun =>
          case GotoNext =>
            var next := NextStep(step);
            if next.None? {
              return Crashed;
            }
            step := next.value;
        }
        var entered := EnterStep();
        if entered.None? {
          return Crashed;
        }
        result := entered.value;
      }
    }

    /** The rest of HttpRequestHandler::OnExecuteRequestHandler. */
    method Start() returns (status: Status)
      modifies this, pump`callbacks
      ensures var d := Continue(Enter(old(Here()))); Here() == d.w && status == d.status
    {
      var result := EnterStep();
      if result.None? {
        return Crashed;
      }
      status := HandlerStateMachine(result.value);
    }

    /** HttpRequestHandler::OnAsyncCompletion */
    method OnCompletion(ok: bool, bytes: nat) returns (status: Status)
      modifies this, pump`callbacks
      ensures var d := Complete(old(Here()), ok, bytes); Here() == d.w && status == d.status
    {
      var result := CompleteStep(ok, bytes);
      if result.None? {
        return Crashed;
      }
      status := HandlerStateMachine(result.value);
    }
  }
}
