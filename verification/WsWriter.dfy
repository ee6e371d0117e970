/** AsgiHandlerLib/WsWriter.cpp: one message at a time is taken from the pump and written to the
    socket, which may accept part of what it is offered, at once or through a callback. Every
    write offers the start of the message, so it is counts that are described here, and when the
    bytes on the wire are the message. */
module WsWriter {
  import opened AsgiMessages

  /** What the socket does with a write: it accepts some bytes now, or will do so later. */
  datatype Reply = Sync(numBytes: nat) | Async

  /** A write that was accepted has taken at least one byte and no more than it was offered;
      only the write of an empty message takes none. */
  function Accepted(offered: nat, n: nat): (a: nat)
    ensures a <= offered && (a == 0 <==> offered == 0)
  {
    if n > offered then offered else if n == 0 && offered > 0 then 1 else n
  }

  /** What happens between the pump, the writer and the socket. */
  datatype Event = Registered | Received(message: Bytes) | Wrote(bytes: Bytes)

  /** `callbacks` counts the registered callbacks that the pump has not used, `pending` holds the
      writes the socket has not completed, with what each was offered. */
  datatype Writer = Writer(
    message: Option<Bytes>, bytesWritten: nat, callbacks: nat, pending: seq<nat>, calls: nat, log: seq<Event>)

  // ----- The steps of the writer -----

  function Register(w: Writer): Writer {
    w.(callbacks := w.callbacks + 1, log := w.log + [Registered])
  }

  /** A write is under way and has not passed the end of the message. */
  predicate Writing(w: Writer) {
    w.message.Some? && w.bytesWritten <= |w.message.value|
  }

  function Left(w: Writer): nat
    requires Writing(w)
  {
    |w.message.value| - w.bytesWritten
  }

  /** The bytes of one write have been accepted: the new state, and whether there is more. */
  function Complete(w: Writer, numBytes: nat): (Writer, bool)
    requires w.message.Some? && numBytes <= |w.message.value|
  {
    var written := w.bytesWritten + numBytes;
    var after := w.(bytesWritten := written, log := w.log + [Wrote(w.message.value[..numBytes])]);
    if written >= |w.message.value| then
      (Register(after.(message := None, bytesWritten := 0)), false)
    else (after, true)
  }

  /** Writes until one has to be waited for or the message is done. */
  function Write(w: Writer, socket: nat -> Reply): Writer
    requires Writing(w)
    decreases Left(w)
  {
    var reply := socket(w.calls);
    var called := w.(calls := w.calls + 1);
    if reply.Async? then called.(pending := called.pending + [Left(w)])
    else
      var (after, more) := Complete(called, Accepted(Left(w), reply.numBytes));
      if more then Write(after, socket) else after
  }

  /** What comes from outside: a message through the callback, or the completion of a write. */
  datatype Input = Message(bytes: Bytes) | Completion(numBytes: nat)

  predicate Enabled(w: Writer, input: Input) {
    match input
    case Message(_) => w.callbacks > 0
    case Completion(_) => w.pending != [] && w.message.Some? && w.pending[0] <= |w.message.value|
  }

  function Step(w: Writer, input: Input, socket: nat -> Reply): Writer
    requires Enabled(w, input)
  {
    match input
    case Message(bytes) =>
      var received := w.(callbacks := w.callbacks - 1, message := Some(bytes), log := w.log + [Received(bytes)]);
      if Writing(received) then Write(received, socket) else received
    case Completion(n) =>
      var (after, more) := Complete(w.(pending := w.pending[1..]), Accepted(w.pending[0], n));
      if more && Writing(after) then Write(after, socket) else after
  }

  /** Start, then inputs as they come; an input that cannot happen is skipped. */
  function Run(inputs: seq<Input>, socket: nat -> Reply): Writer {
    if inputs == [] then Register(Writer(None, 0, 0, [], 0, []))
    else
      var w := Run(inputs[..|inputs| - 1], socket);
      var input := inputs[|inputs| - 1];
      if Enabled(w, input) then Step(w, input, socket) else w
  }

  // ----- Accounts -----

  function Sum(log: seq<Event>): nat {
    if log == [] then 0
    else Sum(log[..|log| - 1]) + (if log[|log| - 1].Wrote? then |log[|log| - 1].bytes| else 0)
  }

  /** A message from its registration to its last byte. */
  predicate IsEpisode(log: seq<Event>) {
    && |log| >= 3 && log[0].Registered? && log[1].Received?
    && (forall i | 2 <= i < |log| ::
          log[i].Wrote? && log[i].bytes <= log[1].message && (log[i].bytes != "" || |log| == 3))
    && Sum(log[2..]) == |log[1].message|
  }

  /** The log is a list of complete episodes followed by the last one, `open`. */
  ghost predicate IsAccount(log: seq<Event>, episodes: seq<seq<Event>>, open: seq<Event>) {
    && log == Join(episodes) + open
    && forall i | 0 <= i < |episodes| :: IsEpisode(episodes[i])
  }

  function Join(episodes: seq<seq<Event>>): seq<Event> {
    if episodes == [] then [] else Join(episodes[..|episodes| - 1]) + episodes[|episodes| - 1]
  }

  /** An episode under way: no message yet, or `left` bytes of it not yet accepted. */
  predicate IsOpen(open: seq<Event>, message: Option<Bytes>, bytesWritten: nat) {
    && open != [] && open[0].Registered?
    && (if message.None? then |open| == 1
        else
          && |open| >= 2 && open[1] == Received(message.value)
          && (forall i | 2 <= i < |open| ::
                open[i].Wrote? && open[i].bytes <= message.value && open[i].bytes != "")
          && Sum(open[2..]) == bytesWritten)
  }

  /** One thing is outstanding: a callback when there is no message, a write that was offered
      exactly what is left of the message when there is one. */
  predicate OneOutstanding(w: Writer) {
    if w.message.None? then w.callbacks == 1 && w.pending == [] && w.bytesWritten == 0
    else w.callbacks == 0 && Writing(w) && w.pending == [Left(w)] && (Left(w) > 0 || w.message.value == "")
  }

  ghost predicate HasAccount(log: seq<Event>, message: Option<Bytes>, bytesWritten: nat) {
    exists episodes, open :: IsAccount(log, episodes, open) && IsOpen(open, message, bytesWritten)
  }

  ghost predicate Accounted(w: Writer) {
    HasAccount(w.log, w.message, w.bytesWritten)
  }

  lemma SumSnoc(log: seq<Event>, e: Event)
    ensures Sum(log + [e]) == Sum(log) + (if e.Wrote? then |e.bytes| else 0)
  {
    assert (log + [e])[..|log|] == log;
  }

  lemma JoinSnoc(episodes: seq<seq<Event>>, e: seq<Event>)
    ensures Join(episodes + [e]) == Join(episodes) + e
  {
    assert (episodes + [e])[..|episodes|] == episodes;
  }

  /** Before a write: a message, nothing outstanding. */
  predicate Ready(w: Writer) {
    Writing(w) && w.callbacks == 0 && w.pending == [] && (Left(w) > 0 || w.message.value == "")
  }

  lemma OpenEpisode(log: seq<Event>, m: Bytes, bytesWritten: nat)
    requires HasAccount(log, None, bytesWritten)
    ensures HasAccount(log + [Received(m)], Some(m), 0)
  {
    var episodes, open :| IsAccount(log, episodes, open) && IsOpen(open, None, bytesWritten);
    var next := open + [Received(m)];
    assert next[2..] == [];
    assert log + [Received(m)] == Join(episodes) + next;
    assert IsAccount(log + [Received(m)], episodes, next) && IsOpen(next, Some(m), 0);
  }

  lemma ExtendEpisode(log: seq<Event>, m: Bytes, bytesWritten: nat, piece: Bytes)
    requires HasAccount(log, Some(m), bytesWritten) && piece <= m && piece != ""
    ensures HasAccount(log + [Wrote(piece)], Some(m), bytesWritten + |piece|)
  {
    var episodes, open :| IsAccount(log, episodes, open) && IsOpen(open, Some(m), bytesWritten);
    var next := open + [Wrote(piece)];
    assert next[2..] == open[2..] + [Wrote(piece)];
    SumSnoc(open[2..], Wrote(piece));
    assert log + [Wrote(piece)] == Join(episodes) + next;
    assert IsAccount(log + [Wrote(piece)], episodes, next) && IsOpen(next, Some(m), bytesWritten + |piece|);
  }

  lemma LastPiece(open: seq<Event>, m: Bytes, bytesWritten: nat, piece: Bytes)
    requires IsOpen(open, Some(m), bytesWritten) && piece <= m
    requires bytesWritten + |piece| == |m| && (piece != "" || m == "")
    ensures IsEpisode(open + [Wrote(piece)])
  {
    assert (open + [Wrote(piece)])[2..] == open[2..] + [Wrote(piece)];
    SumSnoc(open[2..], Wrote(piece));
  }

  lemma CloseEpisode(log: seq<Event>, m: Bytes, bytesWritten: nat, piece: Bytes)
    requires HasAccount(log, Some(m), bytesWritten) && piece <= m
    requires bytesWritten + |piece| == |m| && (piece != "" || m == "")
    ensures HasAccount(log + [Wrote(piece)] + [Registered], None, 0)
  {
    var episodes, open :| IsAccount(log, episodes, open) && IsOpen(open, Some(m), bytesWritten);
    var next := open + [Wrote(piece)];
    LastPiece(open, m, bytesWritten, piece);
    JoinSnoc(episodes, next);
    var all := log + [Wrote(piece)] + [Registered];
    assert all == Join(episodes) + next + [Registered];
    assert IsAccount(all, episodes + [next], [Registered]) && IsOpen([Registered], None, 0);
  }

  lemma MoreKeeps(w: Writer, n: nat)
    requires Ready(w) && Accounted(w) && 0 < n < Left(w)
    ensures var (after, more) := Complete(w, n);
            more && Accounted(after) && Ready(after) && Left(after) == Left(w) - n
  {
    ExtendEpisode(w.log, w.message.value, w.bytesWritten, w.message.value[..n]);
  }

  lemma LastKeeps(w: Writer, n: nat)
    requires Ready(w) && Accounted(w) && n == Left(w)
    ensures var (after, more) := Complete(w, n);
            !more && Accounted(after) && OneOutstanding(after)
  {
    CloseEpisode(w.log, w.message.value, w.bytesWritten, w.message.value[..n]);
  }

  lemma {:induction false} WriteKeeps(w: Writer, socket: nat -> Reply)
    requires Ready(w) && Accounted(w)
    ensures var after := Write(w, socket);
            OneOutstanding(after) && Accounted(after) && after.calls > w.calls
    decreases Left(w)
  {
    var reply := socket(w.calls);
    var called := w.(calls := w.calls + 1);
    if reply.Async? {
    } else {
      var n := Accepted(Left(w), reply.numBytes);
      if n < Left(w) {
        MoreKeeps(called, n);
        WriteKeeps(Complete(called, n).0, socket);
      } else {
        LastKeeps(called, n);
      }
    }
  }

  lemma MessageKeeps(w: Writer, bytes: Bytes, socket: nat -> Reply)
    requires OneOutstanding(w) && Accounted(w) && Enabled(w, Message(bytes))
    ensures OneOutstanding(Step(w, Message(bytes), socket)) && Accounted(Step(w, Message(bytes), socket))
  {
    var received := w.(callbacks := w.callbacks - 1, message := Some(bytes), log := w.log + [Received(bytes)]);
    OpenEpisode(w.log, bytes, w.bytesWritten);
    WriteKeeps(received, socket);
  }

  lemma CompletionKeeps(w: Writer, n: nat, socket: nat -> Reply)
    requires OneOutstanding(w) && Accounted(w) && Enabled(w, Completion(n))
    ensures OneOutstanding(Step(w, Completion(n), socket)) && Accounted(Step(w, Completion(n), socket))
  {
    var idle := w.(pending := w.pending[1..]);
    var a := Accepted(Left(w), n);
    if a < Left(w) {
      MoreKeeps(idle, a);
      WriteKeeps(Complete(idle, a).0, socket);
    } else {
      LastKeeps(idle, a);
    }
  }

  /** In every run exactly one callback or one write is outstanding, so two messages are never
      being written at once and an offered write never passes the end of its message; and the log
      is a list of episodes, each a registration, a message and writes that add up to exactly its
      length, followed by the episode under way. */
  lemma {:induction false} WritesAccounted(inputs: seq<Input>, socket: nat -> Reply)
    ensures OneOutstanding(Run(inputs, socket)) && Accounted(Run(inputs, socket))
  {
    if inputs == [] {
      var w := Run([], socket);
      assert w.log == Join([]) + [Registered];
      assert IsAccount(w.log, [], [Registered]) && IsOpen([Registered], w.message, w.bytesWritten);
    } else {
      WritesAccounted(inputs[..|inputs| - 1], socket);
      var w := Run(inputs[..|inputs| - 1], socket);
      match inputs[|inputs| - 1]
      case Message(bytes) => if w.callbacks > 0 { MessageKeeps(w, bytes, socket); }
      case Completion(n) => if Enabled(w, Completion(n)) { CompletionKeeps(w, n, socket); }
    }
  }

  // ----- On the wire -----

  /** The bytes the socket took, in order. */
  function OnWire(log: seq<Event>): Bytes {
    if log == [] then ""
    else OnWire(log[..|log| - 1]) + (if log[|log| - 1].Wrote? then log[|log| - 1].bytes else "")
  }

  /** In every run, whatever the socket accepts at a time, `m` reaches the wire as it is. */
  ghost predicate Faithful(m: Bytes) {
    forall inputs, socket, episodes: seq<seq<Event>>, open |
      IsAccount(Run(inputs, socket).log, episodes, open)
      && IsOpen(open, Run(inputs, socket).message, Run(inputs, socket).bytesWritten) ::
      forall i | 0 <= i < |episodes| :: episodes[i][1].message == m ==> OnWire(episodes[i][2..]) == m
  }

  predicate Uniform(s: Bytes, c: char) {
    forall i | 0 <= i < |s| :: s[i] == c
  }

  lemma {:induction false} UniformOnWire(log: seq<Event>, c: char)
    requires forall i | 0 <= i < |log| :: log[i].Wrote? ==> Uniform(log[i].bytes, c)
    ensures Uniform(OnWire(log), c) && |OnWire(log)| == Sum(log)
  {
    if log != [] {
      UniformOnWire(log[..|log| - 1], c);
    }
  }

  lemma UniformEpisode(log: seq<Event>, c: char)
    requires IsEpisode(log) && Uniform(log[1].message, c)
    ensures OnWire(log[2..]) == log[1].message
  {
    UniformOnWire(log[2..], c);
  }

  const BYTE_BY_BYTE: nat -> Reply := _ => Sync(1)

  function Repeated(n: nat, e: Event): seq<Event> {
    seq(n, _ => e)
  }

  lemma {:induction false} SumRepeated(n: nat, e: Event)
    requires e.Wrote? && |e.bytes| == 1
    ensures Sum(Repeated(n, e)) == n
  {
    if n > 0 {
      assert Repeated(n, e)[..n - 1] == Repeated(n - 1, e);
      SumRepeated(n - 1, e);
    }
  }

  /** A socket that takes one byte at a time takes the first one again and again. */
  lemma {:induction false} FirstByteRepeated(w: Writer)
    requires Ready(w) && w.message.value != ""
    ensures var first := Wrote(w.message.value[..1]);
            var after := Write(w, BYTE_BY_BYTE);
            after.log == w.log + Repeated(Left(w), first) + [Registered] && after.message == None
    decreases Left(w)
  {
    var first := Wrote(w.message.value[..1]);
    var (after, more) := Complete(w.(calls := w.calls + 1), 1);
    assert Accepted(Left(w), 1) == 1;
    if more {
      FirstByteRepeated(after);
      assert [first] + Repeated(Left(after), first) == Repeated(Left(w), first);
    } else {
      assert Repeated(Left(w), first) == [first];
    }
  }

  /** A message reaches the wire as it is in every run, exactly when all its bytes are equal:
      every write starts again at the start of the message. */
  lemma FaithfulExactly(m: Bytes)
    ensures Faithful(m) <==> exists c :: Uniform(m, c)
  {
    if c :| Uniform(m, c) {
      forall inputs, socket, episodes: seq<seq<Event>>, open, i |
        IsAccount(Run(inputs, socket).log, episodes, open)
        && IsOpen(open, Run(inputs, socket).message, Run(inputs, socket).bytesWritten)
        && 0 <= i < |episodes| && episodes[i][1].message == m
        ensures OnWire(episodes[i][2..]) == m
      {
        UniformEpisode(episodes[i], c);
      }
    }
    if Faithful(m) && m != "" {
      FirstByteOnly(m);
      assert Uniform(m, m[0]);
    } else if m == "" {
      assert Uniform(m, 'a');
    }
  }

  lemma FirstByteOnly(m: Bytes)
    requires Faithful(m) && m != ""
    ensures Uniform(m, m[0])
  {
    var inputs := [Message(m)];
    var first := Wrote(m[..1]);
    var episode := [Registered, Received(m)] + Repeated(|m|, first);
    FirstByteRun(m);
    var w := Run(inputs, BYTE_BY_BYTE);
    FirstByteEpisode(m);
    JoinSnoc([], episode);
    assert IsAccount(w.log, [episode], [Registered]) && IsOpen([Registered], w.message, w.bytesWritten);
    assert [episode][0][1].message == m && OnWire([episode][0][2..]) == m;
    UniformOnWire(episode[2..], m[0]);
  }

  lemma FirstByteEpisode(m: Bytes)
    requires m != ""
    ensures IsEpisode([Registered, Received(m)] + Repeated(|m|, Wrote(m[..1])))
  {
    var first := Wrote(m[..1]);
    assert ([Registered, Received(m)] + Repeated(|m|, first))[2..] == Repeated(|m|, first);
    SumRepeated(|m|, first);
  }

  lemma FirstByteRun(m: Bytes)
    requires m != ""
    ensures var w := Run([Message(m)], BYTE_BY_BYTE);
            && w.message == None
            && w.log == [Registered, Received(m)] + Repeated(|m|, Wrote(m[..1])) + [Registered]
  {
    var inputs := [Message(m)];
    assert inputs[..0] == [];
    var start := Run([], BYTE_BY_BYTE);
    assert start.log == [Registered];
    assert start.log + [Received(m)] == [Registered, Received(m)];
    FirstByteRepeated(Writer(Some(m), 0, 0, [], 0, [Registered, Received(m)]));
  }

  // ----- The writer -----

  class WsWriter {
    const socket: nat -> Reply
    var message: Option<Bytes>
    var bytesWritten: nat
    var callbacks: nat
    var pending: seq<nat>
    var calls: nat
    var log: seq<Event>

    ghost function State(): Writer
      reads this
    {
      Writer(message, bytesWritten, callbacks, pending, calls, log)
    }

    constructor (socket: nat -> Reply)
      ensures this.socket == socket && State() == Run([], socket)
    {
      this.socket := socket;
      message, bytesWritten, callbacks, pending, calls, log := None, 0, 0, [], 0, [];
      new;
      RegisterChannelsCallback();
    }

    method RegisterChannelsCallback()
      modifies this
      ensures State() == Register(old(State()))
    {
      callbacks := callbacks + 1;
      log := log + [Registered];
    }

    /** IWebSocketContext::WriteFragment, which is offered `offered` bytes from the start. */
    method WriteFragment(offered: nat) returns (numBytes: nat, completionExpected: bool)
      modifies `calls, `pending
      ensures calls == old(calls) + 1 && completionExpected == socket(old(calls)).Async?
      ensures if completionExpected then pending == old(pending) + [offered]
              else pending == old(pending) && numBytes == Accepted(offered, socket(old(calls)).numBytes)
    {
      var reply := socket(calls);
      calls := calls + 1;
      match reply
      case Async =>
        pending := pending + [offered];
        return 0, true;
      case Sync(n) =>
        return Accepted(offered, n), false;
    }

    method WriteAsync()
      requires Writing(State())
      modifies this
      ensures State() == Write(old(State()), socket)
    {
      var completionExpected := false;
      while !completionExpected
        invariant if completionExpected then State() == Write(old(State()), socket)
                  else Writing(State()) && Write(State(), socket) == Write(old(State()), socket)
        decreases !completionExpected, if Writing(State()) then Left(State()) else 0
      {
        var numBytes;
        numBytes, completionExpected := WriteFragment(|message.value| - bytesWritten);
        if !completionExpected {
          var moreToWrite := WriteAsyncComplete(numBytes);
          if !moreToWrite {
            return;
          }
        }
      }
    }

    /** Whether there is more of the message to write. */
    method WriteAsyncComplete(numBytes: nat) returns (more: bool)
      requires message.Some? && numBytes <= |message.value|
      modifies this
      ensures (State(), more) == Complete(old(State()), numBytes)
    {
      log := log + [Wrote(message.value[..numBytes])];
      bytesWritten := bytesWritten + numBytes;
      if bytesWritten >= |message.value| {
        message := None;
        bytesWritten := 0;
        RegisterChannelsCallback();
        return false;
      }
      return true;
    }

    /** The callback registered with the pump. */
    method OnMessage(bytes: Bytes)
      requires OneOutstanding(State()) && Enabled(State(), Message(bytes))
      modifies this
      ensures State() == Step(old(State()), Message(bytes), socket)
    {
      callbacks := callbacks - 1;
      log := log + [Received(bytes)];
      message := Some(bytes);
      WriteAsync();
    }

    /** The socket has accepted bytes of the write it was left with. */
    method WriteCallback(numBytes: nat)
      requires OneOutstanding(State()) && Enabled(State(), Completion(numBytes))
      modifies this
      ensures State() == Step(old(State()), Completion(numBytes), socket)
    {
      var accepted := Accepted(pending[0], numBytes);
      pending := pending[1..];
      var more := WriteAsyncComplete(accepted);
      if more {
        WriteAsync();
      }
    }
  }

  /** A connection: the inputs that can happen are handled in order. */
  method Connection(inputs: seq<Input>, socket: nat -> Reply) returns (log: seq<Event>)
    ensures log == Run(inputs, socket).log
  {
    var writer := new WsWriter(socket);
    var i := 0;
    while i < |inputs|
      invariant i <= |inputs| && writer.socket == socket
      invariant writer.State() == Run(inputs[..i], socket)
    {
      assert inputs[..i + 1][..i] == inputs[..i];
      WritesAccounted(inputs[..i], socket);
      match inputs[i] {
        case Message(bytes) =>
          if writer.callbacks > 0 {
            writer.OnMessage(bytes);
          }
        case Completion(n) =>
          if writer.pending != [] && writer.message.Some? {
            writer.WriteCallback(n);
          }
      }
      i := i + 1;
    }
    assert inputs[..i] == inputs;
    log := writer.log;
  }
}
