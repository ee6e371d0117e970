/** AsgiHandlerLib/WsReader.cpp: fragments of WebSocket messages are read, some at once and some
    through a callback, and each final fragment sends a websocket.receive message. Every fragment
    is read into the start of the buffer, so it is lengths and orders that are described here, not
    contents. */
module WsReader {

  const BUFFER_CHUNK_SIZE: nat := 4096
  const BUFFER_CHUNK_INCREASE_THRESHOLD: nat := BUFFER_CHUNK_SIZE / 4

  datatype Fragment = Fragment(numBytes: nat, finalFragment: bool)

  /** A websocket.receive message as it was sent, and the size its buffer had. */
  datatype Receive = Receive(order: int, dataSize: nat, bufferSize: nat)

  datatype Reader = Reader(order: int, dataSize: nat, bufferSize: nat, sent: seq<Receive>)

  const INITIAL := Reader(1, 0, BUFFER_CHUNK_SIZE, [])

  // ----- The 32-bit counter -----

  const MAX_INT: int := 0x7FFF_FFFF
  const MIN_INT: int := -0x8000_0000

  /** `order += 1` on an int, which wraps around. */
  function Incremented(order: int): int {
    if order == MAX_INT then MIN_INT else order + 1
  }

  /** What a 32-bit counter shows for `n`. */
  function AsInt32(n: int): (shown: int)
    ensures MIN_INT <= shown <= MAX_INT
    ensures MIN_INT <= n <= MAX_INT ==> shown == n
  {
    (n - MIN_INT) % 0x1_0000_0000 + MIN_INT
  }

  lemma CountsOn(n: int)
    ensures AsInt32(n + 1) == Incremented(AsInt32(n))
  {
  }

  // ----- What the reader makes of fragments -----

  /** One fragment: ReadAsyncComplete. */
  function Take(r: Reader, f: Fragment): Reader {
    var dataSize := r.dataSize + f.numBytes;
    if f.finalFragment then
      Reader(Incremented(r.order), 0, BUFFER_CHUNK_SIZE, r.sent + [Receive(r.order, dataSize, r.bufferSize)])
    else if dataSize >= r.bufferSize - BUFFER_CHUNK_INCREASE_THRESHOLD then
      Reader(r.order, dataSize, r.bufferSize + BUFFER_CHUNK_SIZE, r.sent)
    else
      Reader(r.order, dataSize, r.bufferSize, r.sent)
  }

  function Absorb(r: Reader, fs: seq<Fragment>): Reader {
    if fs == [] then r else Take(Absorb(r, fs[..|fs| - 1]), fs[|fs| - 1])
  }

  lemma {:induction false} AbsorbConcat(r: Reader, a: seq<Fragment>, b: seq<Fragment>)
    ensures Absorb(r, a + b) == Absorb(Absorb(r, a), b)
  {
    if b == [] {
      assert a + b == a;
    } else {
      assert (a + b)[..|a + b| - 1] == a + b[..|b| - 1];
      AbsorbConcat(r, a, b[..|b| - 1]);
    }
  }

  // ----- The messages a sequence of fragments is made of -----

  /** The complete messages: each runs up to and including a final fragment. */
  function Messages(fs: seq<Fragment>): seq<seq<Fragment>> {
    if fs == [] then []
    else
      var (before, last) := (fs[..|fs| - 1], fs[|fs| - 1]);
      if last.finalFragment then Messages(before) + [Rest(before) + [last]] else Messages(before)
  }

  /** The fragments after the last final one. */
  function Rest(fs: seq<Fragment>): seq<Fragment> {
    if fs == [] || fs[|fs| - 1].finalFragment then [] else Rest(fs[..|fs| - 1]) + [fs[|fs| - 1]]
  }

  function Flatten(ms: seq<seq<Fragment>>): seq<Fragment> {
    if ms == [] then [] else Flatten(ms[..|ms| - 1]) + ms[|ms| - 1]
  }

  function Length(fs: seq<Fragment>): nat {
    if fs == [] then 0 else Length(fs[..|fs| - 1]) + fs[|fs| - 1].numBytes
  }

  /** Only its last fragment is final. */
  predicate IsMessage(fs: seq<Fragment>) {
    fs != [] && forall i | 0 <= i < |fs| :: fs[i].finalFragment <==> i == |fs| - 1
  }

  /** The messages and the rest are the fragments, in order, cut after each final one. */
  predicate Partitions(ms: seq<seq<Fragment>>, rest: seq<Fragment>, fs: seq<Fragment>) {
    && Flatten(ms) + rest == fs
    && (forall i | 0 <= i < |ms| :: IsMessage(ms[i]))
    && (forall i | 0 <= i < |rest| :: !rest[i].finalFragment)
  }

  lemma PartitionsFragment(ms: seq<seq<Fragment>>, rest: seq<Fragment>, fs: seq<Fragment>, f: Fragment)
    requires Partitions(ms, rest, fs)
    ensures !f.finalFragment ==> Partitions(ms, rest + [f], fs + [f])
    ensures f.finalFragment ==> Partitions(ms + [rest + [f]], [], fs + [f])
  {
    assert Flatten(ms) + (rest + [f]) == fs + [f];
    assert (ms + [rest + [f]])[..|ms|] == ms;
  }

  lemma {:induction false} MessagesPartition(fs: seq<Fragment>)
    ensures Partitions(Messages(fs), Rest(fs), fs)
  {
    if fs != [] {
      var (before, last) := (fs[..|fs| - 1], fs[|fs| - 1]);
      MessagesPartition(before);
      assert fs == before + [last];
      PartitionsFragment(Messages(before), Rest(before), before, last);
    }
  }

  // ----- Numbering and sizes -----

  /** The n-th receive message has order n, counted from 1 since connect has order 0, as far as 32
      bits can show it, and its data_size is the length of the n-th message; what is held back is
      the length of the rest. */
  predicate Describes(r: Reader, ms: seq<seq<Fragment>>, rest: seq<Fragment>) {
    && r.order == AsInt32(|ms| + 1) && |r.sent| == |ms| && r.dataSize == Length(rest)
    && forall n | 0 <= n < |ms| :: r.sent[n].order == AsInt32(n + 1) && r.sent[n].dataSize == Length(ms[n])
  }

  lemma DescribesFragment(r: Reader, ms: seq<seq<Fragment>>, rest: seq<Fragment>, f: Fragment)
    requires Describes(r, ms, rest)
    ensures !f.finalFragment ==> Describes(Take(r, f), ms, rest + [f])
    ensures f.finalFragment ==> Describes(Take(r, f), ms + [rest + [f]], [])
  {
    assert (rest + [f])[..|rest|] == rest;
    CountsOn(|ms| + 1);
  }

  lemma {:induction false} ReceiveNumbering(fs: seq<Fragment>)
    ensures Describes(Absorb(INITIAL, fs), Messages(fs), Rest(fs))
  {
    if fs != [] {
      var (before, last) := (fs[..|fs| - 1], fs[|fs| - 1]);
      ReceiveNumbering(before);
      DescribesFragment(Absorb(INITIAL, before), Messages(before), Rest(before), last);
    }
  }

  predicate IsBufferSize(n: nat) {
    n > 0 && n % 4096 == 0
  }

  /** The buffer always is a positive number of chunks, also when it is sent. */
  lemma {:induction false} BufferSizes(fs: seq<Fragment>)
    ensures var r := Absorb(INITIAL, fs);
            IsBufferSize(r.bufferSize) && forall n | 0 <= n < |r.sent| :: IsBufferSize(r.sent[n].bufferSize)
  {
    if fs != [] {
      BufferSizes(fs[..|fs| - 1]);
    }
  }

  /** Each fragment makes the buffer one chunk larger, or leaves it as it is, by what the message under
      way adds up to; a message is sent with the buffer its last fragment found. */
  lemma GrowsByAChunk(fs: seq<Fragment>, f: Fragment)
    ensures var r, r' := Absorb(INITIAL, fs), Absorb(INITIAL, fs + [f]);
            && r'.bufferSize == (if f.finalFragment then 4096
                                 else if Length(Rest(fs + [f])) + 1024 >= r.bufferSize then r.bufferSize + 4096
                                 else r.bufferSize)
            && (f.finalFragment ==> r'.sent != [] && r'.sent[|r'.sent| - 1].bufferSize == r.bufferSize)
  {
    assert (fs + [f])[..|fs|] == fs;
    ReceiveNumbering(fs + [f]);
  }

  /** As long as no fragment is longer than a chunk, the buffer is the smallest number of chunks that
      leaves more than 1024 bytes free. */
  lemma {:induction false} SmallestBuffer(fs: seq<Fragment>)
    requires forall i | 0 <= i < |fs| :: fs[i].numBytes <= 4096
    ensures var (size, used) := (Absorb(INITIAL, fs).bufferSize, Length(Rest(fs)));
            && size % 4096 == 0 && used + 1024 < size
            && forall n: nat | n % 4096 == 0 && used + 1024 < n :: size <= n
  {
    ReceiveNumbering(fs);
    BufferSizes(fs);
    OneChunkTooFew(fs);
  }

  lemma {:induction false} OneChunkTooFew(fs: seq<Fragment>)
    requires forall i | 0 <= i < |fs| :: fs[i].numBytes <= 4096
    ensures var r := Absorb(INITIAL, fs); r.dataSize + 1024 < r.bufferSize <= r.dataSize + 1024 + 4096
  {
    if fs != [] {
      OneChunkTooFew(fs[..|fs| - 1]);
    }
  }

  // ----- When the message fits the buffer -----

  predicate AllFit(r: Reader) {
    r.dataSize <= r.bufferSize && forall n | 0 <= n < |r.sent| :: r.sent[n].dataSize <= r.sent[n].bufferSize
  }

  /** Each fragment is no longer than the part of the buffer not yet used when it arrives. */
  predicate FragmentsFit(fs: seq<Fragment>) {
    forall i | 0 <= i < |fs| ::
      var r := Absorb(INITIAL, fs[..i]);
      r.dataSize + fs[i].numBytes <= r.bufferSize
  }

  lemma {:induction false} FittingFragments(fs: seq<Fragment>)
    requires FragmentsFit(fs)
    ensures AllFit(Absorb(INITIAL, fs))
  {
    if fs != [] {
      var before := fs[..|fs| - 1];
      forall i | 0 <= i < |before|
        ensures before[..i] == fs[..i]
      {
      }
      FittingFragments(before);
      assert Absorb(INITIAL, fs[..|before|]).dataSize + fs[|before|].numBytes
          <= Absorb(INITIAL, fs[..|before|]).bufferSize;
    }
  }

  predicate NoLongerThan(fs: seq<Fragment>, bound: nat) {
    forall i | 0 <= i < |fs| :: fs[i].numBytes <= bound
  }

  /** Between fragments more than the threshold is free. */
  lemma {:induction false} ShortFragments(fs: seq<Fragment>)
    requires NoLongerThan(fs, BUFFER_CHUNK_INCREASE_THRESHOLD + 1)
    ensures var r := Absorb(INITIAL, fs);
            AllFit(r) && r.bufferSize - r.dataSize > BUFFER_CHUNK_INCREASE_THRESHOLD
  {
    if fs != [] {
      ShortFragments(fs[..|fs| - 1]);
    }
  }

  /** Four fragments, the last one too long for what is free. */
  const OVERLONG := [Fragment(1026, false), Fragment(1026, false), Fragment(1019, false), Fragment(1026, true)]

  lemma OverlongMessage()
    ensures NoLongerThan(OVERLONG, BUFFER_CHUNK_INCREASE_THRESHOLD + 2)
    ensures Absorb(INITIAL, OVERLONG).sent == [Receive(1, 4097, 4096)]
  {
    var fs := OVERLONG;
    assert fs[..3][..2][..1][..0] == [];
    assert Absorb(INITIAL, fs[..3][..2][..1]) == Take(INITIAL, fs[0]);
    assert Absorb(INITIAL, fs[..3][..2]) == Take(Take(INITIAL, fs[0]), fs[1]);
    assert Absorb(INITIAL, fs[..3]) == Take(Take(Take(INITIAL, fs[0]), fs[1]), fs[2]);
    assert Absorb(INITIAL, fs) == Take(Take(Take(Take(INITIAL, fs[0]), fs[1]), fs[2]), fs[3]);
  }

  /** data_size is within the buffer in every run whose fragments have at most `bound` bytes,
      exactly when the bound is at most one byte more than the threshold; the socket is offered
      the whole buffer, which is more than that. */
  lemma FragmentBoundIsExact(bound: nat)
    ensures (forall fs :: NoLongerThan(fs, bound) ==> AllFit(Absorb(INITIAL, fs)))
       <==> bound <= 1025
    ensures 1025 < BUFFER_CHUNK_SIZE
  {
    if bound <= BUFFER_CHUNK_INCREASE_THRESHOLD + 1 {
      forall fs | NoLongerThan(fs, bound)
        ensures AllFit(Absorb(INITIAL, fs))
      {
        ShortFragments(fs);
      }
    } else {
      OverlongMessage();
      assert NoLongerThan(OVERLONG, bound);
      assert Absorb(INITIAL, OVERLONG).sent[0].dataSize == 4097;
    }
  }

  // ----- The reader -----

  /** `ready` holds the fragments the socket will hand over at once; the fragment after them
      arrives through ReadCallback. */
  class WsReader {
    var order: int
    var dataSize: nat
    var bufferSize: nat
    var sent: seq<Receive>
    var ready: seq<Fragment>

    ghost predicate Valid()
      reads this
    {
      bufferSize >= BUFFER_CHUNK_SIZE
    }

    ghost function State(): Reader
      reads this
    {
      Reader(order, dataSize, bufferSize, sent)
    }

    constructor (ready: seq<Fragment>)
      ensures Valid() && State() == INITIAL && this.ready == ready
    {
      order, dataSize, bufferSize, sent := 1, 0, BUFFER_CHUNK_SIZE, [];
      this.ready := ready;
    }

    /** IWebSocketContext::ReadFragment */
    method ReadFragment() returns (f: Fragment, completionExpected: bool)
      modifies `ready
      ensures completionExpected <==> old(ready) == []
      ensures completionExpected ==> ready == []
      ensures !completionExpected ==> [f] + ready == old(ready)
    {
      if ready == [] {
        return Fragment(0, false), true;
      }
      f, completionExpected := ready[0], false;
      ready := ready[1..];
    }

    /** Every fragment at hand is taken, in order. */
    method ReadAsync()
      requires Valid()
      modifies this
      ensures Valid() && ready == []
      ensures State() == Absorb(old(State()), old(ready))
    {
      ghost var taken: seq<Fragment> := [];
      var completionExpected := false;
      while !completionExpected
        invariant Valid() && taken + ready == old(ready)
        invariant completionExpected ==> ready == []
        invariant State() == Absorb(old(State()), taken)
        decreases !completionExpected, |ready|
      {
        var f;
        f, completionExpected := ReadFragment();
        if !completionExpected {
          ReadAsyncComplete(f);
          taken := taken + [f];
        }
      }
      assert taken == old(ready);
    }

    method ReadAsyncComplete(f: Fragment)
      requires Valid()
      modifies `order, `dataSize, `bufferSize, `sent
      ensures Valid()
      ensures State() == Take(old(State()), f)
    {
      dataSize := dataSize + f.numBytes;
      if f.finalFragment {
        SendToApplication();
      } else {
        if dataSize >= bufferSize - BUFFER_CHUNK_INCREASE_THRESHOLD {
          bufferSize := bufferSize + BUFFER_CHUNK_SIZE;
        }
      }
    }

    method SendToApplication()
      modifies `order, `dataSize, `bufferSize, `sent
      ensures sent == old(sent) + [Receive(old(order), old(dataSize), old(bufferSize))]
      ensures order == Incremented(old(order)) && dataSize == 0 && bufferSize == BUFFER_CHUNK_SIZE
    {
      sent := sent + [Receive(order, dataSize, bufferSize)];
      bufferSize := BUFFER_CHUNK_SIZE;
      dataSize := 0;
      order := Incremented(order);
    }

    /** The awaited fragment has come; `available` are the ones that can be read at once after it. */
    method ReadCallback(f: Fragment, available: seq<Fragment>)
      requires Valid() && ready == []
      modifies this
      ensures Valid() && ready == []
      ensures State() == Absorb(old(State()), [f] + available)
    {
      ReadAsyncComplete(f);
      ready := available;
      AbsorbConcat(old(State()), [f], available);
      assert [f][..0] == [];
      ReadAsync();
    }
  }

  /** One fragment through the callback and the ones then read at once. */
  datatype Arrival = Arrival(first: Fragment, available: seq<Fragment>)

  function Fragments(arrivals: seq<Arrival>): seq<Fragment> {
    if arrivals == [] then []
    else Fragments(arrivals[..|arrivals| - 1]) + [arrivals[|arrivals| - 1].first] + arrivals[|arrivals| - 1].available
  }

  lemma AbsorbArrival(atStart: seq<Fragment>, arrivals: seq<Arrival>, i: nat)
    requires i < |arrivals|
    ensures Absorb(INITIAL, atStart + Fragments(arrivals[..i + 1])) ==
            Absorb(Absorb(INITIAL, atStart + Fragments(arrivals[..i])), [arrivals[i].first] + arrivals[i].available)
  {
    var (so, more) := (atStart + Fragments(arrivals[..i]), [arrivals[i].first] + arrivals[i].available);
    AbsorbConcat(INITIAL, so, more);
    assert arrivals[..i + 1][..i] == arrivals[..i];
    assert atStart + Fragments(arrivals[..i + 1]) == so + more;
  }

  /** A whole connection: however the fragments are divided between callbacks and immediate
      reads, the messages sent depend on the fragments only. */
  method Connection(atStart: seq<Fragment>, arrivals: seq<Arrival>) returns (sent: seq<Receive>)
    ensures sent == Absorb(INITIAL, atStart + Fragments(arrivals)).sent
    ensures var ms := Messages(atStart + Fragments(arrivals));
            |sent| == |ms|
            && forall n | 0 <= n < |ms| ::
                 sent[n].order == AsInt32(n + 1) && sent[n].dataSize == Length(ms[n])
  {
    var reader := new WsReader(atStart);
    reader.ReadAsync();
    var i := 0;
    assert atStart + Fragments(arrivals[..0]) == atStart;
    while i < |arrivals|
      invariant i <= |arrivals| && reader.Valid() && reader.ready == []
      invariant reader.State() == Absorb(INITIAL, atStart + Fragments(arrivals[..i]))
    {
      reader.ReadCallback(arrivals[i].first, arrivals[i].available);
      AbsorbArrival(atStart, arrivals, i);
      i := i + 1;
    }
    assert arrivals[..i] == arrivals;
    ReceiveNumbering(atStart + Fragments(arrivals));
    sent := reader.sent;
  }
}
