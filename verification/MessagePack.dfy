/** The part of MessagePack that the message packers use: the str, bin, array, map and int
    format families, a packer that appends to a buffer, and a decoder. One char of the buffer is
    one byte. */
module MessagePack {
  import opened AsgiMessages

  datatype Value =
    | Str(text: Bytes)
    | Bin(data: Bytes)
    | Int(number: int)
    | Array(items: seq<Value>)
    | Map(entries: seq<(Value, Value)>)

  const LIMIT := 0x1_0000_0000

  // ----- Lengths -----

  function Byte(n: nat): (c: char)
    requires n < 0x100
    ensures c as int == n
  {
    n as char
  }

  /** n in `width` bytes, most significant first. */
  function BigEndian(n: nat, width: nat): (s: Bytes)
    ensures |s| == width
  {
    if width == 0 then ""
    else BigEndian(n / 0x100, width - 1) + [Byte(n % 0x100)]
  }

  function FromBigEndian(s: Bytes): nat {
    if s == "" then 0 else FromBigEndian(s[..|s| - 1]) * 0x100 + s[|s| - 1] as int
  }

  function Power256(width: nat): nat {
    if width == 0 then 1 else 0x100 * Power256(width - 1)
  }

  lemma {:induction false} BigEndianRoundTrip(n: nat, width: nat)
    requires n < Power256(width)
    ensures FromBigEndian(BigEndian(n, width)) == n
  {
    if width > 0 {
      var s := BigEndian(n, width);
      assert s[..|s| - 1] == BigEndian(n / 0x100, width - 1);
      BigEndianRoundTrip(n / 0x100, width - 1);
    }
  }

  lemma Widths()
    ensures Power256(1) == 0x100 && Power256(2) == 0x1_0000 && Power256(4) == LIMIT
  {
    assert Power256(3) == 0x100_0000;
  }

  // ----- Headers, as msgpack-c writes them -----

  function StrHeader(n: nat): Bytes
    requires n < LIMIT
  {
    if n < 32 then [Byte(0xa0 + n)]
    else if n < 0x100 then [Byte(0xd9)] + BigEndian(n, 1)
    else if n < 0x1_0000 then [Byte(0xda)] + BigEndian(n, 2)
    else [Byte(0xdb)] + BigEndian(n, 4)
  }

  function BinHeader(n: nat): Bytes
    requires n < LIMIT
  {
    if n < 0x100 then [Byte(0xc4)] + BigEndian(n, 1)
    else if n < 0x1_0000 then [Byte(0xc5)] + BigEndian(n, 2)
    else [Byte(0xc6)] + BigEndian(n, 4)
  }

  function ArrayHeader(n: nat): Bytes
    requires n < LIMIT
  {
    if n < 16 then [Byte(0x90 + n)]
    else if n < 0x1_0000 then [Byte(0xdc)] + BigEndian(n, 2)
    else [Byte(0xdd)] + BigEndian(n, 4)
  }

  function MapHeader(n: nat): Bytes
    requires n < LIMIT
  {
    if n < 16 then [Byte(0x80 + n)]
    else if n < 0x1_0000 then [Byte(0xde)] + BigEndian(n, 2)
    else [Byte(0xdf)] + BigEndian(n, 4)
  }

  predicate IsInt32(n: int) {
    -0x8000_0000 <= n < 0x8000_0000
  }

  function IntBytes(n: int): Bytes
    requires IsInt32(n)
  {
    if n < -0x8000 then [Byte(0xd2)] + BigEndian(n + LIMIT, 4)
    else if n < -0x80 then [Byte(0xd1)] + BigEndian(n + 0x1_0000, 2)
    else if n < -0x20 then [Byte(0xd0)] + BigEndian(n + 0x100, 1)
    else if n < 0 then [Byte(n + 0x100)]
    else if n < 0x80 then [Byte(n)]
    else if n < 0x100 then [Byte(0xcc)] + BigEndian(n, 1)
    else if n < 0x1_0000 then [Byte(0xcd)] + BigEndian(n, 2)
    else [Byte(0xce)] + BigEndian(n, 4)
  }

  // ----- Values -----

  predicate Encodable(v: Value) {
    match v
    case Str(s) => |s| < LIMIT
    case Bin(s) => |s| < LIMIT
    case Int(n) => IsInt32(n)
    case Array(items) => |items| < LIMIT && forall i | 0 <= i < |items| :: Encodable(items[i])
    case Map(entries) =>
      |entries| < LIMIT && forall i | 0 <= i < |entries| :: Encodable(entries[i].0) && Encodable(entries[i].1)
  }

  type ArrayValue = v: Value | v.Array? && Encodable(v) witness Array([])
  type MapValue = v: Value | v.Map? && Encodable(v) witness Map([])

  function Encode(v: Value): (s: Bytes)
    requires Encodable(v)
    ensures s != ""
    decreases v
  {
    match v
    case Str(t) => StrHeader(|t|) + t
    case Bin(d) => BinHeader(|d|) + d
    case Int(n) => IntBytes(n)
    case Array(items) => ArrayHeader(|items|) + EncodeItems(v, 0)
    case Map(entries) => MapHeader(|entries|) + EncodeEntries(v, 0)
  }

  /** The items of array `v` from the k-th on. */
  function EncodeItems(v: ArrayValue, k: nat): Bytes
    requires k <= |v.items|
    decreases v, |v.items| - k
  {
    if k == |v.items| then "" else Encode(v.items[k]) + EncodeItems(v, k + 1)
  }

  function EncodeEntries(v: MapValue, k: nat): Bytes
    requires k <= |v.entries|
    decreases v, |v.entries| - k
  {
    if k == |v.entries| then ""
    else Encode(v.entries[k].0) + Encode(v.entries[k].1) + EncodeEntries(v, k + 1)
  }

  // ----- The decoder -----

  datatype Header =
    | StrOf(length: nat) | BinOf(length: nat) | ArrayOf(length: nat) | MapOf(length: nat)
    | IntOf(number: int) | Unknown

  /** A `width`-byte number after the first byte, handed to the header it belongs to. */
  function Wide(s: Bytes, width: nat): Option<(nat, Bytes)>
  {
    if |s| < 1 + width then None else Some((FromBigEndian(s[1..1 + width]), s[1 + width..]))
  }

  function Signed(n: nat, modulus: nat): int {
    if 2 * n < modulus then n else n - modulus
  }

  /** The header at the start of `s` by the MessagePack specification, and what follows it. */
  function ReadHeader(s: Bytes): (Header, Bytes) {
    if s == "" then (Unknown, s)
    else
      var b := s[0] as int;
      if b < 0x80 then (IntOf(b), s[1..])
      else if b < 0x90 then (MapOf(b - 0x80), s[1..])
      else if b < 0xa0 then (ArrayOf(b - 0x90), s[1..])
      else if b < 0xc0 then (StrOf(b - 0xa0), s[1..])
      else if 0xe0 <= b < 0x100 then (IntOf(b - 0x100), s[1..])
      else
        var width := if b in {0xc4, 0xcc, 0xd0, 0xd9} then 1
                     else if b in {0xc5, 0xcd, 0xd1, 0xda, 0xdc, 0xde} then 2
                     else if b in {0xc6, 0xce, 0xd2, 0xdb, 0xdd, 0xdf} then 4
                     else 0;
        var wide := Wide(s, width);
        if width == 0 || wide.None? then (Unknown, s)
        else
          var (n, rest) := wide.value;
          if b in {0xc4, 0xc5, 0xc6} then (BinOf(n), rest)
          else if b in {0xcc, 0xcd, 0xce} then (IntOf(n), rest)
          else if b == 0xd0 then (IntOf(Signed(n, 0x100)), rest)
          else if b == 0xd1 then (IntOf(Signed(n, 0x1_0000)), rest)
          else if b == 0xd2 then (IntOf(Signed(n, LIMIT)), rest)
          else if b in {0xd9, 0xda, 0xdb} then (StrOf(n), rest)
          else if b in {0xdc, 0xdd} then (ArrayOf(n), rest)
          else (MapOf(n), rest)
  }

  lemma ReadHeaderShortens(s: Bytes)
    ensures !ReadHeader(s).0.Unknown? ==> |ReadHeader(s).1| < |s|
  {
  }

  /** One value from the start of `s`, and what follows it. */
  function Decode(s: Bytes): (r: Option<(Value, Bytes)>)
    ensures r.Some? ==> |r.value.1| < |s|
    decreases |s|, 0, 0
  {
    ReadHeaderShortens(s);
    var (header, rest) := ReadHeader(s);
    match header
    case Unknown => None
    case IntOf(n) => Some((Int(n), rest))
    case StrOf(n) => if |rest| < n then None else Some((Str(rest[..n]), rest[n..]))
    case BinOf(n) => if |rest| < n then None else Some((Bin(rest[..n]), rest[n..]))
    case ArrayOf(n) =>
      var items := DecodeItems(rest, n);
      if items.None? then None else Some((Array(items.value.0), items.value.1))
    case MapOf(n) =>
      var entries := DecodeEntries(rest, n);
      if entries.None? then None else Some((Map(entries.value.0), entries.value.1))
  }

  function DecodeItems(s: Bytes, n: nat): (r: Option<(seq<Value>, Bytes)>)
    ensures r.Some? ==> |r.value.1| <= |s|
    decreases |s|, 1, n
  {
    if n == 0 then Some(([], s))
    else
      var first := Decode(s);
      if first.None? then None
      else
        var more := DecodeItems(first.value.1, n - 1);
        if more.None? then None else Some(([first.value.0] + more.value.0, more.value.1))
  }

  function DecodeEntries(s: Bytes, n: nat): (r: Option<(seq<(Value, Value)>, Bytes)>)
    ensures r.Some? ==> |r.value.1| <= |s|
    decreases |s|, 1, n
  {
    if n == 0 then Some(([], s))
    else
      var key := Decode(s);
      if key.None? then None
      else
        var value := Decode(key.value.1);
        if value.None? then None
        else
          var more := DecodeEntries(value.value.1, n - 1);
          if more.None? then None else Some(([(key.value.0, value.value.0)] + more.value.0, more.value.1))
  }

  // ----- Round trip -----

  lemma WideRoundTrip(b: char, n: nat, width: nat, rest: Bytes)
    requires n < Power256(width)
    ensures Wide([b] + BigEndian(n, width) + rest, width) == Some((n, rest))
    ensures ([b] + BigEndian(n, width) + rest)[0] == b
  {
    var s := [b] + BigEndian(n, width) + rest;
    assert s[1..1 + width] == BigEndian(n, width) && s[1 + width..] == rest;
    BigEndianRoundTrip(n, width);
  }

  lemma ShortRoundTrip(b: char, rest: Bytes)
    ensures ([b] + rest)[0] == b && ([b] + rest)[1..] == rest
  {
  }

  lemma StrHeaderRoundTrip(n: nat, rest: Bytes)
    requires n < LIMIT
    ensures ReadHeader(StrHeader(n) + rest) == (StrOf(n), rest)
  {
    Widths();
    if n < 32 {
      ShortRoundTrip(Byte(0xa0 + n), rest);
    } else if n < 0x100 {
      WideRoundTrip(Byte(0xd9), n, 1, rest);
    } else if n < 0x1_0000 {
      WideRoundTrip(Byte(0xda), n, 2, rest);
    } else {
      WideRoundTrip(Byte(0xdb), n, 4, rest);
    }
  }

  lemma BinHeaderRoundTrip(n: nat, rest: Bytes)
    requires n < LIMIT
    ensures ReadHeader(BinHeader(n) + rest) == (BinOf(n), rest)
  {
    Widths();
    if n < 0x100 {
      WideRoundTrip(Byte(0xc4), n, 1, rest);
    } else if n < 0x1_0000 {
      WideRoundTrip(Byte(0xc5), n, 2, rest);
    } else {
      WideRoundTrip(Byte(0xc6), n, 4, rest);
    }
  }

  lemma ArrayHeaderRoundTrip(n: nat, rest: Bytes)
    requires n < LIMIT
    ensures ReadHeader(ArrayHeader(n) + rest) == (ArrayOf(n), rest)
  {
    Widths();
    if n < 16 {
      ShortRoundTrip(Byte(0x90 + n), rest);
    } else if n < 0x1_0000 {
      WideRoundTrip(Byte(0xdc), n, 2, rest);
    } else {
      WideRoundTrip(Byte(0xdd), n, 4, rest);
    }
  }

  lemma MapHeaderRoundTrip(n: nat, rest: Bytes)
    requires n < LIMIT
    ensures ReadHeader(MapHeader(n) + rest) == (MapOf(n), rest)
  {
    Widths();
    if n < 16 {
      ShortRoundTrip(Byte(0x80 + n), rest);
    } else if n < 0x1_0000 {
      WideRoundTrip(Byte(0xde), n, 2, rest);
    } else {
      WideRoundTrip(Byte(0xdf), n, 4, rest);
    }
  }

  lemma NegativeRoundTrip(n: int, rest: Bytes)
    requires IsInt32(n) && n < 0
    ensures ReadHeader(IntBytes(n) + rest) == (IntOf(n), rest)
  {
    Widths();
    if n < -0x8000 {
      WideRoundTrip(Byte(0xd2), n + LIMIT, 4, rest);
    } else if n < -0x80 {
      WideRoundTrip(Byte(0xd1), n + 0x1_0000, 2, rest);
    } else if n < -0x20 {
      WideRoundTrip(Byte(0xd0), n + 0x100, 1, rest);
    } else {
      ShortRoundTrip(Byte(n + 0x100), rest);
    }
  }

  lemma IntRoundTrip(n: int, rest: Bytes)
    requires IsInt32(n)
    ensures ReadHeader(IntBytes(n) + rest) == (IntOf(n), rest)
  {
    Widths();
    if n < 0 {
      NegativeRoundTrip(n, rest);
    } else if n < 0x80 {
      ShortRoundTrip(Byte(n), rest);
    } else if n < 0x100 {
      WideRoundTrip(Byte(0xcc), n, 1, rest);
    } else if n < 0x1_0000 {
      WideRoundTrip(Byte(0xcd), n, 2, rest);
    } else {
      WideRoundTrip(Byte(0xce), n, 4, rest);
    }
  }

  lemma DecodeText(t: Bytes, rest: Bytes)
    requires |t| < LIMIT
    ensures Decode(StrHeader(|t|) + t + rest) == Some((Str(t), rest))
    ensures Decode(BinHeader(|t|) + t + rest) == Some((Bin(t), rest))
  {
    assert StrHeader(|t|) + t + rest == StrHeader(|t|) + (t + rest);
    StrHeaderRoundTrip(|t|, t + rest);
    assert BinHeader(|t|) + t + rest == BinHeader(|t|) + (t + rest);
    BinHeaderRoundTrip(|t|, t + rest);
    assert (t + rest)[..|t|] == t && (t + rest)[|t|..] == rest;
  }

  /** Decoding an encoded value followed by anything gives back the value and exactly what
      followed it. */
  lemma {:induction false} DecodeEncode(v: Value, rest: Bytes)
    requires Encodable(v)
    ensures Decode(Encode(v) + rest) == Some((v, rest))
    decreases v
  {
    match v
    case Int(n) => IntRoundTrip(n, rest);
    case Str(t) => DecodeText(t, rest);
    case Bin(d) => DecodeText(d, rest);
    case Array(items) =>
      DecodeEncodedItems(v, 0, rest);
      DecodeArray(v, EncodeItems(v, 0), rest);
    case Map(entries) =>
      DecodeEncodedEntries(v, 0, rest);
      DecodeMap(v, EncodeEntries(v, 0), rest);
  }

  lemma DecodeArray(v: Value, body: Bytes, rest: Bytes)
    requires v.Array? && |v.items| < LIMIT && DecodeItems(body + rest, |v.items|) == Some((v.items[0..], rest))
    ensures Decode(ArrayHeader(|v.items|) + body + rest) == Some((v, rest))
  {
    assert ArrayHeader(|v.items|) + body + rest == ArrayHeader(|v.items|) + (body + rest);
    ArrayHeaderRoundTrip(|v.items|, body + rest);
    assert v.items[0..] == v.items;
  }

  lemma DecodeMap(v: Value, body: Bytes, rest: Bytes)
    requires v.Map? && |v.entries| < LIMIT && DecodeEntries(body + rest, |v.entries|) == Some((v.entries[0..], rest))
    ensures Decode(MapHeader(|v.entries|) + body + rest) == Some((v, rest))
  {
    assert MapHeader(|v.entries|) + body + rest == MapHeader(|v.entries|) + (body + rest);
    MapHeaderRoundTrip(|v.entries|, body + rest);
    assert v.entries[0..] == v.entries;
  }

  lemma {:induction false} DecodeEncodedItems(v: ArrayValue, k: nat, rest: Bytes)
    requires k <= |v.items|
    ensures DecodeItems(EncodeItems(v, k) + rest, |v.items| - k) == Some((v.items[k..], rest))
    decreases v, |v.items| - k
  {
    if k == |v.items| {
      assert EncodeItems(v, k) + rest == rest && v.items[k..] == [];
    } else {
      DecodeEncode(v.items[k], EncodeItems(v, k + 1) + rest);
      DecodeEncodedItems(v, k + 1, rest);
      ItemsStep(v, k, rest);
    }
  }

  /** One item, and what follows it. */
  lemma ItemsStep(v: ArrayValue, k: nat, rest: Bytes)
    requires k < |v.items|
    requires var tail := EncodeItems(v, k + 1) + rest;
             && Decode(Encode(v.items[k]) + tail) == Some((v.items[k], tail))
             && DecodeItems(tail, |v.items| - k - 1) == Some((v.items[k + 1..], rest))
    ensures DecodeItems(EncodeItems(v, k) + rest, |v.items| - k) == Some((v.items[k..], rest))
  {
    ItemsSplit(v, k, rest);
    DecodeItem(EncodeItems(v, k) + rest, EncodeItems(v, k + 1) + rest, |v.items| - k - 1, v.items[k],
               v.items[k + 1..], rest);
  }

  lemma ItemsSplit(v: ArrayValue, k: nat, rest: Bytes)
    requires k < |v.items|
    ensures EncodeItems(v, k) + rest == Encode(v.items[k]) + (EncodeItems(v, k + 1) + rest)
    ensures v.items[k..] == [v.items[k]] + v.items[k + 1..]
  {
  }

  lemma DecodeItem(s: Bytes, tail: Bytes, n: nat, item: Value, more: seq<Value>, rest: Bytes)
    requires Decode(s) == Some((item, tail)) && DecodeItems(tail, n) == Some((more, rest))
    ensures DecodeItems(s, n + 1) == Some(([item] + more, rest))
  {
  }

  lemma {:induction false} DecodeEncodedEntries(v: MapValue, k: nat, rest: Bytes)
    requires k <= |v.entries|
    ensures DecodeEntries(EncodeEntries(v, k) + rest, |v.entries| - k) == Some((v.entries[k..], rest))
    decreases v, |v.entries| - k
  {
    if k == |v.entries| {
      assert EncodeEntries(v, k) + rest == rest && v.entries[k..] == [];
    } else {
      var tail := EncodeEntries(v, k + 1) + rest;
      DecodeEncode(v.entries[k].0, Encode(v.entries[k].1) + tail);
      DecodeEncode(v.entries[k].1, tail);
      DecodeEncodedEntries(v, k + 1, rest);
      EntriesStep(v, k, tail, rest);
    }
  }

  /** One key and its value, and what follows them. */
  lemma EntriesStep(v: MapValue, k: nat, tail: Bytes, rest: Bytes)
    requires k < |v.entries|
    requires tail == EncodeEntries(v, k + 1) + rest
    requires Decode(Encode(v.entries[k].0) + (Encode(v.entries[k].1) + tail)) ==
             Some((v.entries[k].0, Encode(v.entries[k].1) + tail))
    requires Decode(Encode(v.entries[k].1) + tail) == Some((v.entries[k].1, tail))
    requires DecodeEntries(tail, |v.entries| - (k + 1)) == Some((v.entries[k + 1..], rest))
    ensures DecodeEntries(EncodeEntries(v, k) + rest, |v.entries| - k) == Some((v.entries[k..], rest))
  {
    var (key, value) := v.entries[k];
    EntriesSplit(v, k, rest);
    DecodeEntry(EncodeEntries(v, k) + rest, Encode(value) + tail, tail, |v.entries| - k - 1,
                key, value, v.entries[k + 1..], rest);
  }

  lemma EntriesSplit(v: MapValue, k: nat, rest: Bytes)
    requires k < |v.entries|
    ensures EncodeEntries(v, k) + rest ==
            Encode(v.entries[k].0) + (Encode(v.entries[k].1) + (EncodeEntries(v, k + 1) + rest))
    ensures v.entries[k..] == [(v.entries[k].0, v.entries[k].1)] + v.entries[k + 1..]
  {
  }

  lemma DecodeEntry(s: Bytes, s1: Bytes, s2: Bytes, n: nat, key: Value, value: Value,
      more: seq<(Value, Value)>, rest: Bytes)
    requires Decode(s) == Some((key, s1)) && Decode(s1) == Some((value, s2))
    requires DecodeEntries(s2, n) == Some((more, rest))
    ensures DecodeEntries(s, n + 1) == Some(([(key, value)] + more, rest))
  {
  }

  // ----- The packer -----

  /** msgpack::packer over an sbuffer. Each method appends one header or one body. */
  class Packer {
    var buffer: Bytes

    constructor ()
      ensures buffer == ""
    {
      buffer := "";
    }

    method PackMap(n: nat)
      requires n < LIMIT
      modifies this
      ensures buffer == old(buffer) + MapHeader(n)
    {
      buffer := buffer + MapHeader(n);
    }

    method PackArray(n: nat)
      requires n < LIMIT
      modifies this
      ensures buffer == old(buffer) + ArrayHeader(n)
    {
      buffer := buffer + ArrayHeader(n);
    }

    method PackStr(n: nat)
      requires n < LIMIT
      modifies this
      ensures buffer == old(buffer) + StrHeader(n)
    {
      buffer := buffer + StrHeader(n);
    }

    method PackBin(n: nat)
      requires n < LIMIT
      modifies this
      ensures buffer == old(buffer) + BinHeader(n)
    {
      buffer := buffer + BinHeader(n);
    }

    method PackBody(body: Bytes)
      modifies this
      ensures buffer == old(buffer) + body
    {
      buffer := buffer + body;
    }

    method PackInt(n: int)
      requires IsInt32(n)
      modifies this
      ensures buffer == old(buffer) + Encode(Int(n))
    {
      buffer := buffer + IntBytes(n);
    }

    /** AsgiMsg::pack_string */
    method PackString(s: Bytes)
      requires |s| < LIMIT
      modifies this
      ensures buffer == old(buffer) + Encode(Str(s))
    {
      PackStr(|s|);
      PackBody(s);
    }

    /** AsgiMsg::pack_bytestring */
    method PackByteString(s: Bytes)
      requires |s| < LIMIT
      modifies this
      ensures buffer == old(buffer) + Encode(Bin(s))
    {
      PackBin(|s|);
      PackBody(s);
    }
  }

  // ----- No shorter form -----

  predicate IsBytes(s: Bytes) {
    forall i | 0 <= i < |s| :: s[i] as int < 0x100
  }

  lemma {:induction false} WidthBounds(s: Bytes)
    requires IsBytes(s)
    ensures FromBigEndian(s) < Power256(|s|)
  {
    if s != "" {
      WidthBounds(s[..|s| - 1]);
    }
  }

  /** A wide number is one that its width can hold. */
  lemma WideIsBounded(s: Bytes, width: nat)
    requires IsBytes(s) && Wide(s, width).Some?
    ensures Wide(s, width).value.0 < Power256(width) && |s| == 1 + width + |Wide(s, width).value.1|
    ensures IsBytes(Wide(s, width).value.1)
  {
    WidthBounds(s[1..1 + width]);
  }

  /** No header says the same in fewer bytes than the one that is written. */
  predicate HeaderIsShortest(header: Header, size: nat) {
    match header
    case StrOf(n) => n < LIMIT && |StrHeader(n)| <= size
    case BinOf(n) => n < LIMIT && |BinHeader(n)| <= size
    case ArrayOf(n) => n < LIMIT && |ArrayHeader(n)| <= size
    case MapOf(n) => n < LIMIT && |MapHeader(n)| <= size
    case IntOf(n) => IsInt32(n) ==> |IntBytes(n)| <= size
    case Unknown => true
  }

  lemma ShortestHeader(s: Bytes)
    requires IsBytes(s)
    ensures var (header, rest) := ReadHeader(s);
            IsBytes(rest) && |rest| <= |s| && HeaderIsShortest(header, |s| - |rest|)
  {
    Widths();
    if s != "" && 0xc0 <= s[0] as int < 0xe0 {
      forall width | width in {1, 2, 4} && Wide(s, width).Some?
        ensures Wide(s, width).value.0 < Power256(width) && |s| == 1 + width + |Wide(s, width).value.1|
        ensures IsBytes(Wide(s, width).value.1)
      {
        WideIsBounded(s, width);
      }
    }
  }

  /** What the packers write is the shortest text that the decoder reads as the same value. */
  lemma {:induction false} EncodeIsShortest(s: Bytes, v: Value, rest: Bytes)
    requires IsBytes(s) && Decode(s) == Some((v, rest)) && Encodable(v)
    ensures |Encode(v)| + |rest| <= |s| && IsBytes(rest)
    decreases |s|, 0, 0
  {
    ShortestHeader(s);
    ReadHeaderShortens(s);
    var (header, after) := ReadHeader(s);
    match header
    case ArrayOf(n) => ItemsAreShortest(after, n, v, 0, rest);
    case MapOf(n) => EntriesAreShortest(after, n, v, 0, rest);
    case _ =>
  }

  lemma {:induction false} ItemsAreShortest(s: Bytes, n: nat, v: ArrayValue, k: nat, rest: Bytes)
    requires IsBytes(s) && k <= |v.items| && DecodeItems(s, n) == Some((v.items[k..], rest))
    ensures |EncodeItems(v, k)| + |rest| <= |s| && IsBytes(rest) && n == |v.items| - k
    decreases |s|, 1, n
  {
    if n > 0 {
      var first := Decode(s).value;
      assert v.items[k] == first.0 && v.items[k + 1..] == v.items[k..][1..];
      EncodeIsShortest(s, first.0, first.1);
      ItemsAreShortest(first.1, n - 1, v, k + 1, rest);
    }
  }

  lemma {:induction false} EntriesAreShortest(s: Bytes, n: nat, v: MapValue, k: nat, rest: Bytes)
    requires IsBytes(s) && k <= |v.entries| && DecodeEntries(s, n) == Some((v.entries[k..], rest))
    ensures |EncodeEntries(v, k)| + |rest| <= |s| && IsBytes(rest) && n == |v.entries| - k
    decreases |s|, 1, n
  {
    if n > 0 {
      var key := Decode(s).value;
      var value := Decode(key.1).value;
      assert v.entries[k] == (key.0, value.0) && v.entries[k + 1..] == v.entries[k..][1..];
      EncodeIsShortest(s, key.0, key.1);
      EncodeIsShortest(key.1, value.0, value.1);
      EntriesAreShortest(value.1, n - 1, v, k + 1, rest);
    }
  }
}
