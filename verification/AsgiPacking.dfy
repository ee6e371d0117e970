/** The message packers (AsgiHandlerLib/AsgiHttpRequestMsg.h, AsgiHandlerLib/AsgiWsConnectMsg.h,
    AsgiHandlerLib/AsgiWsReceiveMsg.h): each writes a map header and then its entries one by one. */
module AsgiPacking {
  import opened AsgiMessages
  import opened MessagePack

  datatype AsgiWsConnectMsg = AsgiWsConnectMsg(
    replyChannel: string, scheme: string, path: Bytes, queryString: Bytes, rootPath: Bytes,
    headers: seq<(Bytes, Bytes)>)

  /** `data` is the buffer, of which the first `dataSize` bytes are the message. */
  datatype AsgiWsReceiveMsg = AsgiWsReceiveMsg(
    order: int, replyChannel: string, path: Bytes, data: Bytes, dataSize: nat)

  // ----- What each message stands for -----

  function Pair(header: (Bytes, Bytes)): Value {
    Array([Bin(header.0), Bin(header.1)])
  }

  function HeadersValue(headers: seq<(Bytes, Bytes)>): Value {
    Array(seq(|headers|, i requires 0 <= i < |headers| => Pair(headers[i])))
  }

  function RequestValue(m: AsgiHttpRequestMsg): Value {
    Map([(Str("reply_channel"), Str(m.replyChannel)),
         (Str("http_version"), Str(m.httpVersion)),
         (Str("method"), Str(m.httpMethod)),
         (Str("scheme"), Str(m.scheme)),
         (Str("path"), Bin(m.path)),
         (Str("query_string"), Bin(m.queryString)),
         (Str("headers"), HeadersValue(m.headers)),
         (Str("body"), Bin(m.body))])
  }

  function ConnectValue(m: AsgiWsConnectMsg): Value {
    Map([(Str("reply_channel"), Str(m.replyChannel)),
         (Str("scheme"), Str(m.scheme)),
         (Str("path"), Str(m.path)),
         (Str("query_string"), Bin(m.queryString)),
         (Str("root_path"), Bin(m.rootPath)),
         (Str("headers"), HeadersValue(m.headers)),
         (Str("order"), Int(0))])
  }

  function ReceiveValue(m: AsgiWsReceiveMsg): Value
    requires m.dataSize <= |m.data|
  {
    Map([(Str("reply_channel"), Str(m.replyChannel)),
         (Str("path"), Str(m.path)),
         (Str("order"), Int(m.order)),
         (Str("bytes"), Bin(m.data[..m.dataSize]))])
  }

  predicate PackableHeaders(headers: seq<(Bytes, Bytes)>) {
    |headers| < LIMIT && forall i | 0 <= i < |headers| :: |headers[i].0| < LIMIT && |headers[i].1| < LIMIT
  }

  predicate PackableRequest(m: AsgiHttpRequestMsg) {
    && |m.replyChannel| < LIMIT && |m.httpVersion| < LIMIT && |m.httpMethod| < LIMIT && |m.scheme| < LIMIT
    && |m.path| < LIMIT && |m.queryString| < LIMIT && |m.body| < LIMIT && PackableHeaders(m.headers)
  }

  predicate PackableConnect(m: AsgiWsConnectMsg) {
    && |m.replyChannel| < LIMIT && |m.scheme| < LIMIT && |m.path| < LIMIT
    && |m.queryString| < LIMIT && |m.rootPath| < LIMIT && PackableHeaders(m.headers)
  }

  predicate PackableReceive(m: AsgiWsReceiveMsg) {
    && |m.replyChannel| < LIMIT && |m.path| < LIMIT && IsInt32(m.order)
    && m.dataSize <= |m.data| && m.dataSize < LIMIT
  }

  lemma HeadersEncodable(headers: seq<(Bytes, Bytes)>)
    requires PackableHeaders(headers)
    ensures Encodable(HeadersValue(headers))
  {
    var items := HeadersValue(headers).items;
    forall i | 0 <= i < |items|
      ensures Encodable(items[i])
    {
      assert items[i] == Pair(headers[i]);
      var pair := items[i].items;
      assert pair[0] == Bin(headers[i].0) && pair[1] == Bin(headers[i].1);
    }
  }

  lemma RequestEncodable(m: AsgiHttpRequestMsg)
    requires PackableRequest(m)
    ensures Encodable(RequestValue(m))
  {
    var entries := RequestValue(m).entries;
    HeadersEncodable(m.headers);
    forall i | 0 <= i < |entries|
      ensures Encodable(entries[i].0) && Encodable(entries[i].1)
    {
      assert i == 6 ==> entries[i].1 == HeadersValue(m.headers);
      assert i != 6 ==> entries[i].1.Str? || entries[i].1.Bin?;
    }
  }

  lemma ConnectEncodable(m: AsgiWsConnectMsg)
    requires PackableConnect(m)
    ensures Encodable(ConnectValue(m))
  {
    var entries := ConnectValue(m).entries;
    HeadersEncodable(m.headers);
    forall i | 0 <= i < |entries|
      ensures Encodable(entries[i].0) && Encodable(entries[i].1)
    {
      assert i == 5 ==> entries[i].1 == HeadersValue(m.headers);
      assert i != 5 ==> entries[i].1.Str? || entries[i].1.Bin? || entries[i].1 == Int(0);
    }
  }

  lemma ReceiveEncodable(m: AsgiWsReceiveMsg)
    requires PackableReceive(m)
    ensures Encodable(ReceiveValue(m))
  {
    var entries := ReceiveValue(m).entries;
    forall i | 0 <= i < |entries|
      ensures Encodable(entries[i].0) && Encodable(entries[i].1)
    {
      assert entries[i].1.Str? || entries[i].1.Bin? || entries[i].1 == Int(m.order);
    }
  }

  // ----- The packers -----

  /** What the buffer will be once the entries of `v` from the k-th on have been packed. */
  ghost function Finished(buffer: Bytes, v: MapValue, k: nat): Bytes
    requires k <= |v.entries|
  {
    buffer + EncodeEntries(v, k)
  }

  lemma PackEntry(buffer: Bytes, v: MapValue, k: nat)
    requires k < |v.entries|
    ensures Encodable(v.entries[k].0) && Encodable(v.entries[k].1)
    ensures Finished(buffer, v, k) ==
            Finished(buffer + Encode(v.entries[k].0) + Encode(v.entries[k].1), v, k + 1)
  {
  }

  /** A key and a text value. */
  method PackStringEntry(packer: Packer, key: string, value: string, ghost v: MapValue, ghost k: nat)
    requires k < |v.entries| && v.entries[k] == (Str(key), Str(value))
    modifies packer
    ensures Finished(packer.buffer, v, k + 1) == Finished(old(packer.buffer), v, k)
  {
    PackEntry(packer.buffer, v, k);
    packer.PackString(key);
    packer.PackString(value);
  }

  /** A key and a binary value. */
  method PackBinaryEntry(packer: Packer, key: string, value: Bytes, ghost v: MapValue, ghost k: nat)
    requires k < |v.entries| && v.entries[k] == (Str(key), Bin(value))
    modifies packer
    ensures Finished(packer.buffer, v, k + 1) == Finished(old(packer.buffer), v, k)
  {
    PackEntry(packer.buffer, v, k);
    packer.PackString(key);
    packer.PackByteString(value);
  }

  method PackHeadersEntry(packer: Packer, headers: seq<(Bytes, Bytes)>, ghost v: MapValue, ghost k: nat)
    requires PackableHeaders(headers)
    requires k < |v.entries| && v.entries[k] == (Str("headers"), HeadersValue(headers))
    modifies packer
    ensures Finished(packer.buffer, v, k + 1) == Finished(old(packer.buffer), v, k)
  {
    HeadersEncodable(headers);
    PackEntry(packer.buffer, v, k);
    packer.PackString("headers");
    PackHeaders(packer, headers);
  }

  method PackOrderEntry(packer: Packer, order: int, ghost v: MapValue, ghost k: nat)
    requires IsInt32(order)
    requires k < |v.entries| && v.entries[k] == (Str("order"), Int(order))
    modifies packer
    ensures Finished(packer.buffer, v, k + 1) == Finished(old(packer.buffer), v, k)
  {
    PackEntry(packer.buffer, v, k);
    packer.PackString("order");
    packer.PackInt(order);
  }

  lemma PairBytes(header: (Bytes, Bytes))
    requires |header.0| < LIMIT && |header.1| < LIMIT
    ensures Encodable(Pair(header))
    ensures Encode(Pair(header)) == ArrayHeader(2) + Encode(Bin(header.0)) + Encode(Bin(header.1))
  {
    var v := Pair(header);
    assert v.items[0] == Bin(header.0) && v.items[1] == Bin(header.1);
    assert Encodable(v.items[0]) && Encodable(v.items[1]);
    assert EncodeItems(v, 2) == "";
    assert EncodeItems(v, 1) == Encode(v.items[1]);
  }

  method PackPair(packer: Packer, header: (Bytes, Bytes))
    requires |header.0| < LIMIT && |header.1| < LIMIT
    modifies packer
    ensures Encodable(Pair(header))
    ensures packer.buffer == old(packer.buffer) + Encode(Pair(header))
  {
    PairBytes(header);
    packer.PackArray(2);
    packer.PackByteString(header.0);
    packer.PackByteString(header.1);
  }

  /** What the buffer will be once the items of `v` from the i-th on have been packed. */
  ghost function FinishedItems(buffer: Bytes, v: ArrayValue, i: nat): Bytes
    requires i <= |v.items|
  {
    buffer + EncodeItems(v, i)
  }

  lemma PackItem(buffer: Bytes, headers: seq<(Bytes, Bytes)>, i: nat)
    requires Encodable(HeadersValue(headers)) && i < |headers| && Encodable(Pair(headers[i]))
    ensures FinishedItems(buffer, HeadersValue(headers), i) ==
            FinishedItems(buffer + Encode(Pair(headers[i])), HeadersValue(headers), i + 1)
  {
    assert HeadersValue(headers).items[i] == Pair(headers[i]);
  }

  method PackHeaders(packer: Packer, headers: seq<(Bytes, Bytes)>)
    requires PackableHeaders(headers) && Encodable(HeadersValue(headers))
    modifies packer
    ensures packer.buffer == old(packer.buffer) + Encode(HeadersValue(headers))
  {
    ghost var v: ArrayValue := HeadersValue(headers);
    ghost var expected := packer.buffer + Encode(v);
    packer.PackArray(|headers|);
    var i := 0;
    assert FinishedItems(packer.buffer, v, 0) == expected;
    while i < |headers|
      invariant i <= |headers|
      invariant FinishedItems(packer.buffer, v, i) == expected
    {
      ghost var before := packer.buffer;
      PackPair(packer, headers[i]);
      PackItem(before, headers, i);
      i := i + 1;
    }
  }

  /** The map header of `v` has been packed, and none of its entries. */
  lemma PackedHeader(before: Bytes, v: MapValue)
    ensures Finished(before + MapHeader(|v.entries|), v, 0) == before + Encode(v)
    ensures forall buffer :: Finished(buffer, v, |v.entries|) == buffer
  {
  }

  /** AsgiHttpRequestMsg::msgpack_pack: eight entries, as declared; the root path is not packed. */
  method PackRequest(packer: Packer, m: AsgiHttpRequestMsg)
    requires PackableRequest(m)
    modifies packer
    ensures Encodable(RequestValue(m))
    ensures packer.buffer == old(packer.buffer) + Encode(RequestValue(m))
  {
    RequestEncodable(m);
    PackedHeader(packer.buffer, RequestValue(m));
    packer.PackMap(8);
    PackRequestTexts(packer, m);
    PackRequestBytes(packer, m);
  }

  /** The first four entries of a request. */
  method PackRequestTexts(packer: Packer, m: AsgiHttpRequestMsg)
    requires PackableRequest(m) && Encodable(RequestValue(m))
    modifies packer
    ensures Finished(packer.buffer, RequestValue(m), 4) == Finished(old(packer.buffer), RequestValue(m), 0)
  {
    PackRequestOrigin(packer, m);
    PackRequestTarget(packer, m);
  }

  method PackRequestOrigin(packer: Packer, m: AsgiHttpRequestMsg)
    requires PackableRequest(m) && Encodable(RequestValue(m))
    modifies packer
    ensures Finished(packer.buffer, RequestValue(m), 2) == Finished(old(packer.buffer), RequestValue(m), 0)
  {
    ghost var v: MapValue := RequestValue(m);
    PackStringEntry(packer, "reply_channel", m.replyChannel, v, 0);
    PackStringEntry(packer, "http_version", m.httpVersion, v, 1);
  }

  method PackRequestTarget(packer: Packer, m: AsgiHttpRequestMsg)
    requires PackableRequest(m) && Encodable(RequestValue(m))
    modifies packer
    ensures Finished(packer.buffer, RequestValue(m), 4) == Finished(old(packer.buffer), RequestValue(m), 2)
  {
    ghost var v: MapValue := RequestValue(m);
    PackStringEntry(packer, "method", m.httpMethod, v, 2);
    PackStringEntry(packer, "scheme", m.scheme, v, 3);
  }

  /** The last four entries of a request. */
  method PackRequestBytes(packer: Packer, m: AsgiHttpRequestMsg)
    requires PackableRequest(m) && Encodable(RequestValue(m))
    modifies packer
    ensures Finished(packer.buffer, RequestValue(m), 8) == Finished(old(packer.buffer), RequestValue(m), 4)
  {
    ghost var v: MapValue := RequestValue(m);
    PackBinaryEntry(packer, "path", m.path, v, 4);
    PackBinaryEntry(packer, "query_string", m.queryString, v, 5);
    PackRequestRest(packer, m);
  }

  method PackRequestRest(packer: Packer, m: AsgiHttpRequestMsg)
    requires PackableRequest(m) && Encodable(RequestValue(m))
    modifies packer
    ensures Finished(packer.buffer, RequestValue(m), 8) == Finished(old(packer.buffer), RequestValue(m), 6)
  {
    ghost var v: MapValue := RequestValue(m);
    PackHeadersEntry(packer, m.headers, v, 6);
    PackBinaryEntry(packer, "body", m.body, v, 7);
  }

  /** AsgiWsConnectMsg::msgpack_pack: seven entries; the order is always 0. */
  method PackConnect(packer: Packer, m: AsgiWsConnectMsg)
    requires PackableConnect(m)
    modifies packer
    ensures Encodable(ConnectValue(m))
    ensures packer.buffer == old(packer.buffer) + Encode(ConnectValue(m))
  {
    ConnectEncodable(m);
    PackedHeader(packer.buffer, ConnectValue(m));
    packer.PackMap(7);
    PackConnectTexts(packer, m);
    PackConnectBytes(packer, m);
  }

  method PackConnectTexts(packer: Packer, m: AsgiWsConnectMsg)
    requires PackableConnect(m) && Encodable(ConnectValue(m))
    modifies packer
    ensures Finished(packer.buffer, ConnectValue(m), 3) == Finished(old(packer.buffer), ConnectValue(m), 0)
  {
    ghost var v: MapValue := ConnectValue(m);
    PackStringEntry(packer, "reply_channel", m.replyChannel, v, 0);
    PackStringEntry(packer, "scheme", m.scheme, v, 1);
    PackStringEntry(packer, "path", m.path, v, 2);
  }

  method PackConnectBytes(packer: Packer, m: AsgiWsConnectMsg)
    requires PackableConnect(m) && Encodable(ConnectValue(m))
    modifies packer
    ensures Finished(packer.buffer, ConnectValue(m), 7) == Finished(old(packer.buffer), ConnectValue(m), 3)
  {
    ghost var v: MapValue := ConnectValue(m);
    PackBinaryEntry(packer, "query_string", m.queryString, v, 3);
    PackBinaryEntry(packer, "root_path", m.rootPath, v, 4);
    PackConnectRest(packer, m);
  }

  method PackConnectRest(packer: Packer, m: AsgiWsConnectMsg)
    requires PackableConnect(m) && Encodable(ConnectValue(m))
    modifies packer
    ensures Finished(packer.buffer, ConnectValue(m), 7) == Finished(old(packer.buffer), ConnectValue(m), 5)
  {
    ghost var v: MapValue := ConnectValue(m);
    PackHeadersEntry(packer, m.headers, v, 5);
    PackOrderEntry(packer, 0, v, 6);
  }

  /** AsgiWsReceiveMsg::msgpack_pack: four entries; only the first dataSize bytes of the buffer. */
  method PackReceive(packer: Packer, m: AsgiWsReceiveMsg)
    requires PackableReceive(m)
    modifies packer
    ensures Encodable(ReceiveValue(m))
    ensures packer.buffer == old(packer.buffer) + Encode(ReceiveValue(m))
  {
    ReceiveEncodable(m);
    ghost var v: MapValue := ReceiveValue(m);
    PackedHeader(packer.buffer, v);
    packer.PackMap(4);
    PackStringEntry(packer, "reply_channel", m.replyChannel, v, 0);
    PackStringEntry(packer, "path", m.path, v, 1);
    PackOrderEntry(packer, m.order, v, 2);
    PackBinaryEntry(packer, "bytes", m.data[..m.dataSize], v, 3);
  }

  // ----- The receiver -----

  predicate IsHeader(v: Value) {
    v.Array? && |v.items| == 2 && v.items[0].Bin? && v.items[1].Bin?
  }

  function HeadersOf(v: Value): Option<seq<(Bytes, Bytes)>> {
    if v.Array? && forall i | 0 <= i < |v.items| :: IsHeader(v.items[i])
    then Some(seq(|v.items|, i requires 0 <= i < |v.items| && IsHeader(v.items[i]) =>
                    (v.items[i].items[0].data, v.items[i].items[1].data)))
    else None
  }

  /** The value stored under a key, whichever position it has. */
  function Find(entries: seq<(Value, Value)>, key: string): Option<Value> {
    if entries == [] then None
    else if entries[0].0 == Str(key) then Some(entries[0].1)
    else Find(entries[1..], key)
  }

  function Text(entries: seq<(Value, Value)>, key: string): Option<string> {
    var v := Find(entries, key);
    if v.Some? && v.value.Str? then Some(v.value.text) else None
  }

  function Binary(entries: seq<(Value, Value)>, key: string): Option<Bytes> {
    var v := Find(entries, key);
    if v.Some? && v.value.Bin? then Some(v.value.data) else None
  }

  function Number(entries: seq<(Value, Value)>, key: string): Option<int> {
    var v := Find(entries, key);
    if v.Some? && v.value.Int? then Some(v.value.number) else None
  }

  function Headers(entries: seq<(Value, Value)>): Option<seq<(Bytes, Bytes)>> {
    var v := Find(entries, "headers");
    if v.Some? then HeadersOf(v.value) else None
  }

  /** How the receiver of a request reads it: by key, each field in its text or binary kind. The
      root path has no key. */
  function ReadRequest(v: Value): Option<AsgiHttpRequestMsg> {
    if !v.Map? then None
    else
      var (channel, version) := (Text(v.entries, "reply_channel"), Text(v.entries, "http_version"));
      var (verb, scheme) := (Text(v.entries, "method"), Text(v.entries, "scheme"));
      var (path, query) := (Binary(v.entries, "path"), Binary(v.entries, "query_string"));
      var (headers, body) := (Headers(v.entries), Binary(v.entries, "body"));
      if channel.None? || version.None? || verb.None? || scheme.None?
         || path.None? || query.None? || headers.None? || body.None? then None
      else Some(AsgiHttpRequestMsg(channel.value, version.value, verb.value, scheme.value, path.value,
                                   query.value, "", headers.value, body.value))
  }

  /** A connect message and its order. */
  function ReadConnect(v: Value): Option<(AsgiWsConnectMsg, int)> {
    if !v.Map? then None
    else
      var (channel, scheme) := (Text(v.entries, "reply_channel"), Text(v.entries, "scheme"));
      var (path, query) := (Text(v.entries, "path"), Binary(v.entries, "query_string"));
      var (root, headers) := (Binary(v.entries, "root_path"), Headers(v.entries));
      var order := Number(v.entries, "order");
      if channel.None? || scheme.None? || path.None? || query.None? || root.None? || headers.None? || order.None?
      then None
      else Some((AsgiWsConnectMsg(channel.value, scheme.value, path.value, query.value, root.value,
                                  headers.value), order.value))
  }

  /** A receive message whose buffer is exactly the bytes received. */
  function ReadReceive(v: Value): Option<AsgiWsReceiveMsg> {
    if !v.Map? then None
    else
      var (channel, path) := (Text(v.entries, "reply_channel"), Text(v.entries, "path"));
      var (order, bytes) := (Number(v.entries, "order"), Binary(v.entries, "bytes"));
      if channel.None? || path.None? || order.None? || bytes.None? then None
      else Some(AsgiWsReceiveMsg(order.value, channel.value, path.value, bytes.value, |bytes.value|))
  }

  lemma {:induction false} FindAt(entries: seq<(Value, Value)>, k: nat, key: string)
    requires k < |entries| && entries[k].0 == Str(key)
    requires forall i | 0 <= i < k :: entries[i].0 != Str(key)
    ensures Find(entries, key) == Some(entries[k].1)
  {
    if k > 0 {
      FindAt(entries[1..], k - 1, key);
    }
  }

  lemma HeadersRecovered(headers: seq<(Bytes, Bytes)>)
    ensures HeadersOf(HeadersValue(headers)) == Some(headers)
  {
    var items := HeadersValue(headers).items;
    forall i | 0 <= i < |items|
      ensures IsHeader(items[i]) && (items[i].items[0].data, items[i].items[1].data) == headers[i]
    {
      assert items[i] == Pair(headers[i]);
    }
    assert HeadersOf(HeadersValue(headers)).value == headers;
  }

  lemma KeysDiffer()
    ensures "method" != "scheme" && "path" != "body" && "http_version" != "query_string" && "order" != "bytes"
  {
    assert "method"[0] != "scheme"[0] && "path"[0] != "body"[0] && "http_version"[0] != "query_string"[0]
        && "order"[0] != "bytes"[0];
  }

  lemma RequestTexts(m: AsgiHttpRequestMsg)
    ensures var es := RequestValue(m).entries;
            && Text(es, "reply_channel") == Some(m.replyChannel) && Text(es, "http_version") == Some(m.httpVersion)
            && Text(es, "method") == Some(m.httpMethod) && Text(es, "scheme") == Some(m.scheme)
  {
    var es := RequestValue(m).entries;
    KeysDiffer();
    FindAt(es, 0, "reply_channel");
    FindAt(es, 1, "http_version");
    FindAt(es, 2, "method");
    FindAt(es, 3, "scheme");
  }

  lemma RequestBytes(m: AsgiHttpRequestMsg)
    ensures var es := RequestValue(m).entries;
            && Binary(es, "path") == Some(m.path) && Binary(es, "query_string") == Some(m.queryString)
  {
    var es := RequestValue(m).entries;
    KeysDiffer();
    FindAt(es, 4, "path");
    FindAt(es, 5, "query_string");
  }

  lemma RequestRest(m: AsgiHttpRequestMsg)
    ensures var es := RequestValue(m).entries; Headers(es) == Some(m.headers) && Binary(es, "body") == Some(m.body)
  {
    var es := RequestValue(m).entries;
    KeysDiffer();
    HeadersRecovered(m.headers);
    FindAt(es, 6, "headers");
    FindAt(es, 7, "body");
  }

  lemma RequestReadBack(m: AsgiHttpRequestMsg)
    ensures ReadRequest(RequestValue(m)) == Some(m.(rootPath := ""))
  {
    RequestTexts(m);
    RequestBytes(m);
    RequestRest(m);
  }

  lemma ConnectTexts(m: AsgiWsConnectMsg)
    ensures var es := ConnectValue(m).entries;
            && Text(es, "reply_channel") == Some(m.replyChannel) && Text(es, "scheme") == Some(m.scheme)
            && Text(es, "path") == Some(m.path) && Binary(es, "query_string") == Some(m.queryString)
  {
    var es := ConnectValue(m).entries;
    KeysDiffer();
    FindAt(es, 0, "reply_channel");
    FindAt(es, 1, "scheme");
    FindAt(es, 2, "path");
    FindAt(es, 3, "query_string");
  }

  lemma ConnectReadBack(m: AsgiWsConnectMsg)
    ensures ReadConnect(ConnectValue(m)) == Some((m, 0))
  {
    var es := ConnectValue(m).entries;
    ConnectTexts(m);
    HeadersRecovered(m.headers);
    FindAt(es, 4, "root_path");
    FindAt(es, 5, "headers");
    FindAt(es, 6, "order");
  }

  lemma ReceiveReadBack(m: AsgiWsReceiveMsg)
    requires m.dataSize <= |m.data|
    ensures ReadReceive(ReceiveValue(m)) == Some(m.(data := m.data[..m.dataSize]))
  {
    var es := ReceiveValue(m).entries;
    KeysDiffer();
    FindAt(es, 0, "reply_channel");
    FindAt(es, 1, "path");
    FindAt(es, 2, "order");
    FindAt(es, 3, "bytes");
  }

  // ----- Nothing else is packed -----

  /** The entries have exactly these text keys, in this order. */
  predicate HasKeys(entries: seq<(Value, Value)>, keys: seq<string>) {
    |entries| == |keys| && forall i | 0 <= i < |keys| :: entries[i].0 == Str(keys[i])
  }

  lemma {:induction false} FoundExactly(entries: seq<(Value, Value)>, keys: seq<string>, key: string)
    requires HasKeys(entries, keys)
    ensures Find(entries, key).Some? <==> key in keys
  {
    if keys != [] {
      FoundExactly(entries[1..], keys[1..], key);
      assert key in keys <==> key == keys[0] || key in keys[1..];
    }
  }

  // ----- Round trips: packed, followed by anything, decoded and read -----

  /** The message comes back but for its root path, which is not packed, and the decoder stops
      exactly where the packer did. */
  lemma RequestRoundTrip(m: AsgiHttpRequestMsg, rest: Bytes)
    requires PackableRequest(m)
    ensures Encodable(RequestValue(m))
    ensures var d := Decode(Encode(RequestValue(m)) + rest);
            d.Some? && d.value.1 == rest && ReadRequest(d.value.0) == Some(m.(rootPath := ""))
    ensures ReadRequest(RequestValue(m)) == Some(m) <==> m.rootPath == ""
    ensures var d := Decode(Encode(RequestValue(m)) + rest);
            && d.Some? && d.value.0.Map? && |d.value.0.entries| == 8
            && HasKeys(d.value.0.entries, ["reply_channel", "http_version", "method", "scheme",
                                           "path", "query_string", "headers", "body"])
  {
    RequestEncodable(m);
    DecodeEncode(RequestValue(m), rest);
    RequestReadBack(m);
  }

  /** The whole message comes back, with order 0. */
  lemma ConnectRoundTrip(m: AsgiWsConnectMsg, rest: Bytes)
    requires PackableConnect(m)
    ensures Encodable(ConnectValue(m))
    ensures var d := Decode(Encode(ConnectValue(m)) + rest);
            d.Some? && d.value.1 == rest && ReadConnect(d.value.0) == Some((m, 0))
    ensures var d := Decode(Encode(ConnectValue(m)) + rest);
            && d.Some? && d.value.0.Map? && |d.value.0.entries| == 7
            && HasKeys(d.value.0.entries, ["reply_channel", "scheme", "path", "query_string",
                                           "root_path", "headers", "order"])
  {
    ConnectEncodable(m);
    DecodeEncode(ConnectValue(m), rest);
    ConnectReadBack(m);
  }

  /** The first dataSize bytes of the buffer come back, and nothing of the rest of the buffer. */
  lemma ReceiveRoundTrip(m: AsgiWsReceiveMsg, rest: Bytes)
    requires PackableReceive(m)
    ensures Encodable(ReceiveValue(m))
    ensures var d := Decode(Encode(ReceiveValue(m)) + rest);
            d.Some? && d.value.1 == rest && ReadReceive(d.value.0) == Some(m.(data := m.data[..m.dataSize]))
    ensures var d := Decode(Encode(ReceiveValue(m)) + rest);
            && d.Some? && d.value.0.Map? && |d.value.0.entries| == 4
            && HasKeys(d.value.0.entries, ["reply_channel", "path", "order", "bytes"])
  {
    ReceiveEncodable(m);
    DecodeEncode(ReceiveValue(m), rest);
    ReceiveReadBack(m);
  }

  /** In a packed request exactly eight keys are found, and the root path is not one of them. */
  lemma RequestKeys(m: AsgiHttpRequestMsg, rest: Bytes, key: string)
    requires PackableRequest(m) && Encodable(RequestValue(m))
    ensures var d := Decode(Encode(RequestValue(m)) + rest);
            && d.Some? && d.value.0.Map?
            && (Find(d.value.0.entries, key).Some? <==>
                  key in {"reply_channel", "http_version", "method", "scheme",
                          "path", "query_string", "headers", "body"})
            && Find(d.value.0.entries, "root_path").None?
  {
    var keys := ["reply_channel", "http_version", "method", "scheme", "path", "query_string", "headers", "body"];
    RequestRoundTrip(m, rest);
    var entries := Decode(Encode(RequestValue(m)) + rest).value.0.entries;
    FoundExactly(entries, keys, key);
    FoundExactly(entries, keys, "root_path");
    RootPathIsNoKey();
  }

  lemma RootPathIsNoKey()
    ensures "root_path" !in ["reply_channel", "http_version", "method", "scheme",
                             "path", "query_string", "headers", "body"]
  {
    assert "root_path"[1] == 'o' && "reply_channel"[1] == 'e';
    assert |"root_path"| == 9;
  }

  lemma ConnectKeys(m: AsgiWsConnectMsg, rest: Bytes, key: string)
    requires PackableConnect(m) && Encodable(ConnectValue(m))
    ensures var d := Decode(Encode(ConnectValue(m)) + rest);
            && d.Some? && d.value.0.Map?
            && (Find(d.value.0.entries, key).Some? <==>
                  key in {"reply_channel", "scheme", "path", "query_string", "root_path", "headers", "order"})
  {
    ConnectRoundTrip(m, rest);
    FoundExactly(Decode(Encode(ConnectValue(m)) + rest).value.0.entries,
                 ["reply_channel", "scheme", "path", "query_string", "root_path", "headers", "order"], key);
  }

  lemma ReceiveKeys(m: AsgiWsReceiveMsg, rest: Bytes, key: string)
    requires PackableReceive(m) && Encodable(ReceiveValue(m))
    ensures var d := Decode(Encode(ReceiveValue(m)) + rest);
            && d.Some? && d.value.0.Map?
            && (Find(d.value.0.entries, key).Some? <==> key in {"reply_channel", "path", "order", "bytes"})
  {
    ReceiveRoundTrip(m, rest);
    FoundExactly(Decode(Encode(ReceiveValue(m)) + rest).value.0.entries,
                 ["reply_channel", "path", "order", "bytes"], key);
  }

  /** Packed messages can be told apart: equal bytes come from requests equal up to the root path. */
  lemma PackedRequestsDiffer(a: AsgiHttpRequestMsg, b: AsgiHttpRequestMsg)
    requires PackableRequest(a) && PackableRequest(b)
    requires Encodable(RequestValue(a)) && Encodable(RequestValue(b))
    ensures Encode(RequestValue(a)) == Encode(RequestValue(b)) <==> a.(rootPath := "") == b.(rootPath := "")
  {
    RequestRoundTrip(a, "");
    RequestRoundTrip(b, "");
    if a.(rootPath := "") == b.(rootPath := "") {
      assert RequestValue(a) == RequestValue(b);
    }
  }
}
