/** Option, and the ASGI messages that travel between the module and the application. */
module AsgiMessages {

  datatype Option<+T> = None | Some(value: T)

  /** A C++ std::string or std::vector<char>: one Dafny char stands for one C++ char. */
  type Bytes = string

  datatype AsgiHttpRequestMsg = AsgiHttpRequestMsg(
    replyChannel: string, httpVersion: string, httpMethod: string, scheme: string,
    path: Bytes, queryString: Bytes, rootPath: Bytes, headers: seq<(Bytes, Bytes)>, body: Bytes)

  datatype AsgiHttpResponseMsg = AsgiHttpResponseMsg(
    status: int, headers: seq<(Bytes, Bytes)>, content: Bytes, moreContent: bool)

  /** What a channel carries. The packed bytes of a message are represented by the message. */
  datatype Payload = Request(request: AsgiHttpRequestMsg) | Response(response: AsgiHttpResponseMsg)

  function Responses(ms: seq<AsgiHttpResponseMsg>): (ps: seq<Payload>)
    ensures |ps| == |ms|
    ensures forall i | 0 <= i < |ms| :: ps[i] == Response(ms[i])
  {
    seq(|ms|, i requires 0 <= i < |ms| => Response(ms[i]))
  }

  /** The contents of the messages, end to end. */
  function Contents(ms: seq<AsgiHttpResponseMsg>): Bytes {
    if ms == [] then "" else Contents(ms[..|ms| - 1]) + ms[|ms| - 1].content
  }

  lemma {:induction false} ContentsOfConcat(a: seq<AsgiHttpResponseMsg>, b: seq<AsgiHttpResponseMsg>)
    ensures Contents(a + b) == Contents(a) + Contents(b)
  {
    if b == [] {
      assert a + b == a;
    } else {
      assert (a + b)[..|a + b| - 1] == a + b[..|b| - 1];
      ContentsOfConcat(a, b[..|b| - 1]);
    }
  }

  /** The part of a stream that makes up one response: up to and including the first message
      that announces no more content. */
  function UpToFinal(ms: seq<AsgiHttpResponseMsg>): seq<AsgiHttpResponseMsg> {
    if ms == [] then []
    else if !ms[0].moreContent then [ms[0]]
    else [ms[0]] + UpToFinal(ms[1..])
  }

  /** Every message announces more content. */
  predicate Continuing(ms: seq<AsgiHttpResponseMsg>) {
    forall i | 0 <= i < |ms| :: ms[i].moreContent
  }

  lemma {:induction false} UpToFinalExtends(ms: seq<AsgiHttpResponseMsg>, rest: seq<AsgiHttpResponseMsg>)
    requires Continuing(ms)
    ensures UpToFinal(ms + rest) == ms + UpToFinal(rest)
  {
    if ms == [] {
      assert ms + rest == rest;
    } else {
      assert (ms + rest)[1..] == ms[1..] + rest;
      UpToFinalExtends(ms[1..], rest);
    }
  }
}
