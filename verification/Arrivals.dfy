/** What arrives is what the application is sent: from the request that created a reply channel to the
    message on the request channel, field by field. */
module Arrivals {
  import opened AsgiMessages
  import opened HttpSteps
  import opened Connections
  import opened Protocol
  import opened Delivery

  /** The k-th label is the arrival that created `c`. */
  predicate ArrivesAt(labels: seq<Label>, k: int, c: string) {
    0 <= k < |labels| && labels[k].Arrive? && labels[k].channel == c && Enabled(Exec(labels[..k]), labels[k])
  }

  /** `m` has the fields of the request that arrived with `l`, its own reply channel, no root path, and
      the entity as its body. */
  predicate IsRequestOf(m: AsgiHttpRequestMsg, l: Label)
    requires l.Arrive?
  {
    && m.replyChannel == l.channel && "http.request!" <= l.channel
    && m.httpVersion == l.request.httpVersion && m.httpMethod == l.request.httpMethod
    && m.scheme == l.request.scheme && m.path == l.request.path && m.queryString == l.request.queryString
    && m.rootPath == "" && m.headers == l.request.headers && m.body == l.entity
  }

  lemma AcceptedAsArrived(s: State, l: Label)
    requires l.Arrive? && Enabled(s, l)
    ensures var core := Effect(s, l).core;
            && l.channel in core.conns && IsRequestOf(core.conns[l.channel].base, l)
            && forall c | c in s.core.conns :: c in core.conns && core.conns[c] == s.core.conns[c]
  {
  }

  lemma SendTaskKeepsBase(s: State, l: Label, c: string)
    requires Enabled(s, l) && l.SendTask? && c in s.core.conns
    ensures var core := Effect(s, l).core; c in core.conns && core.conns[c].base == s.core.conns[c].base
  {
  }

  lemma DispatchKeepsBase(core: Core, c: string)
    requires core.pump.Holding? && c in core.conns
    ensures c in DispatchHeld(core).conns && DispatchHeld(core).conns[c].base == core.conns[c].base
  {
  }

  /** No step loses a request or changes the message it stands for. */
  lemma BaseStays(s: State, l: Label, c: string)
    requires Enabled(s, l) && c in s.core.conns
    ensures var core := Effect(s, l).core; c in core.conns && core.conns[c].base == s.core.conns[c].base
  {
    if MovesRequests(l) {
      StepMovesOnly(s, l);
    } else if l.Arrive? {
      AcceptedAsArrived(s, l);
    } else if l.SendTask? {
      SendTaskKeepsBase(s, l, c);
    } else if l.Dispatch? {
      DispatchKeepsBase(s.core, c);
    }
  }

  lemma LaterStill(labels: seq<Label>, k: int, c: string)
    requires labels != [] && ArrivesAt(Init(labels), k, c)
    ensures ArrivesAt(labels, k, c)
  {
    assert Init(labels)[..k] == labels[..k];
  }

  lemma {:induction false} ArrivalOf(labels: seq<Label>, c: string)
    requires c in Exec(labels).core.conns
    ensures exists k :: ArrivesAt(labels, k, c) && IsRequestOf(Exec(labels).core.conns[c].base, labels[k])
  {
    var before, l := Exec(Init(labels)), Last(labels);
    assert labels[..|labels| - 1] == Init(labels);
    if c in before.core.conns {
      ArrivalOf(Init(labels), c);
      var k :| ArrivesAt(Init(labels), k, c) && IsRequestOf(before.core.conns[c].base, Init(labels)[k]);
      LaterStill(labels, k, c);
      if Enabled(before, l) {
        BaseStays(before, l, c);
      }
      assert labels[k] == Init(labels)[k];
    } else {
      CreatedByArrival(before, l, c);
      AcceptedAsArrived(before, l);
      assert ArrivesAt(labels, |labels| - 1, c);
    }
  }

  lemma CreatedByArrival(s: State, l: Label, c: string)
    requires c !in s.core.conns && c in Next(s, l).core.conns
    ensures Enabled(s, l) && l.Arrive? && l.channel == c
  {
    if MovesRequests(l) {
      StepMovesOnly(s, l);
    }
  }

  lemma {:induction false} StaysAfterArrival(labels: seq<Label>, k: int, c: string)
    requires ArrivesAt(labels, k, c)
    ensures c in Exec(labels).core.conns
  {
    var before, l := Exec(Init(labels)), Last(labels);
    if k == |labels| - 1 {
      assert labels[..k] == Init(labels);
      AcceptedAsArrived(before, l);
    } else {
      assert Init(labels)[..k] == labels[..k];
      StaysAfterArrival(Init(labels), k, c);
      if Enabled(before, l) {
        BaseStays(before, l, c);
      }
    }
  }

  /** A reply channel is created only once. */
  lemma OneArrival(labels: seq<Label>, j: int, k: int, c: string)
    requires ArrivesAt(labels, j, c) && ArrivesAt(labels, k, c) && j <= k
    ensures j == k
  {
    if j < k {
      assert labels[..k][..j] == labels[..j];
      StaysAfterArrival(labels[..k], j, c);
    }
  }

  /** What stands for a request is the request that arrived. */
  lemma BaseIsArrived(labels: seq<Label>, k: int, c: string)
    requires ArrivesAt(labels, k, c)
    ensures c in Exec(labels).core.conns && IsRequestOf(Exec(labels).core.conns[c].base, labels[k])
  {
    StaysAfterArrival(labels, k, c);
    ArrivalOf(labels, c);
    var j :| ArrivesAt(labels, j, c) && IsRequestOf(Exec(labels).core.conns[c].base, labels[j]);
    if j <= k {
      OneArrival(labels, j, k, c);
    } else {
      OneArrival(labels, k, j, c);
    }
  }

  lemma SentIsBase(labels: seq<Label>, c: string)
    requires c in Exec(labels).core.conns
    ensures var core := Exec(labels).core;
            RequestsOf(SentOn(core, "http.request"), c) ==
            if IsSent(core.conns[c].h.trace) then [core.conns[c].base] else []
  {
    RequestSentOnce(labels, c);
  }

  /** In every schedule: once a request has arrived, the application is sent at most one message on its
      behalf, and that message has the fields that arrived, the request's own reply channel, an empty
      root path and the whole entity. */
  lemma RequestComesThrough(labels: seq<Label>, k: int, c: string)
    requires ArrivesAt(labels, k, c)
    ensures c in Exec(labels).core.conns
    ensures var core := Exec(labels).core;
            var sent := RequestsOf(SentOn(core, "http.request"), c);
            && |sent| == (if IsSent(core.conns[c].h.trace) then 1 else 0)
            && forall i | 0 <= i < |sent| :: IsRequestOf(sent[i], labels[k])
  {
    BaseIsArrived(labels, k, c);
    SentIsBase(labels, c);
  }
}
