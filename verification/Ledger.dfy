/** A history of what was taken from one queue, in order, and what became of each entry. */
module Ledger {

  datatype Fate =
    | Kept      // passed on towards its receiver
    | Expired   // its time to live had run out
    | Dropped   // nobody was registered for it when it was dispatched

  datatype History<+P> = Start | Then(earlier: History<P>, payload: P, fate: Fate) {

    /** Everything taken, in order. */
    function Payloads(): seq<P> {
      if Start? then [] else earlier.Payloads() + [payload]
    }

    /** What was passed on, in order. */
    function Passed(): seq<P> {
      if Start? then [] else earlier.Passed() + if fate == Kept then [payload] else []
    }

    predicate Lossless() {
      Then? ==> fate == Kept && earlier.Lossless()
    }

    /** All of `payloads` leave the queue because they have expired. */
    function Purged(payloads: seq<P>): (r: History<P>)
      ensures r.Payloads() == Payloads() + payloads
      ensures r.Passed() == Passed()
    {
      if payloads == [] then this
      else
        var n := |payloads| - 1;
        assert payloads == payloads[..n] + [payloads[n]];
        Then(Purged(payloads[..n]), payloads[n], Expired)
    }

    /** The last entry that was passed on turns out to be dropped. */
    function LastDropped(): (r: History<P>)
      requires Passed() != []
      ensures r.Payloads() == Payloads()
      ensures Passed() == r.Passed() + [Passed()[|Passed()| - 1]]
    {
      if fate == Kept then this.(fate := Dropped)
      else this.(earlier := earlier.LastDropped())
    }
  }

  /** Nothing was lost exactly when everything taken was passed on. */
  lemma {:induction false} LosslessPassesAll<P>(h: History<P>)
    ensures |h.Passed()| <= |h.Payloads()|
    ensures h.Lossless() ==> h.Passed() == h.Payloads()
    ensures |h.Passed()| == |h.Payloads()| ==> h.Lossless()
  {
    if h.Then? {
      LosslessPassesAll(h.earlier);
    }
  }
}
