/** Random names and shuffling (AsgiHandlerLib/ChannelLayer.h). */
module ChannelLayer {

  /** The character set: the digits, the capitals and the small letters, in order. */
  function CharsetAt(i: nat): char
    requires i < CHARSET_SIZE
  {
    if i < 10 then '0' + i as char
    else if i < 36 then 'A' + (i - 10) as char
    else 'a' + (i - 36) as char
  }

  const CHARSET_SIZE: nat := 62

  /** max_index of the source, one less than the size: the last character is never drawn. */
  const MAX_INDEX: nat := CHARSET_SIZE - 1

  const RANDOM_LENGTH: nat := 10

  predicate IsDrawable(c: char) {
    '0' <= c <= '9' || 'A' <= c <= 'Z' || 'a' <= c <= 'y'
  }

  /** The drawable characters are exactly those that some draw gives. */
  lemma DrawableCharacters(c: char)
    ensures IsDrawable(c) <==> exists k: nat :: k < MAX_INDEX && CharsetAt(k) == c
  {
    if IsDrawable(c) {
      var k := if c <= '9' then (c - '0') as nat
               else if c <= 'Z' then 10 + (c - 'A') as nat else 36 + (c - 'a') as nat;
      assert CharsetAt(k) == c;
    }
  }

  predicate IsRandomName(s: string) {
    |s| == RANDOM_LENGTH && forall i | 0 <= i < |s| :: IsDrawable(s[i])
  }

  /** Every channel name the module uses has a dot; no random name has. */
  predicate IsChannelName(s: string) {
    '.' in s
  }

  lemma RandomNamesAreNoChannels(s: string)
    requires IsRandomName(s)
    ensures !IsChannelName(s) && 'z' !in s
  {
    assert !IsDrawable('.') && !IsDrawable('z');
  }

  /** The random engine: an endless sequence of draws, and how many have been used. */
  class RandomEngine {
    const draws: nat -> nat
    var used: nat

    constructor (draws: nat -> nat)
      ensures this.draws == draws && used == 0
    {
      this.draws := draws;
      used := 0;
    }

    method Draw(bound: nat) returns (r: nat)
      requires bound > 0
      modifies this`used
      ensures used == old(used) + 1 && r == draws(old(used)) % bound
    {
      r := draws(used) % bound;
      used := used + 1;
    }

    method GenerateRandomAscii(length: nat) returns (s: string)
      modifies this`used
      ensures used == old(used) + length && |s| == length
      ensures forall i | 0 <= i < length :: s[i] == CharsetAt(draws(old(used) + i) % MAX_INDEX)
      ensures length == RANDOM_LENGTH ==> IsRandomName(s)
    {
      s := seq(length, _ => '0');
      var i := 0;
      while i < length
        invariant i <= length == |s| && used == old(used) + i
        invariant forall j | 0 <= j < i :: s[j] == CharsetAt(draws(old(used) + j) % MAX_INDEX)
        invariant forall j | 0 <= j < i :: IsDrawable(s[j])
      {
        var k := Draw(MAX_INDEX);
        s := s[i := CharsetAt(k)];
        i := i + 1;
      }
    }

    /** ChannelLayer::NewChannel */
    method NewChannel(prefix: string) returns (name: string)
      modifies this`used
      ensures prefix <= name && IsRandomName(name[|prefix|..]) && |name| == |prefix| + 10
    {
      var random := GenerateRandomAscii(RANDOM_LENGTH);
      name := prefix + random;
      assert name[|prefix|..] == random;
    }

    /** std::shuffle: every outcome is a rearrangement. */
    method Shuffle(v: seq<string>) returns (r: seq<string>)
      modifies this`used
      ensures multiset(r) == multiset(v)
      ensures r == Shuffled(v, |v|, draws, old(used))
    {
      r := v;
      var i := |v|;
      while i > 1
        invariant 0 <= i <= |v| == |r| && multiset(r) == multiset(v)
        invariant Shuffled(r, i, draws, used) == Shuffled(v, |v|, draws, old(used))
      {
        var j := Draw(i);
        i := i - 1;
        r := r[i := r[j]][j := r[i]];
      }
    }
  }

  // ----- What shuffling can bring about -----

  function Swapped(v: seq<string>, i: nat, j: nat): (r: seq<string>)
    requires i < |v| && j < |v|
    ensures |r| == |v|
  {
    v[i := v[j]][j := v[i]]
  }

  /** The first `i` elements of `v` rearranged by the draws from the `used`-th on. */
  function Shuffled(v: seq<string>, i: nat, draws: nat -> nat, used: nat): seq<string>
    requires i <= |v|
    decreases i
  {
    if i <= 1 then v else Shuffled(Swapped(v, i - 1, draws(used) % i), i - 1, draws, used + 1)
  }

  function ShuffledBy(v: seq<string>, i: nat, choices: seq<nat>): seq<string>
    requires i <= |v| && IsChoice(i, choices)
    decreases i
  {
    if i <= 1 then v else ShuffledBy(Swapped(v, i - 1, choices[0]), i - 1, choices[1..])
  }

  /** One position for each swap, the k-th among the first i - k. */
  predicate IsChoice(i: nat, choices: seq<nat>) {
    |choices| == (if i <= 1 then 0 else i - 1) && forall k | 0 <= k < |choices| :: choices[k] < i - k
  }

  lemma SameInFront(v: seq<string>, r: seq<string>, i: nat)
    requires i <= |v| == |r| && multiset(v) == multiset(r) && v[i..] == r[i..]
    ensures multiset(v[..i]) == multiset(r[..i])
  {
    assert v == v[..i] + v[i..] && r == r[..i] + r[i..];
    assert multiset(v) == multiset(v[..i]) + multiset(v[i..]) && multiset(r) == multiset(r[..i]) + multiset(r[i..]);
    forall x
      ensures multiset(v[..i])[x] == multiset(r[..i])[x]
    {
      assert multiset(v)[x] == multiset(v[..i])[x] + multiset(v[i..])[x];
      assert multiset(r)[x] == multiset(r[..i])[x] + multiset(r[i..])[x];
    }
  }

  lemma OneInFront(v: seq<string>, r: seq<string>)
    requires |v| == |r| >= 1 && multiset(v) == multiset(r) && v[1..] == r[1..]
    ensures v == r
  {
    SameInFront(v, r, 1);
    assert v[..1] == [v[0]] && r[..1] == [r[0]];
    assert v[0] in multiset(r[..1]);
  }

  /** The element that belongs in place `i - 1` is among the first `i`. */
  lemma Place(v: seq<string>, r: seq<string>, i: nat) returns (j: nat)
    requires 1 <= i <= |v| == |r| && multiset(v) == multiset(r) && v[i..] == r[i..]
    ensures j < i && Swapped(v, i - 1, j)[i - 1..] == r[i - 1..]
  {
    SameInFront(v, r, i);
    assert r[..i][i - 1] in multiset(r[..i]);
    assert r[i - 1] in v[..i];
    j :| 0 <= j < i && v[j] == r[i - 1];
    var v' := Swapped(v, i - 1, j);
    assert v'[i - 1..] == [v'[i - 1]] + v'[i..] && r[i - 1..] == [r[i - 1]] + r[i..];
    assert v'[i..] == v[i..];
  }

  lemma SwappedKeeps(v: seq<string>, i: nat, j: nat)
    requires i < |v| && j < |v|
    ensures multiset(Swapped(v, i, j)) == multiset(v)
  {
  }

  lemma {:induction false} SomeChoice(v: seq<string>, i: nat, r: seq<string>) returns (choices: seq<nat>)
    requires i <= |v| == |r| && multiset(v) == multiset(r) && v[i..] == r[i..]
    ensures IsChoice(i, choices) && ShuffledBy(v, i, choices) == r
    decreases i
  {
    if i == 0 {
      choices := [];
      assert v[0..] == v && r[0..] == r;
    } else if i == 1 {
      choices := [];
      OneInFront(v, r);
    } else {
      var j := Place(v, r, i);
      SwappedKeeps(v, i - 1, j);
      var rest := SomeChoice(Swapped(v, i - 1, j), i - 1, r);
      choices := [j] + rest;
      assert choices[1..] == rest;
    }
  }

  lemma {:induction false} ChoicesAreDrawn(v: seq<string>, i: nat, choices: seq<nat>, draws: nat -> nat, used: nat)
    requires i <= |v| && IsChoice(i, choices)
    requires forall k | 0 <= k < |choices| :: draws(used + k) == choices[k]
    ensures Shuffled(v, i, draws, used) == ShuffledBy(v, i, choices)
    decreases i
  {
    if i > 1 {
      assert draws(used + 0) == choices[0] && choices[0] % i == choices[0];
      forall k | 0 <= k < |choices[1..]|
        ensures draws(used + 1 + k) == choices[1..][k]
      {
        assert draws(used + (k + 1)) == choices[k + 1];
      }
      ChoicesAreDrawn(Swapped(v, i - 1, choices[0]), i - 1, choices[1..], draws, used + 1);
    }
  }

  function Drawing(choices: seq<nat>): nat -> nat {
    (k: nat) => if k < |choices| then choices[k] else 0
  }

  /** Every rearrangement is the outcome of some draws, so that no channel is starved by its place. */
  lemma EveryOrderIsDrawn(v: seq<string>, r: seq<string>)
    requires multiset(v) == multiset(r)
    ensures exists draws: nat -> nat :: Shuffled(v, |v|, draws, 0) == r
  {
    SameSize(v, r);
    var choices := SomeChoice(v, |v|, r);
    ChoicesAreDrawn(v, |v|, choices, Drawing(choices), 0);
  }

  lemma SameSize(v: seq<string>, r: seq<string>)
    requires multiset(v) == multiset(r)
    ensures |v| == |r|
  {
    assert |multiset(v)| == |multiset(r)|;
  }
}
