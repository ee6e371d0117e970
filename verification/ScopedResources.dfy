/** Move-only handles (SharedUtils/ScopedResources.h) and a vector of them. */
module ScopedResources {

  /** The operating system's record of CloseHandle calls, in order. */
  class HandleTable {
    var closed: seq<nat>

    constructor ()
      ensures closed == []
    {
      closed := [];
    }

    method CloseHandle(handle: nat)
      modifies this
      ensures closed == old(closed) + [handle]
    {
      closed := closed + [handle];
    }
  }

  /** The null handle. */
  const INVALID: nat := 0

  /** ScopedResource<HANDLE> */
  class ScopedHandle {
    var value: nat

    constructor (value: nat := INVALID)
      ensures this.value == value
    {
      this.value := value;
    }

    predicate IsValid()
      reads this
    {
      value != INVALID
    }

    /** Overwrites without releasing what was held. */
    method Set(v: nat)
      modifies this
      ensures value == v
    {
      value := v;
    }

    method Transfer() returns (v: nat)
      modifies this
      ensures v == old(value) && value == INVALID
    {
      v := value;
      value := INVALID;
    }

    /** Also the destructor. */
    method Release(table: HandleTable)
      modifies this, table
      ensures value == INVALID
      ensures table.closed == old(table.closed) + if old(value) != INVALID then [old(value)] else []
    {
      if IsValid() {
        table.CloseHandle(value);
        value := INVALID;
      }
    }

    /** Move construction. */
    constructor Moved(other: ScopedHandle)
      modifies other
      ensures value == old(other.value) && other.value == INVALID
    {
      value := other.value;
      new;
      other.value := INVALID;
    }

    /** Move assignment. */
    method Assign(other: ScopedHandle)
      modifies this, other
      ensures value == old(other.value)
      ensures other != this ==> other.value == INVALID
    {
      if this != other {
        var v := other.Transfer();
        Set(v);
      }
    }
  }

  function Values(slots: seq<ScopedHandle>): (values: seq<nat>)
    reads slots
    ensures |values| == |slots|
    ensures forall i | 0 <= i < |slots| :: values[i] == slots[i].value
  {
    seq(|slots|, i requires 0 <= i < |slots| reads slots => slots[i].value)
  }

  predicate Distinct<T(==)>(s: seq<T>) {
    forall i, j | 0 <= i < j < |s| :: s[i] != s[j]
  }

  function Without<T>(s: seq<T>, index: nat): seq<T>
    requires index < |s|
  {
    s[..index] + s[index + 1..]
  }

  /** The values while the elements behind `index` move forward, once slot `j` has been emptied. */
  function Shifted(values: seq<nat>, index: nat, j: nat): (r: seq<nat>)
    requires index <= j < |values|
    ensures |r| == |values|
  {
    Without(values, index)[..j] + [if j == index then values[j] else INVALID] + values[j + 1..]
  }

  lemma ShiftedFurther(values: seq<nat>, index: nat, j: nat)
    requires index <= j && j + 1 < |values|
    ensures Shifted(values, index, j)[j + 1] == values[j + 1]
    ensures Shifted(values, index, j)[j := values[j + 1]][j + 1 := INVALID] == Shifted(values, index, j + 1)
  {
    assert Without(values, index)[..j + 1] == Without(values, index)[..j] + [values[j + 1]];
  }

  lemma ShiftedToTheEnd(values: seq<nat>, index: nat)
    requires index < |values|
    ensures Shifted(values, index, index) == values
    ensures var r := Shifted(values, index, |values| - 1);
            && r[..|values| - 1] == Without(values, index)
            && r[|values| - 1] == if index == |values| - 1 then values[index] else INVALID
  {
    assert Without(values, index)[..|values| - 1] == Without(values, index);
  }

  /** One slot takes over from the next; no other slot changes. */
  method MoveForward(slots: seq<ScopedHandle>, j: nat)
    requires Distinct(slots) && j + 1 < |slots|
    modifies slots[j], slots[j + 1]
    ensures Values(slots) == old(Values(slots))[j := old(Values(slots))[j + 1]][j + 1 := INVALID]
  {
    assert forall i | 0 <= i < |slots| && i != j && i != j + 1 :: slots[i] != slots[j] && slots[i] != slots[j + 1];
    assert slots[j] != slots[j + 1];
    slots[j].Assign(slots[j + 1]);
  }

  /** std::vector::erase: the elements behind `index` are move-assigned one slot forward, and the
      last slot is destroyed. The handles that remain are the old ones without the erased one, in
      order; none of them is closed. The erased handle itself is closed exactly when it was the
      last: otherwise it is overwritten, and nobody will ever close it. */
  method Erase(slots: seq<ScopedHandle>, index: nat, table: HandleTable) returns (rest: seq<ScopedHandle>)
    requires Distinct(slots) && index < |slots|
    modifies slots, table
    ensures rest == slots[..|slots| - 1]
    ensures Values(rest) == Without(old(Values(slots)), index)
    ensures var erased := old(Values(slots))[index];
            table.closed == old(table.closed) + if index == |slots| - 1 && erased != INVALID then [erased] else []
  {
    ShiftedToTheEnd(Values(slots), index);
    ShiftForward(slots, index);
    DestroyLast(slots, table);
    rest := slots[..|slots| - 1];
  }

  method ShiftForward(slots: seq<ScopedHandle>, index: nat)
    requires Distinct(slots) && index < |slots|
    modifies slots
    ensures Values(slots) == Shifted(old(Values(slots)), index, |slots| - 1)
  {
    ghost var before := Values(slots);
    ShiftedToTheEnd(before, index);
    var j := index;
    while j + 1 < |slots|
      invariant index <= j < |slots|
      invariant Values(slots) == Shifted(before, index, j)
    {
      ShiftedFurther(before, index, j);
      MoveForward(slots, j);
      j := j + 1;
    }
  }

  /** The last slot is destroyed, which closes what it still owns. */
  method DestroyLast(slots: seq<ScopedHandle>, table: HandleTable)
    requires Distinct(slots) && slots != []
    modifies slots[|slots| - 1], table
    ensures Values(slots[..|slots| - 1]) == old(Values(slots))[..|slots| - 1]
    ensures var last := old(Values(slots))[|slots| - 1];
            table.closed == old(table.closed) + if last != INVALID then [last] else []
  {
    slots[|slots| - 1].Release(table);
  }
}
