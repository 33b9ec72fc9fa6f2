/** The bitmap: bytes changed in place under a mutex that cannot be taken twice. */
module Bitmaps {
  import opened Bits
  import opened Wrappers

  /** How a call ends: it returns, it panics, or it waits for the mutex forever. */
  datatype Outcome = Done | Panic | Stuck

  ghost predicate Within(s: set<nat>, n: nat) {
    forall i :: i in s ==> i < n
  }

  class Bitmap {
    var held: bool  // the mutex is held by a call that waits forever
    const bits: array<bv8>
    const size: nat

    /** The unused bits of the last byte stay zero. */
    ghost predicate Valid()
      reads bits
    {
      && bits.Length == (size + 7) / 8
      && Within(Contents(), size)
    }

    ghost function Contents(): set<nat>
      reads bits
    {
      Ones(bits[..])
    }

    predicate InRange(index: int) { 0 <= index < size }

    constructor (size: nat)
      ensures Valid() && fresh(bits) && this.size == size && Contents() == {} && !held
    {
      this.size := size;
      bits := new bv8[(size + 7) / 8](_ => 0);
      held := false;
      new;
      assert bits[..] == seq(bits.Length, _ => 0);
      NoOnes(bits[..]);
    }

    /** What a call that needs an index in range and the mutex comes to. */
    function Ends(index: int): Outcome
      reads this
    {
      if !InRange(index) then Panic else if held then Stuck else Done
    }

    method Set(index: int) returns (o: Outcome)
      requires Valid()
      modifies bits
      ensures Valid() && o == Ends(index)
      ensures Contents() == if o.Done? then old(Contents()) + {index} else old(Contents())
    {
      if index < 0 || index >= size { return Panic; }
      if held { return Stuck; }
      OneIndexChanges(bits[..], index);
      ghost var was := bits[..];
      bits[index / 8] := bits[index / 8] | Mask(index % 8);
      assert bits[..] == WithOne(was, index);
      assert Contents() == Ones(was) + {index};
      return Done;
    }

    method Clear(index: int) returns (o: Outcome)
      requires Valid()
      modifies bits
      ensures Valid() && o == Ends(index)
      ensures Contents() == if o.Done? then old(Contents()) - {index} else old(Contents())
    {
      if index < 0 || index >= size { return Panic; }
      if held { return Stuck; }
      OneIndexChanges(bits[..], index);
      ghost var was := bits[..];
      bits[index / 8] := bits[index / 8] & !Mask(index % 8);
      assert bits[..] == WithZero(was, index);
      assert Contents() == Ones(was) - {index};
      return Done;
    }

    method IsSet(index: int) returns (o: Outcome, r: bool)
      requires Valid()
      ensures o == Ends(index)
      ensures o.Done? ==> (r <==> index in Contents())
    {
      if index < 0 || index >= size { return Panic, false; }
      if held { return Stuck, false; }
      r := bits[index / 8] & Mask(index % 8) != 0;
      assert r <==> Has(bits[..], index);
      return Done, r;
    }

    method Count() returns (o: Outcome, count: nat)
      requires Valid()
      ensures o == if held then Stuck else Done
      ensures o.Done? ==> count == |Contents()|
    {
      if held { return Stuck, 0; }
      count := 0;
      for i := 0 to bits.Length
        invariant count == SumOfCounts(bits[..i])
      {
        assert bits[..i + 1][..i] == bits[..i];
        count := count + OnesCount(bits[i]);
      }
      assert bits[..bits.Length] == bits[..];
      CountsAddUp(bits[..]);
      return Done, count;
    }

    /** MSet takes the mutex and then calls Set, which takes it again. No index is
        ever set: the call returns only for an empty list, panics if the first index
        is out of range (its deferred unlock then frees the mutex), and otherwise
        waits for itself, holding the mutex for good. */
    method MSet(indexes: seq<int>) returns (o: Outcome)
      requires Valid()
      modifies this`held, bits
      ensures Valid() && Contents() == old(Contents())
      ensures o == if old(held) then Stuck else if indexes == [] then Done
                   else if !InRange(indexes[0]) then Panic else Stuck
      ensures held <==> o.Stuck?
    {
      if held { return Stuck; }
      held := true;
      for k := 0 to |indexes|
        invariant k == 0 && held && Valid() && Contents() == old(Contents())
      {
        o := Set(indexes[k]);
        if o.Panic? { held := false; }
        return;
      }
      held := false;
      return Done;
    }
  }

  lemma NoOnes(bytes: seq<bv8>)
    requires forall k :: 0 <= k < |bytes| ==> bytes[k] == 0
    ensures Ones(bytes) == {}
  {
    forall i: nat | i < 8 * |bytes| ensures !Has(bytes, i) {
      BitOfZero(i % 8);
    }
  }

  /** A negative size panics. */
  method NewBitmap(size: int) returns (b: Option<Bitmap>)
    ensures b.Some? <==> size >= 0
    ensures b.Some? ==> fresh(b.value) && fresh(b.value.bits) && b.value.Valid() && b.value.size == size
    ensures b.Some? ==> b.value.Contents() == {} && !b.value.held
  {
    if size < 0 { return None; }
    var m := new Bitmap(size);
    return Some(m);
  }
}
