/** Growable arrays (src/object.c, src/array.c). */
module Arrays {
  import opened Bits
  import opened Machine

  /** Element idx is set; a gap is filled with nil. */
  function SetAt(s: seq<Value>, idx: nat, v: Value): (r: seq<Value>)
    ensures |r| == (if idx < |s| then |s| else idx + 1)
    ensures forall i | 0 <= i < |r| :: r[i] == if i == idx then v else if i < |s| then s[i] else Nil
  {
    if idx < |s| then s[idx := v] else s + seq(idx - |s|, _ => Nil) + [v]
  }

  /** The capacity that setArray asks for has room for the index. */
  lemma GrownFits(size: nat, n: nat)
    requires size == 0 ==> n == 0
    requires size >= 1 ==> size <= n
    ensures size < GrowCapacity(n)
  {
  }

  class Array {
    /** The capacity is the length of values. */
    var values: array<Value>
    var count: nat

    ghost predicate Valid()
      reads this
    {
      count <= values.Length
    }

    function Contents(): seq<Value>
      requires Valid()
      reads this, values
    {
      values[..count]
    }

    /** newArray: the elements are what is in the memory. */
    constructor (count: nat)
      requires count <= Pow2(SIZE_BITS - 1)
      ensures Valid() && fresh(values) && this.count == count
    {
      var capacity := 0;
      if count != 0 {
        capacity := RoundUpPow2(count);
      }
      this.count := count;
      values := new Value[capacity];
    }

    /** GROW_ARRAY: what fits into the new memory is copied. */
    method Grow(capacity: nat)
      requires Valid() && capacity >= values.Length
      modifies `values
      ensures Valid() && fresh(values) && values.Length == capacity && Contents() == old(Contents())
    {
      var grown := new Value[capacity];
      var i := 0;
      while i < values.Length
        invariant values == old(values) && i <= values.Length <= grown.Length
        invariant fresh(grown) && values[..] == old(values[..])
        invariant forall j | 0 <= j < i :: grown[j] == values[j]
      {
        grown[i] := values[i];
        i := i + 1;
      }
      values := grown;
      assert Contents() == old(Contents());
    }

    /** The first half of setArray: the capacity exceeds the index. */
    method MakeRoom(idx: nat)
      requires Valid() && idx <= Pow2(SIZE_BITS - 1)
      modifies `values
      ensures Valid() && Contents() == old(Contents()) && values.Length > idx
      ensures values == old(values) || (fresh(values) && values.Length > old(values.Length))
    {
      hide Pow2, IsPow2;
      if idx >= values.Length {
        var n := RoundUpPow2(idx);
        GrownFits(idx, n);
        Grow(GrowCapacity(n));
      }
    }

    /** setArray. */
    method SetArray(idx: int, v: Value)
      requires Valid() && 0 <= idx <= Pow2(SIZE_BITS - 1)
      modifies this, values
      ensures Valid() && Contents() == SetAt(old(Contents()), idx, v)
      ensures values.Length >= old(values.Length) && values.Length > idx && (values == old(values) || fresh(values))
    {
      hide Pow2, IsPow2;
      MakeRoom(idx);
      ghost var s, a := Contents(), values;
      var i := count;
      while i < idx
        invariant values == a && count <= i && (i <= idx || i == count)
        invariant Valid() && count == |s| && idx < values.Length
        invariant forall j | 0 <= j < |s| :: values[j] == s[j]
        invariant forall j | |s| <= j < i && j < values.Length :: values[j] == Nil
      {
        values[i] := Nil;
        i := i + 1;
      }
      values[idx] := v;
      if idx >= count {
        count := idx + 1;
      }
      assert Contents() == SetAt(s, idx, v);
    }

    /** getArray: fails when there is no such element. */
    method GetArray(idx: int) returns (fails: bool, v: Value)
      requires Valid()
      ensures fails <==> !(0 <= idx < |Contents()|)
      ensures !fails ==> v == Contents()[idx]
    {
      if idx < 0 || idx >= count {
        return true, Nil;
      }
      return false, values[idx];
    }

    /** writeValueArray. */
    method Append(v: Value)
      requires Valid()
      modifies this, values
      ensures Valid() && Contents() == old(Contents()) + [v]
      ensures values.Length >= old(values.Length) && (values == old(values) || fresh(values))
    {
      if values.Length < count + 1 {
        Grow(GrowCapacity(values.Length));
      }
      ghost var s := Contents();
      values[count] := v;
      count := count + 1;
      assert Contents() == s + [v];
    }
  }

  /** duplicateArray. */
  method Duplicate(source: Array) returns (dest: Array)
    requires source.Valid() && source.count <= Pow2(SIZE_BITS - 1)
    ensures dest.Valid() && fresh(dest) && fresh(dest.values) && dest.Contents() == source.Contents()
  {
    dest := new Array(source.count);
    var i := 0;
    while i < source.count
      invariant i <= source.count == dest.count && dest.Valid() && source.Valid() && fresh(dest) && fresh(dest.values)
      invariant forall j | 0 <= j < i :: dest.values[j] == source.values[j]
    {
      dest.values[i] := source.values[i];
      i := i + 1;
    }
  }
}
