/** The constants of a function, with their index (src/chunk.c). */
module Chunks {
  import opened Bytecode
  import opened Machine
  import opened Probing
  import opened Table
  import opened Arrays
  import opened Bits
  import CodeGen

  /** The first constant that the table takes for equal to v, or the number of constants. */
  function FirstSame(env: Env, consts: seq<Value>, v: Value): (i: nat)
    ensures i <= |consts| && (i < |consts| ==> SameValue(env, v, consts[i]))
    ensures forall j | 0 <= j < i :: !SameValue(env, v, consts[j])
  {
    if consts == [] || SameValue(env, v, consts[0]) then 0 else 1 + FirstSame(env, consts[1..], v)
  }

  /** What addConstant does: a string or a number that is there already keeps its index. */
  function WithConstant(env: Env, consts: seq<Value>, v: Value): (r: (seq<Value>, nat))
    ensures consts <= r.0 && r.1 < |r.0| && SameValue(env, v, r.0[r.1])
    ensures if IsKey(env, v) && (exists i :: 0 <= i < |consts| && SameValue(env, v, consts[i])) then r.0 == consts
            else r == (consts + [v], |consts|)
  {
    var i := FirstSame(env, consts, v);
    if IsKey(env, v) && i < |consts| then (consts, i) else (consts + [v], |consts|)
  }

  /** No string or number is in the pool twice. */
  ghost predicate Deduplicated(env: Env, consts: seq<Value>) {
    forall i, j | 0 <= i < j < |consts| && IsKey(env, consts[i]) :: !SameValue(env, consts[i], consts[j])
  }

  lemma StaysDeduplicated(env: Env, consts: seq<Value>, v: Value)
    requires Deduplicated(env, consts)
    ensures Deduplicated(env, WithConstant(env, consts, v).0)
  {
    var consts' := WithConstant(env, consts, v).0;
    forall i, j | 0 <= i < j < |consts'| && IsKey(env, consts'[i]) ensures !SameValue(env, consts'[i], consts'[j]) {
    }
  }

  function AddAll(env: Env, consts: seq<Value>, vs: seq<Value>): seq<Value>
    decreases |vs|
  {
    if vs == [] then consts else AddAll(env, WithConstant(env, consts, vs[0]).0, vs[1..])
  }

  /** Over any sequence of calls the indexes handed out keep their constants, and no string or
      number gets a second one. */
  lemma {:induction false} PoolStable(env: Env, consts: seq<Value>, vs: seq<Value>)
    requires Deduplicated(env, consts)
    ensures consts <= AddAll(env, consts, vs) && Deduplicated(env, AddAll(env, consts, vs))
    decreases |vs|
  {
    if vs != [] {
      StaysDeduplicated(env, consts, vs[0]);
      PoolStable(env, WithConstant(env, consts, vs[0]).0, vs[1..]);
    }
  }

  /** Equal strings or numbers get equal indexes, whatever is added in between. */
  lemma SameIndex(env: Env, consts: seq<Value>, v: Value, vs: seq<Value>, v': Value)
    requires Deduplicated(env, consts) && IsKey(env, v) && SameValue(env, v', v)
    ensures var (c1, i) := WithConstant(env, consts, v); WithConstant(env, AddAll(env, c1, vs), v').1 == i
  {
    var (c1, i) := WithConstant(env, consts, v);
    StaysDeduplicated(env, consts, v);
    PoolStable(env, c1, vs);
    var c2 := AddAll(env, c1, vs);
    assert c2[i] == c1[i];
    FirstSameAt(env, c2, v', i);
  }

  lemma FirstSameAt(env: Env, consts: seq<Value>, v: Value, i: nat)
    requires Deduplicated(env, consts) && IsKey(env, v) && i < |consts| && SameValue(env, v, consts[i])
    ensures FirstSame(env, consts, v) == i
  {
    var j := FirstSame(env, consts, v);
    if j < i {
      SameNorm(env, v, consts[i]);
      SameNorm(env, v, consts[j]);
      SameNorm(env, consts[j], consts[i]);
    }
  }

  /** The compiler's addConstant is this one, for literals: those are their own normal forms. */
  lemma {:induction false} FindIsFirst(env: Env, consts: seq<Value>, v: Value)
    requires Norm(env, v) == v && forall c | c in consts :: Norm(env, c) == c
    ensures CodeGen.Find(consts, v) == FirstSame(env, consts, v)
  {
    if consts != [] {
      SameNorm(env, v, consts[0]);
      assert consts[0] in consts;
      FindIsFirst(env, consts[1..], v);
    }
  }

  lemma AddConstIsWithConstant(env: Env, st: CodeGen.State, v: Value)
    requires IsKey(env, v) && Norm(env, v) == v && forall c | c in st.consts :: Norm(env, c) == c
    ensures CodeGen.AddConst(st, v) ==
        (st.(consts := WithConstant(env, st.consts, v).0), WithConstant(env, st.consts, v).1)
  {
    FindIsFirst(env, st.consts, v);
  }

  // ----- the pool with its index -----

  /** Conversions between sizes and doubles, exact as far as doubles count. */
  datatype Doubles = Doubles(of: nat -> Double, size: Double -> nat)

  const EXACT := 0x20_0000_0000_0000

  ghost predicate ExactAt(d: Doubles, n: nat) { n <= EXACT ==> d.size(d.of(n)) == n }

  ghost predicate EntryOf(env: Env, d: Doubles, consts: seq<Value>, m: map<Value, Value>, i: nat) {
    i < |consts| && IsKey(env, consts[i]) ==> Norm(env, consts[i]) in m && m[Norm(env, consts[i])] == Num(d.of(i))
  }

  ghost predicate KeyOf(env: Env, consts: seq<Value>, m: map<Value, Value>, k: Value) {
    k in m ==> exists i :: 0 <= i < |consts| && IsKey(env, consts[i]) && Norm(env, consts[i]) == k
  }

  /** The table has exactly the strings and numbers of the array, each with its index. */
  ghost predicate Indexed(env: Env, d: Doubles, consts: seq<Value>, m: map<Value, Value>) {
    && (forall i: nat {:trigger EntryOf(env, d, consts, m, i)} :: EntryOf(env, d, consts, m, i))
    && (forall k {:trigger KeyOf(env, consts, m, k)} :: KeyOf(env, consts, m, k))
  }

  lemma IndexedFind(env: Env, d: Doubles, consts: seq<Value>, m: map<Value, Value>, v: Value)
    requires Indexed(env, d, consts, m) && Deduplicated(env, consts) && IsKey(env, v)
    ensures var i := FirstSame(env, consts, v);
      (Norm(env, v) in m <==> i < |consts|) && (i < |consts| ==> m[Norm(env, v)] == Num(d.of(i)))
  {
    var i := FirstSame(env, consts, v);
    assert KeyOf(env, consts, m, Norm(env, v));
    if Norm(env, v) in m {
      var j :| 0 <= j < |consts| && IsKey(env, consts[j]) && Norm(env, consts[j]) == Norm(env, v);
      SameNorm(env, v, consts[j]);
      FirstSameAt(env, consts, v, j);
    }
    if i < |consts| {
      SameNorm(env, v, consts[i]);
      KeySame(env, v, consts[i]);
      assert EntryOf(env, d, consts, m, i);
    }
  }

  lemma KeySame(env: Env, a: Value, b: Value)
    requires SameValue(env, a, b)
    ensures IsKey(env, a) <==> IsKey(env, b)
  {
  }

  lemma IndexedAdd(env: Env, d: Doubles, consts: seq<Value>, m: map<Value, Value>, v: Value)
    requires Indexed(env, d, consts, m) && FirstSame(env, consts, v) == |consts| && IsKey(env, v)
    ensures Indexed(env, d, consts + [v], m[Norm(env, v) := Num(d.of(|consts|))])
  {
    var consts', m' := consts + [v], m[Norm(env, v) := Num(d.of(|consts|))];
    forall i: nat ensures EntryOf(env, d, consts', m', i) {
      assert EntryOf(env, d, consts, m, i);
      if i < |consts| {
        SameNorm(env, v, consts[i]);
      }
    }
    forall k ensures KeyOf(env, consts', m', k) {
      assert KeyOf(env, consts, m, k);
      if k == Norm(env, v) {
        assert consts'[|consts|] == v;
      } else if k in m {
        var i :| 0 <= i < |consts| && IsKey(env, consts[i]) && Norm(env, consts[i]) == k;
        assert consts'[i] == consts[i];
      }
    }
  }

  lemma IndexedOther(env: Env, d: Doubles, consts: seq<Value>, m: map<Value, Value>, v: Value)
    requires Indexed(env, d, consts, m) && !IsKey(env, v)
    ensures Indexed(env, d, consts + [v], m)
  {
    var consts' := consts + [v];
    forall i: nat ensures EntryOf(env, d, consts', m, i) {
      assert EntryOf(env, d, consts, m, i);
    }
    forall k ensures KeyOf(env, consts', m, k) {
      assert KeyOf(env, consts, m, k);
      if k in m {
        var i :| 0 <= i < |consts| && IsKey(env, consts[i]) && Norm(env, consts[i]) == k;
        assert consts'[i] == consts[i];
      }
    }
  }

  class Chunk {
    const d: Doubles
    var count: nat
    var code: array<Instr>
    var lines: array<nat>
    const constants: Array
    const constantIndices: Table

    ghost predicate Valid()
      reads this, constants, constants.values, constantIndices, constantIndices.entries
    {
      && count <= code.Length == lines.Length
      && (forall n: nat {:trigger ExactAt(d, n)} :: ExactAt(d, n))
      && constants.Valid() && constantIndices.Valid() && constants.values != constantIndices.entries
      && Indexed(constantIndices.env, d, constants.Contents(), constantIndices.m)
      && Deduplicated(constantIndices.env, constants.Contents())
    }

    /** initChunk. */
    constructor (d: Doubles, constants: Array, constantIndices: Table)
      requires forall n: nat {:trigger ExactAt(d, n)} :: ExactAt(d, n)
      requires constants.Valid() && constants.count == 0 && constantIndices.Valid() && constantIndices.m == map[]
      requires constants.values != constantIndices.entries
      ensures Valid() && count == 0 && this.constants == constants
      ensures this.constantIndices == constantIndices && this.d == d
    {
      this.d, this.constants, this.constantIndices := d, constants, constantIndices;
      count := 0;
      code := new Instr[0](_ => Instr(Jump, 0, 0));
      lines := new nat[0](_ => 0);
      new;
      assert constants.Contents() == [];
    }

    /** writeChunk: one more instruction, with its line. */
    method WriteChunk(opcode: Instr, line: nat) returns (at: nat)
      requires Valid()
      modifies `count, `code, `lines, code, lines
      ensures Valid() && at == old(count) && code[..count] == old(code[..count]) + [opcode]
      ensures lines[..count] == old(lines[..count]) + [line]
      ensures code.Length >= old(code.Length) && (code == old(code) || fresh(code))
      ensures (lines == old(lines) || fresh(lines))
    {
      hide Indexed, Deduplicated;
      if code.Length < count + 1 {
        var capacity := GrowCapacity(code.Length);
        code := Reallocated(code, capacity, opcode);
        lines := Reallocated(lines, capacity, line);
      }
      at := count;
      code[count], lines[count] := opcode, line;
      count := count + 1;
    }

    /** addConstant. */
    method AddConstant(value: Value) returns (index: nat)
      requires Valid() && constants.count < EXACT
      modifies constants, constants.values, constantIndices, constantIndices.entries
      ensures Valid()
      ensures (constants.Contents(), index) == WithConstant(constantIndices.env, old(constants.Contents()), value)
    {
      hide Indexed, Deduplicated, WithConstant, FirstSame;
      ghost var env, consts, m := constantIndices.env, constants.Contents(), constantIndices.m;
      WithConstantIs(env, consts, value);
      StaysDeduplicated(env, consts, value);
      if IsKey(constantIndices.env, value) {
        IndexedFind(env, d, consts, m, value);
        var found, ret := constantIndices.Get(value);
        if found {
          assert ExactAt(d, FirstSame(env, consts, value));
          return d.size(ret.n);
        }
        IndexedAdd(env, d, consts, m, value);
        var _ := constantIndices.Set(value, Num(d.of(constants.count)));
      } else {
        IndexedOther(env, d, consts, m, value);
      }
      constants.Append(value);
      return constants.count - 1;
    }
  }

  lemma WithConstantIs(env: Env, consts: seq<Value>, v: Value)
    ensures WithConstant(env, consts, v) ==
        if IsKey(env, v) && FirstSame(env, consts, v) < |consts|
        then (consts, FirstSame(env, consts, v))
        else (consts + [v], |consts|)
    ensures FirstSame(env, consts, v) <= |consts|
  {
  }

  /** GROW_ARRAY; junk stands for what the new memory holds. */
  method Reallocated<T>(a: array<T>, capacity: nat, junk: T) returns (grown: array<T>)
    requires capacity >= a.Length
    ensures fresh(grown) && grown.Length == capacity && grown[..a.Length] == a[..]
  {
    grown := new T[capacity](_ => junk);
    var i := 0;
    while i < a.Length
      invariant i <= a.Length && grown[..i] == a[..i]
    {
      grown[i] := a[i];
      i := i + 1;
    }
  }
}
