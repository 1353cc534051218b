/** Slots of an open-addressing table, as sequences (src/table.c). */
module Probing {
  import opened Bits
  import opened Machine

  /** What the table asks of its values: which objects are strings, the hash of a key, and
      the equality of doubles, given by a normal form.  NaN is not a key. */
  datatype Env = Env(isString: nat -> bool, code: Value -> nat, norm: Double -> Double)

  function Norm(env: Env, v: Value): Value {
    if v.Num? then Num(env.norm(v.n)) else v
  }

  /** The hash respects equality. */
  function Hash(env: Env, v: Value): nat { env.code(Norm(env, v)) }

  predicate IsKey(env: Env, v: Value) { v.Num? || v.Str? || (v.Obj? && env.isString(v.id)) }

  /** valuesEqual. */
  predicate SameValue(env: Env, a: Value, b: Value) {
    if a.Num? && b.Num? then env.norm(a.n) == env.norm(b.n) else a == b
  }

  lemma SameNorm(env: Env, a: Value, b: Value)
    ensures SameValue(env, a, b) <==> Norm(env, a) == Norm(env, b)
    ensures SameValue(env, a, b) <==> a == b || (a.Num? && b.Num? && env.norm(a.n) == env.norm(b.n))
  {
  }

  // ----- slots -----

  /** Slot i holds the key at 2i and its value after it; a nil key is an empty slot, or a
      tombstone if the value is not nil. */
  predicate Live(s: seq<Value>, i: nat)
    requires 2 * i + 1 < |s|
  {
    s[2 * i] != Nil
  }

  predicate Full(s: seq<Value>, i: nat)
    requires 2 * i + 1 < |s|
  {
    s[2 * i] != Nil || s[2 * i + 1] != Nil
  }

  /** Where probing starts, in a table of 2^b slots. */
  function Home(env: Env, k: Value, b: nat): (h: nat)
    ensures h < Pow2(b)
  {
    Low(Hash(env, k) / 2, b)
  }

  /** The slot d places after h, in a circle of n; and how far apart slots are. */
  function Place(h: nat, d: nat, n: nat): (i: nat)
    requires h < n && d < n
    ensures i < n
  {
    if h + d < n then h + d else h + d - n
  }

  function Dist(h: nat, i: nat, n: nat): (d: nat)
    requires h < n && i < n
    ensures d < n && Place(h, d, n) == i
  {
    if i >= h then i - h else i + n - h
  }

  ghost predicate FullAt(s: seq<Value>, h: nat, d: nat, n: nat) {
    h < n && d < n && |s| == 2 * n && Full(s, Place(h, d, n))
  }

  /** No empty slot lies between h and i. */
  ghost predicate Path(s: seq<Value>, h: nat, i: nat, n: nat) {
    h < n && i < n && forall d: nat {:trigger FullAt(s, h, d, n)} | d < Dist(h, i, n) :: FullAt(s, h, d, n)
  }

  ghost predicate SlotOk(env: Env, s: seq<Value>, b: nat, at: map<Value, nat>, i: nat) {
    |s| == 2 * Pow2(b) && i < Pow2(b)
    && (Live(s, i) ==>
          && IsKey(env, s[2 * i]) && Norm(env, s[2 * i]) in at && at[Norm(env, s[2 * i])] == i
          && Path(s, Home(env, s[2 * i], b), i, Pow2(b)))
  }

  ghost predicate EntryOk(env: Env, s: seq<Value>, m: map<Value, Value>, at: map<Value, nat>, k: Value) {
    k in at && k in m && 2 * at[k] + 1 < |s| && Live(s, at[k]) &&
    Norm(env, s[2 * at[k]]) == k && s[2 * at[k] + 1] == m[k]
  }

  /** The slots represent the map m from normal forms of keys; `at` says where each key is. */
  ghost predicate Represents(env: Env, s: seq<Value>, b: nat, m: map<Value, Value>, at: map<Value, nat>) {
    && |s| == 2 * Pow2(b) && m.Keys == at.Keys
    && (forall k {:trigger EntryOk(env, s, m, at, k)} | k in m :: EntryOk(env, s, m, at, k))
    && (forall i: nat {:trigger SlotOk(env, s, b, at, i)} | i < Pow2(b) :: SlotOk(env, s, b, at, i))
  }

  /** The slot for a key: its own if it has one, else one where it may be put. */
  ghost predicate Found(env: Env, s: seq<Value>, b: nat, at: map<Value, nat>, k: Value, i: nat) {
    && |s| == 2 * Pow2(b) && i < Pow2(b)
    && if Norm(env, k) in at then i == at[Norm(env, k)] else !Live(s, i) && Path(s, Home(env, k, b), i, Pow2(b))
  }

  function WithEntry(s: seq<Value>, i: nat, k: Value, v: Value): seq<Value>
    requires 2 * i + 1 < |s|
  {
    s[2 * i := k][2 * i + 1 := v]
  }

  /** Slots only become fuller. */
  lemma PathKept(s: seq<Value>, s': seq<Value>, h: nat, i: nat, n: nat)
    requires Path(s, h, i, n) && |s'| == |s| == 2 * n
    requires forall j: nat | j < n && Full(s, j) :: Full(s', j)
    ensures Path(s', h, i, n)
  {
    forall d: nat | d < Dist(h, i, n) ensures FullAt(s', h, d, n) {
      assert FullAt(s, h, d, n);
    }
  }

  lemma FullKept(s: seq<Value>, i: nat, k: Value, v: Value, n: nat)
    requires |s| == 2 * n && i < n && (k != Nil || v != Nil)
    ensures forall j: nat | j < n && Full(s, j) :: Full(WithEntry(s, i, k, v), j)
  {
  }

  /** Storing a key at the slot found for it. */
  lemma PutRepresents(env: Env, s: seq<Value>, b: nat, m: map<Value, Value>, at: map<Value, nat>, k: Value,
                      v: Value, i: nat)
    requires Represents(env, s, b, m, at) && Found(env, s, b, at, k, i) && IsKey(env, k)
    ensures Represents(env, WithEntry(s, i, k, v), b, m[Norm(env, k) := v], at[Norm(env, k) := i])
  {
    var s', m', at', key := WithEntry(s, i, k, v), m[Norm(env, k) := v], at[Norm(env, k) := i], Norm(env, k);
    FullKept(s, i, k, v, Pow2(b));
    assert key in m ==> EntryOk(env, s, m, at, key);
    forall q | q in m' ensures EntryOk(env, s', m', at', q) {
      if q != key {
        assert EntryOk(env, s, m, at, q);
        assert SlotOk(env, s, b, at, i);
      }
    }
    assert SlotOk(env, s, b, at, i);
    forall j: nat | j < Pow2(b) ensures SlotOk(env, s', b, at', j) {
      assert SlotOk(env, s, b, at, j);
      if j == i {
        if key in at {
          PathKept(s, s', Home(env, s[2 * i], b), i, Pow2(b));
        } else {
          PathKept(s, s', Home(env, k, b), i, Pow2(b));
        }
      } else if Live(s, j) {
        PathKept(s, s', Home(env, s[2 * j], b), j, Pow2(b));
      }
    }
  }

  /** A tombstone takes the key away and keeps every path. */
  lemma RemoveRepresents(env: Env, s: seq<Value>, b: nat, m: map<Value, Value>, at: map<Value, nat>, i: nat)
    requires Represents(env, s, b, m, at) && i < Pow2(b) && Live(s, i)
    ensures var key := Norm(env, s[2 * i]);
      Represents(env, WithEntry(s, i, Nil, Bool(true)), b, m - {key}, at - {key})
  {
    var key := Norm(env, s[2 * i]);
    var s', m', at' := WithEntry(s, i, Nil, Bool(true)), m - {key}, at - {key};
    FullKept(s, i, Nil, Bool(true), Pow2(b));
    assert SlotOk(env, s, b, at, i);
    forall q | q in m' ensures EntryOk(env, s', m', at', q) {
      assert EntryOk(env, s, m, at, q);
    }
    forall j: nat | j < Pow2(b) ensures SlotOk(env, s', b, at', j) {
      assert SlotOk(env, s, b, at, j);
      if j != i && Live(s, j) {
        PathKept(s, s', Home(env, s[2 * j], b), j, Pow2(b));
      }
    }
  }

  // ----- counting -----

  /** The slots before i that are not empty: `count` of the source. */
  function Used(s: seq<Value>, i: nat): (u: nat)
    requires 2 * i <= |s|
    ensures u <= i
  {
    if i == 0 then 0 else Used(s, i - 1) + (if Full(s, i - 1) then 1 else 0)
  }

  lemma {:induction false} UsedPut(s: seq<Value>, i: nat, k: Value, v: Value, n: nat)
    requires 2 * n <= |s| && 2 * i + 1 < |s| && (k != Nil || v != Nil)
    ensures Used(WithEntry(s, i, k, v), n) == Used(s, n) + (if i < n && !Full(s, i) then 1 else 0)
    decreases n
  {
    if n > 0 {
      UsedPut(s, i, k, v, n - 1);
    }
  }

  /** Fewer used slots than slots: one is empty. */
  lemma {:induction false} SomeEmpty(s: seq<Value>, n: nat) returns (e: nat)
    requires 2 * n <= |s| && Used(s, n) < n
    ensures e < n && !Full(s, e)
    decreases n
  {
    if !Full(s, n - 1) {
      e := n - 1;
    } else {
      e := SomeEmpty(s, n - 1);
    }
  }

  lemma {:induction false} NoneUsed(s: seq<Value>, n: nat)
    requires 2 * n <= |s| && forall i | 0 <= i < |s| :: s[i] == Nil
    ensures Used(s, n) == 0
    decreases n
  {
    if n > 0 {
      NoneUsed(s, n - 1);
    }
  }

  // ----- probing -----

  ghost predicate PassedAt(env: Env, s: seq<Value>, k: Value, h: nat, d: nat, n: nat) {
    FullAt(s, h, d, n) && !(Live(s, Place(h, d, n)) && Norm(env, s[2 * Place(h, d, n)]) == Norm(env, k))
  }

  /** d slots from the home of k have been passed: none is empty and none has the key. */
  ghost predicate Passed(env: Env, s: seq<Value>, k: Value, h: nat, d: nat, n: nat) {
    forall c: nat {:trigger PassedAt(env, s, k, h, c, n)} | c < d :: PassedAt(env, s, k, h, c, n)
  }

  lemma PassedThere(env: Env, s: seq<Value>, k: Value, h: nat, c: nat, d: nat, n: nat)
    requires Passed(env, s, k, h, d, n) && c < d
    ensures PassedAt(env, s, k, h, c, n)
  {
  }

  lemma PathThere(s: seq<Value>, h: nat, i: nat, d: nat, n: nat)
    requires Path(s, h, i, n) && d < Dist(h, i, n)
    ensures FullAt(s, h, d, n)
  {
  }

  /** An empty slot on the way from home: the key is nowhere. */
  lemma NotThere(env: Env, s: seq<Value>, b: nat, m: map<Value, Value>, at: map<Value, nat>, k: Value, d: nat)
    requires Represents(env, s, b, m, at) && d < Pow2(b)
    requires Passed(env, s, k, Home(env, k, b), d, Pow2(b))
    requires !Full(s, Place(Home(env, k, b), d, Pow2(b)))
    ensures Norm(env, k) !in at
  {
    var key, n, h := Norm(env, k), Pow2(b), Home(env, k, b);
    if key in at {
      var i := at[key];
      assert EntryOk(env, s, m, at, key);
      assert SlotOk(env, s, b, at, i);
      assert Home(env, s[2 * i], b) == h;
      var di := Dist(h, i, n);
      if di < d {
        PassedThere(env, s, k, h, di, d, n);
      } else if d < di {
        PathThere(s, h, i, d, n);
      }
    }
  }

  lemma PassedPath(env: Env, s: seq<Value>, k: Value, h: nat, d: nat, n: nat)
    requires h < n && d < n && |s| == 2 * n && Passed(env, s, k, h, d, n)
    ensures Path(s, h, Place(h, d, n), n)
  {
    forall c: nat | c < Dist(h, Place(h, d, n), n) ensures FullAt(s, h, c, n) {
      assert PassedAt(env, s, k, h, c, n);
    }
  }

  /** Probing does not go past an empty slot. */
  lemma StaysBefore(env: Env, s: seq<Value>, k: Value, h: nat, d: nat, e: nat, n: nat)
    requires h < n && e < n && |s| == 2 * n && Passed(env, s, k, h, d, n) && !Full(s, e)
    ensures d <= Dist(h, e, n)
  {
    if d > Dist(h, e, n) {
      PassedThere(env, s, k, h, Dist(h, e, n), d, n);
    }
  }
}
