/** The hash table (src/table.c): entries in an array, two values for each slot. */
module Table {
  import opened Bits
  import opened Machine
  import opened Probing

  // ----- findEntry -----

  lemma FoundKey(env: Env, s: seq<Value>, b: nat, m: map<Value, Value>, at: map<Value, nat>, key: Value, i: nat)
    requires Represents(env, s, b, m, at) && i < Pow2(b) && Live(s, i) && SameValue(env, key, s[2 * i])
    ensures Found(env, s, b, at, key, i)
  {
    SameNorm(env, key, s[2 * i]);
    assert SlotOk(env, s, b, at, i);
  }

  /** The search ended at an empty slot; t is that slot or a tombstone passed before. */
  lemma FoundFree(env: Env, s: seq<Value>, b: nat, m: map<Value, Value>, at: map<Value, nat>, key: Value, d: nat,
                  t: nat)
    requires Represents(env, s, b, m, at) && d < Pow2(b) && Passed(env, s, key, Home(env, key, b), d, Pow2(b))
    requires !Full(s, Place(Home(env, key, b), d, Pow2(b)))
    requires t < Pow2(b) && !Live(s, t) && Path(s, Home(env, key, b), t, Pow2(b))
    ensures Found(env, s, b, at, key, t)
  {
    NotThere(env, s, b, m, at, key, d);
  }

  /** One slot further. */
  lemma PassOne(env: Env, s: seq<Value>, b: nat, key: Value, d: nat, e: nat)
    requires |s| == 2 * Pow2(b) && d < Pow2(b) && e < Pow2(b) && !Full(s, e)
    requires var h := Home(env, key, b);
      && Passed(env, s, key, h, d, Pow2(b)) && d <= Dist(h, e, Pow2(b))
      && Full(s, Place(h, d, Pow2(b)))
      && (Live(s, Place(h, d, Pow2(b))) ==> !SameValue(env, key, s[2 * Place(h, d, Pow2(b))]))
    ensures var h := Home(env, key, b);
      && d + 1 <= Dist(h, e, Pow2(b)) && Passed(env, s, key, h, d + 1, Pow2(b))
      && And(2 * Place(h, d, Pow2(b)) + 2, 2 * Pow2(b) - 1) == 2 * Place(h, d + 1, Pow2(b))
  {
    hide And, Low, Pow2;
    var h, n := Home(env, key, b), Pow2(b);
    if Live(s, Place(h, d, n)) {
      SameNorm(env, key, s[2 * Place(h, d, n)]);
    }
    assert PassedAt(env, s, key, h, d, n);
    forall c: nat | c < d + 1 ensures PassedAt(env, s, key, h, c, n) {
    }
    StaysBefore(env, s, key, h, d + 1, e, n);
    AndStep(Place(h, d, n), b);
  }

  lemma StartAt(env: Env, s: seq<Value>, b: nat, key: Value)
    requires |s| == 2 * Pow2(b)
    ensures And(Hash(env, key), 2 * Pow2(b) - 2) == 2 * Place(Home(env, key, b), 0, Pow2(b))
    ensures Passed(env, s, key, Home(env, key, b), 0, Pow2(b))
  {
    AndEven(Hash(env, key), b);
  }

  /** The slot of a key, or the first tombstone or the empty slot that ends its search.
      The loop stops because some slot e is empty. */
  method FindEntry(env: Env, entries: array<Value>, capacityMask: nat, key: Value,
                   ghost b: nat, ghost m: map<Value, Value>, ghost at: map<Value, nat>) returns (index: nat)
    requires entries.Length == capacityMask + 1 == 2 * Pow2(b) && IsKey(env, key)
    requires Represents(env, entries[..], b, m, at) && Used(entries[..], Pow2(b)) < Pow2(b)
    ensures index % 2 == 0 && Found(env, entries[..], b, at, key, index / 2)
  {
    hide And, Low, Pow2, Used, Represents, Passed, Path, Found, Norm, Hash, Home;
    ghost var s, n, h := entries[..], Pow2(b), Home(env, key, b);
    ghost var e := SomeEmpty(s, n);
    StartAt(env, s, b, key);
    index := And(Hash(env, key), capacityMask - 1);
    var tombstone: int := -1;
    ghost var d: nat := 0;
    while true
      invariant d <= Dist(h, e, n) && index == 2 * Place(h, d, n) && Passed(env, s, key, h, d, n)
      invariant tombstone != -1 ==> tombstone >= 0 && tombstone % 2 == 0 && tombstone / 2 < n
                                    && !Live(s, tombstone / 2) && Path(s, h, tombstone / 2, n)
      decreases Dist(h, e, n) - d
    {
      assert s[index] == entries[index] && s[index + 1] == entries[index + 1];
      PassedPath(env, s, key, h, d, n);
      if entries[index] == Nil {
        if entries[index + 1] == Nil {
          FoundFree(env, s, b, m, at, key, d, if tombstone != -1 then tombstone / 2 else index / 2);
          return if tombstone != -1 then tombstone else index;
        } else if tombstone == -1 {
          tombstone := index;
        }
      } else if SameValue(env, key, entries[index]) {
        FoundKey(env, s, b, m, at, key, index / 2);
        return index;
      }
      PassOne(env, s, b, key, d, e);
      index := And(index + 2, capacityMask);
      d := d + 1;
    }
  }

  // ----- adjustCapacity -----

  ghost predicate CopiedAt(m: map<Value, Value>, at: map<Value, nat>, fm: map<Value, Value>, i: nat, k: Value) {
    (k in fm <==> k in m && k in at && at[k] < i) && (k in fm && k in m ==> fm[k] == m[k])
  }

  /** Exactly the entries of the slots before i have been copied. */
  ghost predicate Copied(m: map<Value, Value>, at: map<Value, nat>, fm: map<Value, Value>, i: nat) {
    forall k {:trigger CopiedAt(m, at, fm, i, k)} :: CopiedAt(m, at, fm, i, k)
  }

  ghost predicate NoTombstoneAt(s: seq<Value>, i: nat) { 2 * i + 1 < |s| && Full(s, i) ==> Live(s, i) }

  ghost predicate NoTombstones(s: seq<Value>) { forall i: nat {:trigger NoTombstoneAt(s, i)} :: NoTombstoneAt(s, i) }

  /** The new entries after part of the old ones has been copied. */
  ghost predicate Copying(env: Env, f: seq<Value>, nb: nat, fm: map<Value, Value>, fat: map<Value, nat>, fill: nat,
                          s: seq<Value>, b: nat, m: map<Value, Value>, at: map<Value, nat>, i: nat) {
    && Represents(env, f, nb, fm, fat) && NoTombstones(f) && Copied(m, at, fm, i)
    && 2 * i <= |s| && fill == Used(f, Pow2(nb)) <= Used(s, i)
  }

  lemma CopyOne(env: Env, f: seq<Value>, nb: nat, fm: map<Value, Value>, fat: map<Value, nat>, fill: nat,
                s: seq<Value>, b: nat, m: map<Value, Value>, at: map<Value, nat>, i: nat, e: nat)
    requires Copying(env, f, nb, fm, fat, fill, s, b, m, at, i)
    requires Represents(env, s, b, m, at) && i < Pow2(b) && Live(s, i) && Found(env, f, nb, fat, s[2 * i], e)
    ensures var k := Norm(env, s[2 * i]);
      Copying(env, WithEntry(f, e, s[2 * i], s[2 * i + 1]), nb, fm[k := s[2 * i + 1]], fat[k := e],
          fill + 1, s, b, m, at, i + 1)
  {
    hide Pow2, Path, Home;
    var key, k := s[2 * i], Norm(env, s[2 * i]);
    assert SlotOk(env, s, b, at, i);
    assert EntryOk(env, s, m, at, k);
    assert CopiedAt(m, at, fm, i, k);
    assert NoTombstoneAt(f, e);
    PutRepresents(env, f, nb, fm, fat, key, s[2 * i + 1], e);
    UsedPut(f, e, key, s[2 * i + 1], Pow2(nb));
    var f', fm' := WithEntry(f, e, key, s[2 * i + 1]), fm[k := s[2 * i + 1]];
    var next := i + 1;
    forall q ensures CopiedAt(m, at, fm', next, q) {
      assert CopiedAt(m, at, fm, i, q);
      assert q in m ==> EntryOk(env, s, m, at, q);
    }
    forall j: nat ensures NoTombstoneAt(f', j) {
      assert NoTombstoneAt(f, j);
    }
  }

  lemma CopyNone(env: Env, f: seq<Value>, nb: nat, fm: map<Value, Value>, fat: map<Value, nat>, fill: nat,
                 s: seq<Value>, b: nat, m: map<Value, Value>, at: map<Value, nat>, i: nat)
    requires Copying(env, f, nb, fm, fat, fill, s, b, m, at, i)
    requires Represents(env, s, b, m, at) && i < Pow2(b) && !Live(s, i)
    ensures Copying(env, f, nb, fm, fat, fill, s, b, m, at, i + 1)
  {
    hide Pow2, Path, Home, NoTombstones;
    var next := i + 1;
    forall q ensures CopiedAt(m, at, fm, next, q) {
      assert CopiedAt(m, at, fm, i, q);
      assert q in m ==> EntryOk(env, s, m, at, q);
    }
  }

  lemma CopyStart(env: Env, f: seq<Value>, nb: nat, s: seq<Value>, b: nat, m: map<Value, Value>, at: map<Value, nat>)
    requires |f| == 2 * Pow2(nb) && forall i | 0 <= i < |f| :: f[i] == Nil
    ensures Copying(env, f, nb, map[], map[], 0, s, b, m, at, 0)
  {
    forall i: nat | i < Pow2(nb) ensures SlotOk(env, f, nb, map[], i) {
    }
    NoneUsed(f, Pow2(nb));
  }

  lemma CopyEnd(env: Env, f: seq<Value>, nb: nat, fm: map<Value, Value>, fat: map<Value, nat>, fill: nat,
                s: seq<Value>, b: nat, m: map<Value, Value>, at: map<Value, nat>, i: nat)
    requires Copying(env, f, nb, fm, fat, fill, s, b, m, at, i)
    requires if m == map[] then true else Represents(env, s, b, m, at) && i == Pow2(b)
    ensures fm == m
  {
    forall k ensures k in fm <==> k in m {
      assert CopiedAt(m, at, fm, i, k);
      if k in m {
        assert EntryOk(env, s, m, at, k);
      }
    }
    forall k | k in fm ensures fm[k] == m[k] {
      assert CopiedAt(m, at, fm, i, k);
    }
  }

  lemma {:induction false} UsedMono(s: seq<Value>, i: nat, n: nat)
    requires i <= n && 2 * n <= |s|
    ensures Used(s, i) <= Used(s, n) && (i < n && Full(s, i) ==> Used(s, i) < Used(s, n))
    decreases n
  {
    if i < n {
      UsedMono(s, i, n - 1);
    }
  }

  /** The loop of adjustCapacity. */
  method CopyEntries(env: Env, entries: array<Value>, capacityMask: nat, moved: array<Value>, newMask: nat, count: nat,
                     ghost nb: nat, ghost b: nat, ghost m: map<Value, Value>, ghost at: map<Value, nat>)
      returns (fill: nat, ghost fat: map<Value, nat>)
    requires entries != moved && moved.Length == newMask + 1 == 2 * Pow2(nb)
    requires forall i | 0 <= i < moved.Length :: moved[i] == Nil
    requires if capacityMask == 0 then m == map[] && entries.Length == 0
             else entries.Length == capacityMask + 1 == 2 * Pow2(b) && Represents(env, entries[..], b, m, at) &&
                  count == Used(entries[..], Pow2(b))
    requires 4 * count <= 3 * (newMask / 2)
    modifies moved
    ensures Represents(env, moved[..], nb, m, fat)
    ensures fill == Used(moved[..], Pow2(nb)) <= count && NoTombstones(moved[..])
  {
    hide Copying, Represents, Used, Pow2, Found;
    ghost var s, n := entries[..], entries.Length / 2;
    ghost var fm: map<Value, Value> := map[];
    fat := map[];
    CopyStart(env, moved[..], nb, s, b, m, at);
    fill := 0;
    var i := 1;
    while i <= capacityMask
      invariant i % 2 == 1 && i / 2 <= n && (i <= capacityMask ==> i / 2 < n) && (i > capacityMask ==> i / 2 == n)
      invariant Copying(env, moved[..], nb, fm, fat, fill, s, b, m, at, i / 2)
      invariant entries[..] == s
      decreases capacityMask + 1 - i
    {
      ghost var j := i / 2;
      assert s[2 * j] == entries[i - 1] && s[2 * j + 1] == entries[i];
      if entries[i - 1] != Nil {
        CopyRoom(env, moved[..], nb, fm, fat, fill, s, b, m, at, j, newMask, count);
        ghost var f := moved[..];
        var e := FindEntry(env, moved, newMask, entries[i - 1], nb, fm, fat);
        FoundBound(env, f, nb, fat, entries[i - 1], e / 2);
        moved[e] := entries[i - 1];
        moved[e + 1] := entries[i];
        assert moved[..] == WithEntry(f, e / 2, s[2 * j], s[2 * j + 1]);
        CopyOne(env, f, nb, fm, fat, fill, s, b, m, at, j, e / 2);
        ghost var k := Norm(env, s[2 * j]);
        fm := fm[k := s[2 * j + 1]];
        fat := fat[k := e / 2];
        fill := fill + 1;
      } else {
        CopyNone(env, moved[..], nb, fm, fat, fill, s, b, m, at, j);
      }
      i := i + 2;
    }
    CopyEnd(env, moved[..], nb, fm, fat, fill, s, b, m, at, i / 2);
    CopyCount(env, moved[..], nb, fm, fat, fill, s, b, m, at, i / 2);
  }

  class Table {
    const env: Env
    var count: nat
    var capacityMask: nat
    var entries: array<Value>

    ghost var b: nat
    /** What the table maps the normal forms of its keys to. */
    ghost var m: map<Value, Value>
    ghost var at: map<Value, nat>

    /** count is live plus tombstones, and stays within the load limit. */
    ghost predicate Valid()
      reads this, entries
    {
      && entries.Length == capacityMask + 1 == 2 * Pow2(b)
      && Represents(env, entries[..], b, m, at)
      && count == Used(entries[..], Pow2(b)) && 4 * count <= 3 * (capacityMask / 2)
    }

    ghost predicate Unallocated()
      reads this, entries
    {
      capacityMask == 0 && entries.Length == 0 && count == 0 && m == map[] && at == map[]
    }

    /** One more entry would be over the load that is allowed. */
    predicate Full()
      reads `count, `capacityMask
    {
      4 * (count + 1) > 3 * (capacityMask / 2)
    }

    /** There is always an empty slot, so every search ends. */
    lemma HasRoom()
      requires Valid()
      ensures Used(entries[..], Pow2(b)) < Pow2(b)
    {
    }

    /** tableGet. */
    method Get(key: Value) returns (found: bool, value: Value)
      requires Valid() && IsKey(env, key)
      ensures found == (Norm(env, key) in m)
      ensures found ==> value == m[Norm(env, key)]
    {
      HasRoom();
      var e := FindEntry(env, entries, capacityMask, key, b, m, at);
      assert Norm(env, key) in m ==> EntryOk(env, entries[..], m, at, Norm(env, key));
      if entries[e] == Nil {
        return false, Nil;
      }
      return true, entries[e + 1];
    }

    /** adjustCapacity: the live entries move to a new array, the tombstones do not. */
    method AdjustCapacity(newMask: nat, ghost nb: nat)
      requires Valid() || Unallocated()
      requires newMask + 1 == 2 * Pow2(nb) && newMask >= capacityMask && 4 * count <= 3 * (newMask / 2)
      modifies this
      ensures Valid() && m == old(m) && capacityMask == newMask && count <= old(count) && fresh(entries)
      ensures NoTombstones(entries[..])
    {
      hide Copying, Represents, Used, Pow2;
      var moved := new Value[newMask + 1](_ => Nil);
      var fill;
      ghost var fat;
      fill, fat := CopyEntries(env, entries, capacityMask, moved, newMask, count, nb, b, m, at);
      entries, capacityMask, count := moved, newMask, fill;
      b, at := nb, fat;
    }

    /** newTable. */
    constructor (env: Env, size: nat)
      requires size <= Pow2(SIZE_BITS - 2)
      ensures Valid() && m == map[] && this.env == env && fresh(entries)
    {
      this.env := env;
      count, capacityMask := 0, 0;
      entries := new Value[0](_ => Nil);
      m, at := map[], map[];
      new;
      var c := if size == 0 then 1 else size;
      Pow2Double(SIZE_BITS - 1);
      var cap := RoundUpPow2(2 * c);
      ghost var k: nat :| cap == Pow2(k);
      AdjustCapacity(cap - 1, k - 1);
    }

    /** tableSet grows the table first when the load limit would be passed. */
    method MakeRoom()
      requires Valid()
      modifies this
      ensures Valid() && m == old(m) && 4 * (count + 1) <= 3 * (capacityMask / 2)
      ensures entries == old(entries) || fresh(entries)
    {
      hide Represents, Used, Pow2;
      if Full() {
        var capacity := GrowCapacity(capacityMask + 1);
        SmallPowers();
        Pow2Double(b + 1);
        AdjustCapacity(capacity - 1, if capacityMask + 1 < 8 then 2 else b + 1);
      }
    }

    /** tableSet. */
    method Set(key: Value, value: Value) returns (isNewKey: bool)
      requires Valid() && IsKey(env, key)
      modifies this, entries
      ensures Valid() && m == old(m)[Norm(env, key) := value]
      ensures isNewKey == (Norm(env, key) !in old(m))
      ensures entries == old(entries) || fresh(entries)
    {
      hide Represents, Pow2, Found, Used;
      MakeRoom();
      HasRoom();
      ghost var s := entries[..];
      var e := FindEntry(env, entries, capacityMask, key, b, m, at);
      FoundBound(env, s, b, at, key, e / 2);
      FoundNew(env, s, b, m, at, key, e / 2);
      isNewKey := PlaceEntry(e, key, value);
    }

    /** Its end, at the slot that findEntry found. */
    method PlaceEntry(e: nat, key: Value, value: Value) returns (isNewKey: bool)
      requires Valid() && IsKey(env, key) && 4 * (count + 1) <= 3 * (capacityMask / 2)
      requires e % 2 == 0 && e / 2 < Pow2(b) && Found(env, entries[..], b, at, key, e / 2)
      requires (entries[e] == Nil) == (Norm(env, key) !in m)
      modifies entries, `count, `m, `at
      ensures Valid() && m == old(m)[Norm(env, key) := value]
      ensures isNewKey == (Norm(env, key) !in old(m))
    {
      hide Represents, Pow2, Found, Used, Norm;
      ghost var s := entries[..];
      isNewKey := entries[e] == Nil;
      if isNewKey && entries[e + 1] == Nil {
        count := count + 1;
      }
      entries[e] := key;
      entries[e + 1] := value;
      assert entries[..] == WithEntry(s, e / 2, key, value);
      PutRepresents(env, s, b, m, at, key, value, e / 2);
      UsedPut(s, e / 2, key, value, Pow2(b));
      m, at := m[Norm(env, key) := value], at[Norm(env, key) := e / 2];
    }

    /** tableDelete. */
    method Delete(key: Value) returns (deleted: bool)
      requires Valid() && IsKey(env, key)
      modifies entries, `m, `at
      ensures Valid() && m == old(m) - {Norm(env, key)} && at == old(at) - {Norm(env, key)}
      ensures deleted == (Norm(env, key) in old(m))
    {
      ghost var s, k := entries[..], Norm(env, key);
      EmptyTable(env, s, b, m, at, k);
      hide Represents, Pow2, Used;
      if count == 0 {
        return false;
      }
      HasRoom();
      var e := FindEntry(env, entries, capacityMask, key, b, m, at);
      FoundBound(env, s, b, at, key, e / 2);
      FoundNew(env, s, b, m, at, key, e / 2);
      if entries[e] == Nil {
        return false;
      }
      PlaceTombstone(e);
      return true;
    }

    /** The end of tableDelete, at the slot of a key. */
    method PlaceTombstone(e: nat)
      requires Valid() && e % 2 == 0 && e / 2 < Pow2(b) && Live(entries[..], e / 2)
      modifies entries, `m, `at
      ensures Valid()
      ensures var k := Norm(env, old(entries[..])[e]); m == old(m) - {k} && at == old(at) - {k}
    {
      hide Represents, Pow2, Used;
      ghost var s := entries[..];
      ghost var k := Norm(env, s[e]);
      entries[e] := Nil;
      entries[e + 1] := Bool(true);
      assert entries[..] == WithEntry(s, e / 2, Nil, Bool(true));
      RemoveRepresents(env, s, b, m, at, e / 2);
      UsedPut(s, e / 2, Nil, Bool(true), Pow2(b));
      m, at := m - {k}, at - {k};
    }

    /** tableRemoveWhite: keys that are not marked black go. */
    method RemoveWhite(black: set<nat>)
      requires Valid() && forall k | k in m :: k.Obj?
      modifies entries, `m, `at
      ensures Valid() && forall k {:trigger k in m} :: k in m <==> k in old(m) && k.id in black
      ensures forall k | k in m :: m[k] == old(m)[k]
    {
      hide Represents, Pow2, Used;
      ghost var m0, at0 := m, at;
      KeysLocated(env, entries[..], b, m, at, 0);
      var i := 1;
      while i <= capacityMask
        invariant i % 2 == 1 && Valid() && m.Keys <= m0.Keys
        invariant forall k {:trigger Swept(m0, at0, m, at, black, i / 2, k)} | k in m0 ::
          Swept(m0, at0, m, at, black, i / 2, k)
        decreases capacityMask + 1 - i
      {
        ghost var j, m1, at1 := i / 2, m, at;
        KeyAt(env, entries[..], b, m, at, j);
        KeysLocated(env, entries[..], b, m, at, j);
        if entries[i - 1] != Nil && entries[i - 1].id !in black {
          var _ := Delete(entries[i - 1]);
        }
        ghost var next := j + 1;
        forall k | k in m0 ensures Swept(m0, at0, m, at, black, next, k) {
          assert Swept(m0, at0, m1, at1, black, j, k);
        }
        i := i + 2;
      }
      forall k ensures k in m <==> k in m0 && k.id in black {
        assert k in m0 ==> Swept(m0, at0, m, at, black, i / 2, k);
      }
      forall k | k in m ensures m[k] == m0[k] {
        assert Swept(m0, at0, m, at, black, i / 2, k);
      }
    }

    /** tableFindString: the string with this content, if there is one. */
    method FindString(text: nat -> string, chars: string, hash: nat) returns (r: int)
      requires Valid() && forall k | k in m :: k.Obj? && env.isString(k.id)
      requires forall k | k in m && text(k.id) == chars :: Hash(env, k) == hash
      ensures r >= 0 ==> Obj(r) in m && text(r) == chars
      ensures r < 0 ==> forall k | k in m :: text(k.id) != chars
    {
      hide And, Low, Pow2, Used, Represents, Hash, Missed;
      HasRoom();
      ghost var s, n, h := entries[..], Pow2(b), Low(hash / 2, b);
      ghost var e := SomeEmpty(s, n);
      AndEven(hash, b);
      var index := And(hash, capacityMask - 1);
      ghost var d: nat := 0;
      MissedNone(env, s, text, chars, h, n);
      while true
        invariant d <= Dist(h, e, n) && index == 2 * Place(h, d, n) && Missed(env, s, text, chars, h, d, n)
        decreases Dist(h, e, n) - d
      {
        assert s[index] == entries[index] && s[index + 1] == entries[index + 1];
        KeyAt(env, s, b, m, at, index / 2);
        if entries[index] == Nil {
          if entries[index + 1] == Nil {
            NoText(env, s, b, m, at, text, chars, hash, d);
            return -1;
          }
        } else if text(entries[index].id) == chars {
          return entries[index].id;
        }
        MissOne(env, s, b, text, chars, h, d, e);
        index := And(index + 2, capacityMask);
        d := d + 1;
      }
    }
  }

  /** tableAddAll. */
  method AddAll(from: Table, to: Table)
    requires from.Valid() && to.Valid() && from != to && from.entries != to.entries && from.env == to.env
    modifies to, to.entries
    ensures to.Valid() && to.m == old(to.m) + from.m
    ensures to.entries == old(to.entries) || fresh(to.entries)
  {
    hide Represents, Pow2, Used;
    ghost var m0, fm, fat := to.m, from.m, from.at;
    KeysLocated(from.env, from.entries[..], from.b, from.m, from.at, 0);
    AddedNone(m0, fm, fat);
    var i := 1;
    while i <= from.capacityMask
      invariant i % 2 == 1 && to.Valid() && Added(m0, fm, fat, i / 2, to.m) && i <= from.capacityMask + 2
      invariant to.entries == old(to.entries) || fresh(to.entries)
      invariant to.entries != from.entries && from.Valid() && unchanged(from) && unchanged(from.entries)
      decreases from.capacityMask + 1 - i
    {
      ghost var j := i / 2;
      KeyAt(from.env, from.entries[..], from.b, from.m, from.at, j);
      if from.entries[i - 1] != Nil {
        ghost var k, m1 := Norm(from.env, from.entries[i - 1]), to.m;
        var _ := to.Set(from.entries[i - 1], from.entries[i]);
        AddedOne(m0, fm, fat, j, m1, k, from.entries[..], from.env, from.b);
      } else {
        AddedSkip(m0, fm, fat, j, to.m, from.entries[..], from.env, from.b);
      }
      i := i + 2;
    }
    AddedAll(m0, fm, fat, i / 2, to.m);
  }

  /** duplicateTable. */
  method Duplicate(source: Table) returns (dest: Table)
    requires source.Valid() && (source.capacityMask + 1) / 2 <= Pow2(SIZE_BITS - 2)
    ensures dest.Valid() && fresh(dest) && fresh(dest.entries) && dest.m == source.m && dest.env == source.env
  {
    dest := new Table(source.env, (source.capacityMask + 1) / 2);
    AddAll(source, dest);
    assert map[] + source.m == source.m;
  }

  /** The key k of a table whose slots before i have been swept. */
  ghost predicate Swept(m0: map<Value, Value>, at0: map<Value, nat>, m: map<Value, Value>, at: map<Value, nat>,
                        black: set<nat>, i: nat, k: Value) {
    && k.Obj? && k in m0 && k in at0 && (k in m <==> k.id in black || i <= at0[k])
    && (k in m ==> m[k] == m0[k] && k in at && at[k] == at0[k])
  }

  ghost predicate AddedAt(m0: map<Value, Value>, fm: map<Value, Value>, fat: map<Value, nat>, i: nat, m: map<Value,
                          Value>, k: Value) {
    if k in fm && k in fat && fat[k] < i then k in m && m[k] == fm[k]
    else (k in m <==> k in m0) && (k in m && k in m0 ==> m[k] == m0[k])
  }

  /** m is m0 with the entries of the slots before i. */
  ghost predicate Added(m0: map<Value, Value>, fm: map<Value, Value>, fat: map<Value, nat>, i: nat, m: map<Value,
                        Value>) {
    forall k {:trigger AddedAt(m0, fm, fat, i, m, k)} :: AddedAt(m0, fm, fat, i, m, k)
  }

  lemma AddedNone(m0: map<Value, Value>, fm: map<Value, Value>, fat: map<Value, nat>)
    ensures Added(m0, fm, fat, 0, m0)
  {
  }

  lemma AddedOne(m0: map<Value, Value>, fm: map<Value, Value>, fat: map<Value, nat>, i: nat, m: map<Value, Value>,
                 k: Value,
                 s: seq<Value>, env: Env, b: nat)
    requires Added(m0, fm, fat, i, m) && Represents(env, s, b, fm, fat)
    requires i < Pow2(b) && Live(s, i) && k == Norm(env, s[2 * i])
    ensures Added(m0, fm, fat, i + 1, m[k := s[2 * i + 1]])
  {
    var next, m' := i + 1, m[k := s[2 * i + 1]];
    assert SlotOk(env, s, b, fat, i);
    forall q ensures AddedAt(m0, fm, fat, next, m', q) {
      assert AddedAt(m0, fm, fat, i, m, q);
      assert q in fm ==> EntryOk(env, s, fm, fat, q);
    }
  }

  lemma AddedSkip(m0: map<Value, Value>, fm: map<Value, Value>, fat: map<Value, nat>, i: nat, m: map<Value, Value>,
                  s: seq<Value>, env: Env, b: nat)
    requires Added(m0, fm, fat, i, m) && Represents(env, s, b, fm, fat) && i < Pow2(b) && !Live(s, i)
    ensures Added(m0, fm, fat, i + 1, m)
  {
    var next := i + 1;
    forall q ensures AddedAt(m0, fm, fat, next, m, q) {
      assert AddedAt(m0, fm, fat, i, m, q);
      assert q in fm ==> EntryOk(env, s, fm, fat, q);
    }
  }

  lemma AddedAll(m0: map<Value, Value>, fm: map<Value, Value>, fat: map<Value, nat>, i: nat, m: map<Value, Value>)
    requires Added(m0, fm, fat, i, m) && forall k | k in fm :: k in fat && fat[k] < i
    ensures m == m0 + fm
  {
    forall k ensures (k in m <==> k in m0 + fm) && (k in m ==> m[k] == (m0 + fm)[k]) {
      assert AddedAt(m0, fm, fat, i, m, k);
    }
  }

  /** What is known of slot i. */
  lemma KeyAt(env: Env, s: seq<Value>, b: nat, m: map<Value, Value>, at: map<Value, nat>, i: nat)
    requires Represents(env, s, b, m, at) && i < Pow2(b)
    ensures |s| == 2 * Pow2(b)
    ensures Live(s, i) ==>
        IsKey(env, s[2 * i]) && Norm(env, s[2 * i]) in m && Norm(env, s[2 * i]) in at &&
        at[Norm(env, s[2 * i])] == i
    ensures Live(s, i) && Norm(env, s[2 * i]).Obj? ==> Norm(env, s[2 * i]) == s[2 * i]
    ensures forall k | k in m && at[k] == i :: Live(s, i) && Norm(env, s[2 * i]) == k
  {
    assert SlotOk(env, s, b, at, i);
    forall k | k in m && at[k] == i ensures Live(s, i) && Norm(env, s[2 * i]) == k {
      assert EntryOk(env, s, m, at, k);
    }
  }

  lemma KeysLocated(env: Env, s: seq<Value>, b: nat, m: map<Value, Value>, at: map<Value, nat>, i: nat)
    requires Represents(env, s, b, m, at)
    ensures m.Keys == at.Keys && forall k | k in m :: at[k] < Pow2(b)
  {
    forall k | k in m ensures at[k] < Pow2(b) {
      assert EntryOk(env, s, m, at, k);
    }
  }

  // ----- searching by content -----

  ghost predicate MissedAt(env: Env, s: seq<Value>, text: nat -> string, chars: string, h: nat, d: nat, n: nat) {
    FullAt(s, h, d, n) &&
      (var k := s[2 * Place(h, d, n)]; k.Obj? ==> text(k.id) != chars)
  }

  ghost predicate Missed(env: Env, s: seq<Value>, text: nat -> string, chars: string, h: nat, d: nat, n: nat) {
    forall c: nat {:trigger MissedAt(env, s, text, chars, h, c, n)} | c < d :: MissedAt(env, s, text, chars, h, c, n)
  }

  lemma MissedNone(env: Env, s: seq<Value>, text: nat -> string, chars: string, h: nat, n: nat)
    ensures Missed(env, s, text, chars, h, 0, n)
  {
  }

  lemma MissOne(env: Env, s: seq<Value>, b: nat, text: nat -> string, chars: string, h: nat, d: nat, e: nat)
    requires |s| == 2 * Pow2(b) && h < Pow2(b) && e < Pow2(b) && !Full(s, e) && d <= Dist(h, e, Pow2(b))
    requires Missed(env, s, text, chars, h, d, Pow2(b)) && Full(s, Place(h, d, Pow2(b)))
    requires var k := s[2 * Place(h, d, Pow2(b))]; k.Obj? ==> text(k.id) != chars
    ensures d + 1 <= Dist(h, e, Pow2(b)) && Missed(env, s, text, chars, h, d + 1, Pow2(b))
    ensures And(2 * Place(h, d, Pow2(b)) + 2, 2 * Pow2(b) - 1) == 2 * Place(h, d + 1, Pow2(b))
  {
    hide And, Low, Pow2;
    assert MissedAt(env, s, text, chars, h, d, Pow2(b));
    AndStep(Place(h, d, Pow2(b)), b);
  }

  /** An empty slot ends the search: no key has this content. */
  lemma NoText(env: Env, s: seq<Value>, b: nat, m: map<Value, Value>, at: map<Value, nat>, text: nat -> string,
               chars: string,
               hash: nat, d: nat)
    requires Represents(env, s, b, m, at) && forall k | k in m :: k.Obj?
    requires forall k | k in m && text(k.id) == chars :: Hash(env, k) == hash
    requires var h := Low(hash / 2, b);
      d < Pow2(b) && Missed(env, s, text, chars, h, d, Pow2(b)) && !Full(s, Place(h, d, Pow2(b)))
    ensures forall k | k in m :: text(k.id) != chars
  {
    var n, h := Pow2(b), Low(hash / 2, b);
    forall k | k in m ensures text(k.id) != chars {
      if text(k.id) == chars {
        var i := at[k];
        assert EntryOk(env, s, m, at, k);
        assert SlotOk(env, s, b, at, i);
        assert Norm(env, s[2 * i]) == s[2 * i] == k;
        var di := Dist(h, i, n);
        if di < d {
          MissedThere(env, s, text, chars, h, di, d, n);
        } else if d < di {
          PathThere(s, h, i, d, n);
        }
      }
    }
  }

  lemma MissedThere(env: Env, s: seq<Value>, text: nat -> string, chars: string, h: nat, c: nat, d: nat, n: nat)
    requires Missed(env, s, text, chars, h, d, n) && c < d
    ensures MissedAt(env, s, text, chars, h, c, n)
  {
  }

  lemma SmallPowers()
    ensures Pow2(2) == 4
  {
  }

  lemma FoundBound(env: Env, s: seq<Value>, b: nat, at: map<Value, nat>, k: Value, i: nat)
    requires Found(env, s, b, at, k, i)
    ensures |s| == 2 * Pow2(b) && i < Pow2(b)
  {
  }

  /** The slot found is live exactly when the key is there. */
  lemma FoundNew(env: Env, s: seq<Value>, b: nat, m: map<Value, Value>, at: map<Value, nat>, k: Value, i: nat)
    requires Represents(env, s, b, m, at) && Found(env, s, b, at, k, i)
    ensures Live(s, i) <==> Norm(env, k) in m
    ensures Live(s, i) ==> Norm(env, s[2 * i]) == Norm(env, k)
  {
    if Norm(env, k) in m {
      assert EntryOk(env, s, m, at, Norm(env, k));
    }
  }

  /** A table that counts no slot has no key. */
  lemma EmptyTable(env: Env, s: seq<Value>, b: nat, m: map<Value, Value>, at: map<Value, nat>, k: Value)
    requires Represents(env, s, b, m, at)
    ensures Used(s, Pow2(b)) == 0 ==> k !in m
  {
    if k in m {
      assert EntryOk(env, s, m, at, k);
      assert SlotOk(env, s, b, at, at[k]);
      UsedMono(s, at[k], Pow2(b));
    }
  }

  /** The new array is not full while entries are copied to it. */
  lemma CopyRoom(env: Env, f: seq<Value>, nb: nat, fm: map<Value, Value>, fat: map<Value, nat>, fill: nat,
                 s: seq<Value>, b: nat, m: map<Value, Value>, at: map<Value, nat>, i: nat, newMask: nat, count: nat)
    requires Copying(env, f, nb, fm, fat, fill, s, b, m, at, i)
    requires Represents(env, s, b, m, at) && i < Pow2(b) && Live(s, i) && count == Used(s, Pow2(b))
    requires newMask + 1 == 2 * Pow2(nb) && 4 * count <= 3 * (newMask / 2)
    ensures Represents(env, f, nb, fm, fat) && Used(f, Pow2(nb)) < Pow2(nb) && IsKey(env, s[2 * i])
  {
    assert SlotOk(env, s, b, at, i);
    UsedMono(s, i, Pow2(b));
  }

  lemma CopyCount(env: Env, f: seq<Value>, nb: nat, fm: map<Value, Value>, fat: map<Value, nat>, fill: nat,
                  s: seq<Value>, b: nat, m: map<Value, Value>, at: map<Value, nat>, i: nat)
    requires Copying(env, f, nb, fm, fat, fill, s, b, m, at, i)
    ensures Represents(env, f, nb, fm, fat) && |f| == 2 * Pow2(nb) && fill == Used(f, Pow2(nb)) <= Used(s, i)
    ensures (i == 0 ==> fill == 0) && NoTombstones(f)
  {
  }
}
