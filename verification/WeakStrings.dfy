/** Strings in the heap and in the table: one object for each content, over any interleaving of
    allocations and collections (src/xanString.c, src/table.c, src/memory.c, src/vm.c). */
module WeakStrings {
  import opened Heap
  import opened Collector
  import opened Sites
  import Interning

  lemma EntriesAreKeys(b: Body, os: set<Obj>)
    requires b.Tab?
    ensures forall o {:trigger Ref(o)} | o in os :: Ref(o) in b.entries <==> o in KeysOf(b)
  {
    forall o | o in os ensures Ref(o) in b.entries <==> o in KeysOf(b) {
      EntryIsKey(b, o);
    }
  }

  lemma EntryIsKey(b: Body, o: Obj)
    requires b.Tab?
    ensures Ref(o) in b.entries <==> o in KeysOf(b)
  {
    if Ref(o) in b.entries {
      var i :| 0 <= i < |b.entries| && b.entries[i] == Ref(o);
      assert Refs(b.entries)[i] == o;
    }
    if o in KeysOf(b) {
      var i :| 0 <= i < |b.entries| && Refs(b.entries)[i] == o;
      assert b.entries[i] == Ref(o);
    }
  }

  /** The string objects are those in the table, each with its number, and have the lengths of
      their contents. */
  ghost predicate Numbered(s: Snapshot, numbers: map<Obj, nat>, alive: set<nat>, text: nat -> string) {
    && s.Keys() == s.Strs().Keys == numbers.Keys && numbers.Values == alive
    && (forall o, o' | o in numbers && o' in numbers && numbers[o] == numbers[o'] :: o == o')
    && (forall o {:trigger numbers[o]} | o in numbers :: s.Strs()[o].length == |text(numbers[o])|)
  }

  lemma ValuesWithin(numbers: map<Obj, nat>, left: map<Obj, nat>)
    requires left.Keys <= numbers.Keys && forall o | o in left :: left[o] == numbers[o]
    ensures left.Values <= numbers.Values && numbers.Values * left.Values == left.Values
  {
    forall n | n in left.Values ensures n in numbers.Values {
      var o: Obj :| o in left && left[o] == n;
      assert n == numbers[o];
    }
  }

  lemma ValuesMore(left: map<Obj, nat>, o: Obj, n: nat)
    requires o !in left
    ensures left[o := n].Values == left.Values + {n}
  {
    var more := left[o := n];
    forall k | k in left.Values ensures k in more.Values {
      var x: Obj :| x in left && left[x] == k;
      assert more[x] == k;
    }
    assert more[o] == n;
  }

  /** The same when strings have gone from both sides. */
  lemma NumberedLess(s: Snapshot, s': Snapshot, numbers: map<Obj, nat>, left: map<Obj, nat>, alive: set<nat>,
                     text: nat -> string)
    requires Numbered(s, numbers, alive, text) && Shrunk(s, s')
    requires left.Keys == numbers.Keys * s'.Keys() && forall o | o in left :: left[o] == numbers[o]
    ensures Numbered(s', left, alive * left.Values, text)
  {
    assert s'.Keys() == s'.Strs().Keys == left.Keys;
    ValuesWithin(numbers, left);
    forall o | o in left ensures s'.Strs()[o].length == |text(left[o])| {
      assert s'.Strs()[o] == s.Strs()[o];
    }
  }

  /** The strings in the heap are those of before that are left, with their numbers, and o. */
  ghost predicate Added(before: map<Obj, nat>, after: map<Obj, nat>, strs: set<Obj>, o: Obj, n: nat) {
    && o in after && after[o] == n && after.Keys == strs == before.Keys * strs + {o}
    && forall x | x in after && x != o :: x in before && after[x] == before[x]
  }

  /** And when a new one has come, too. */
  lemma NumberedMore(s: Snapshot, s': Snapshot, numbers: map<Obj, nat>, left: map<Obj, nat>, alive: set<nat>,
                     text: nat -> string, o: Obj, n: nat, b: Body)
    requires Numbered(s, numbers, alive, text) && Gained(s, s', o, b) && b.Str? && b.length == |text(n)| && n !in alive
    requires left.Keys == numbers.Keys * s'.Keys() && forall x | x in left :: left[x] == numbers[x]
    ensures Numbered(s', left[o := n], alive * left.Values + {n}, text)
    ensures Added(numbers, left[o := n], s'.Strs().Keys, o, n)
  {
    hide NonNull;
    var rest := s'.Strs().Keys - {o};
    assert s.Keys() * rest == rest;
    assert s'.Keys() == rest + {o} && left.Keys == rest;
    var more := left[o := n];
    ValuesWithin(numbers, left);
    ValuesMore(left, o, n);
    forall x | x in more ensures s'.Strs()[x].length == |text(more[x])| {
      if x != o {
        assert s'.Strs()[x] == s.Strs()[x];
      }
    }
  }

  lemma ShrunkKeys(s: Snapshot, s': Snapshot)
    requires Shrunk(s, s') && s.Keys() == s.Strs().Keys
    ensures s'.Keys() == s'.Strs().Keys
  {
    assert s'.Keys() == s.Keys() * s'.Strs().Keys;
  }

  /** The heap with its accounts, and the strings as the table sees them. */
  class Interned {
    const alloc: Allocator
    const strings: Interning.Strings
    /** The number that the table knows an object by. */
    var numbers: map<Obj, nat>

    ghost predicate Matches(s: Snapshot)
      reads this, strings, strings.strings, strings.strings.entries
    {
      strings.Valid() && Numbered(s, numbers, strings.alive, strings.text)
    }

    ghost predicate Joined()
      reads this, alloc, alloc.gc, alloc.gc.Weak()`body, strings, strings.strings, strings.strings.entries
      reads Members(alloc.gc.heap)`next, Members(alloc.gc.heap)`body, Members(alloc.gc.heap)`isBlack
    {
      alloc.gc.Valid() && alloc.gc.strings != null && Matches(alloc.Now())
    }

    /** String objects are the same exactly when their contents are. */
    lemma OneObject(o: Obj, o': Obj)
      requires Joined() && o in Members(alloc.gc.heap) && o.body.Str? && o' in Members(alloc.gc.heap) && o'.body.Str?
      ensures o in numbers && o' in numbers && (strings.text(numbers[o]) == strings.text(numbers[o']) <==> o == o')
    {
      assert o in alloc.Now().Strs() && o' in alloc.Now().Strs();
      strings.SamePointer(numbers[o], numbers[o']);
    }

    /** Before there are strings. */
    constructor (alloc: Allocator, strings: Interning.Strings)
      requires alloc.gc.Valid() && strings.Valid() && alloc.gc.strings != null && strings.alive == {}
      requires KeysOf(alloc.gc.strings.body) == {} && forall o | o in Members(alloc.gc.heap) :: !o.body.Str?
      ensures Joined() && this.alloc == alloc && this.strings == strings && numbers == map[]
    {
      this.alloc, this.strings, numbers := alloc, strings, map[];
      new;
    }

    /** The strings that are left in the heap's table, which has these contents. */
    function Left(b: Body): (m: map<Obj, nat>)
      requires b.Tab?
      reads this
      ensures m.Keys == numbers.Keys * KeysOf(b) && forall o | o in m :: m[o] == numbers[o]
    {
      EntriesAreKeys(b, numbers.Keys);
      map o | o in numbers && Ref(o) in b.entries :: numbers[o]
    }

    lemma KeysHere()
      requires alloc.gc.Valid() && alloc.gc.strings != null
      ensures alloc.gc.strings.body.Tab? && alloc.Now().Keys() == KeysOf(alloc.gc.strings.body)
    {
      alloc.StringsHere();
    }

    /** The table loses the strings that the heap has lost since s, in whatever was done there. */
    method Follow(ghost s: Snapshot)
      requires alloc.gc.Valid() && alloc.gc.strings != null && Matches(s) && Shrunk(s, alloc.Now())
      modifies `numbers, strings`alive, strings.strings, strings.strings.entries
      ensures Joined() && numbers.Keys <= old(numbers.Keys) && strings.strings == old(strings.strings)
      ensures strings.strings.entries == old(strings.strings.entries)
      ensures forall o | o in numbers :: numbers[o] == old(numbers)[o]
      ensures numbers.Keys == old(numbers.Keys) * alloc.Now().Keys()
      ensures strings.alive == numbers.Values <= old(strings.alive)
    {
      hide Collector.Valid, Collector.Reachables, Interning.Strings.Valid, KeysOf, Numbered, Shrunk;
      KeysHere();
      var left := Left(alloc.gc.strings.body);
      NumberedLess(s, alloc.Now(), numbers, left, strings.alive, strings.text);
      numbers := left;
      label L:
      strings.Collect(left.Values);
      assert forall o | o in Members(alloc.gc.heap) :: unchanged@L(o);
      assert forall o | o in alloc.gc.Weak() :: unchanged@L(o);
      NumberedValues(alloc.Now());
    }

    lemma NumberedValues(s: Snapshot)
      requires Numbered(s, numbers, strings.alive, strings.text)
      ensures numbers.Values == strings.alive && numbers.Keys == s.Keys() == s.Strs().Keys
    {
    }

    /** collectGarbage, with the table's own view of it: the strings that cannot be reached leave the
        table, and no others, and just they are freed. */
    method Collect()
      requires Joined() && alloc.gc.bytesAllocated > alloc.gc.nextMajorGC
      modifies alloc.gc, Members(alloc.gc.heap), `numbers, strings`alive, strings.strings, strings.strings.entries
      ensures Joined() && alloc.gc.inflight == old(alloc.gc.inflight)
      ensures numbers.Keys == old(numbers.Keys) * old(alloc.gc.Reachables())
      ensures strings.alive == numbers.Values && forall o | o in numbers :: numbers[o] == old(numbers)[o]
    {
      hide Collector.Valid, Collector.Reachables, Interning.Strings.Valid, KeysOf, Shrunk, Numbered;
      ghost var s, reached := alloc.Now(), alloc.gc.Reachables();
      NumberedValues(s);
      alloc.Collect();
      ShrunkKeys(s, alloc.Now());
      Follow(s);
    }

    /** hashString and tableFindString: the object with this content. */
    method Find(chars: string) returns (found: Obj?)
      requires Joined()
      ensures Joined() && alloc.Now() == old(alloc.Now())
      ensures found != null ==> found in numbers && strings.text(numbers[found]) == chars
      ensures found == null ==> forall i | i in strings.alive :: strings.text(i) != chars
    {
      hide Collector.Valid, Collector.Reachables, Interning.Strings.Valid, KeysOf, Numbered;
      NumberedValues(alloc.Now());
      label L:
      var hash := Interning.HashString(chars);
      var r := strings.Find(chars, hash);
      assert forall x | x in Members(alloc.gc.heap) :: unchanged@L(x);
      assert forall x | x in alloc.gc.Weak() :: unchanged@L(x);
      if r < 0 {
        return null;
      }
      assert r in numbers.Values;
      var o: Obj :| o in numbers && numbers[o] == r;
      found := o;
    }

    /** copyString. */
    method CopyString(slot: nat, klass: Obj?, chars: string, id: nat) returns (o: Obj)
      requires Joined() && alloc.Balanced() && alloc.HasSlot(slot) && NonNull([klass]) <= alloc.gc.Reachables()
      requires strings.Holds(id, chars) && id !in strings.alive
      modifies alloc.gc, Members(alloc.gc.heap), `numbers, strings`alive, strings.strings, strings.strings.entries
      ensures Joined() && alloc.Balanced() && o in numbers && strings.text(numbers[o]) == chars
      ensures o in old(numbers) ==> numbers == old(numbers) && alloc.Now() == old(alloc.Now())
      ensures o !in old(numbers) ==> Added(old(numbers), numbers, alloc.Now().Strs().Keys, o, id) && fresh(o)
      ensures o !in old(numbers) ==> forall i | i in old(strings.alive) :: strings.text(i) != chars
    {
      hide Collector.Valid, Collector.Reachables, Interning.Strings.Valid, KeysOf, Shrunk, Gained, Numbered, Added;
      ghost var s, before := alloc.Now(), numbers;
      NumberedValues(s);
      var found := Find(chars);
      o := alloc.CopyString(slot, klass, |chars|, found, strings.strings.Full());
      if found == null {
        TakeNew(s, o, chars, id);
      } else {
        TakeFound(o, chars, id);
      }
    }

    /** What takes place in the table, where the heap keeps the strings with these numbers. */
    method InTable(chars: string, id: nat, black: set<nat>) returns (n: nat)
      requires alloc.gc.Valid() && alloc.gc.strings != null
      requires strings.Valid() && strings.Holds(id, chars) && id !in strings.alive
      modifies strings`alive, strings.strings, strings.strings.entries
      ensures alloc.gc.Valid() && alloc.gc.strings != null && alloc.Now() == old(alloc.Now())
      ensures strings.Valid() && n in strings.alive && strings.text(n) == chars
      ensures n in old(strings.alive) ==> strings.alive == old(strings.alive)
      ensures n !in old(strings.alive) ==> n == id && strings.alive == old(strings.alive) * black + {id}
      ensures n !in old(strings.alive) ==> forall i | i in old(strings.alive) :: strings.text(i) != chars
    {
      hide Collector.Valid, Collector.Reachables, Interning.Strings.Valid;
      ghost var now := alloc.Now();
      label L:
      n := strings.CopyString(chars, id, black, black, black);
      assert forall x | x in Members(alloc.gc.heap) :: unchanged@L(x);
      assert forall x | x in alloc.gc.Weak() :: unchanged@L(x);
      assert old(strings.alive) * black * black * black == old(strings.alive) * black;
    }

    /** The object was there. */
    method TakeFound(o: Obj, chars: string, id: nat)
      requires Joined() && strings.Holds(id, chars) && id !in strings.alive
      requires o in numbers && strings.text(numbers[o]) == chars
      modifies strings`alive, strings.strings, strings.strings.entries
      ensures Joined() && numbers == old(numbers) && alloc.Now() == old(alloc.Now())
    {
      hide Collector.Valid, Collector.Reachables, Interning.Strings.Valid, Numbered;
      NumberedValues(alloc.Now());
      var n := InTable(chars, id, {});
    }

    /** The heap has got the string o since s. */
    method TakeNew(ghost s: Snapshot, o: Obj, chars: string, id: nat)
      requires alloc.gc.Valid() && alloc.gc.strings != null && Matches(s)
      requires strings.Holds(id, chars) && id !in strings.alive
      requires Gained(s, alloc.Now(), o, o.body) && o.body.Str? && o.body.length == |chars|
      requires forall i | i in strings.alive :: strings.text(i) != chars
      modifies `numbers, strings`alive, strings.strings, strings.strings.entries
      ensures Joined() && Added(old(numbers), numbers, alloc.Now().Strs().Keys, o, id)
      ensures o in numbers && numbers[o] == id && strings.text(id) == chars
    {
      hide Collector.Valid, Collector.Reachables, Interning.Strings.Valid, KeysOf, Shrunk;
      hide Gained, Numbered, Added, Bodies;
      KeysHere();
      NumberedValues(s);
      var left := Left(alloc.gc.strings.body);
      NumberedMore(s, alloc.Now(), numbers, left, strings.alive, strings.text, o, id, o.body);
      var n := InTable(chars, id, left.Values);
      numbers := left[o := n];
      NumberedValues(alloc.Now());
    }

    /** takeString: the characters are the caller's. */
    method TakeString(slot: nat, klass: Obj?, chars: string, id: nat) returns (o: Obj)
      requires Joined() && alloc.gc.inflight == ChunkBytes(alloc.chunks) + |chars| + 1
      requires alloc.HasSlot(slot) && NonNull([klass]) <= alloc.gc.Reachables()
      requires strings.Holds(id, chars) && id !in strings.alive
      modifies alloc.gc, Members(alloc.gc.heap), `numbers, strings`alive, strings.strings, strings.strings.entries
      ensures Joined() && alloc.Balanced() && o in numbers && strings.text(numbers[o]) == chars
      ensures o in old(numbers) ==> numbers == old(numbers) && alloc.Now() == old(alloc.Now())
      ensures o !in old(numbers) ==> Added(old(numbers), numbers, alloc.Now().Strs().Keys, o, id) && fresh(o)
      ensures o !in old(numbers) ==> forall i | i in old(strings.alive) :: strings.text(i) != chars
    {
      hide Collector.Valid, Collector.Reachables, Interning.Strings.Valid, KeysOf, Shrunk, Gained, Numbered, Added;
      ghost var s, before := alloc.Now(), numbers;
      NumberedValues(s);
      var found := Find(chars);
      o := alloc.TakeString(slot, klass, |chars|, found, strings.strings.Full());
      if found == null {
        TakeNew(s, o, chars, id);
      } else {
        TakeFound(o, chars, id);
      }
    }

    /** concatenate, of two strings in the stack: the collection at the allocation of the buffer comes
        before the search. */
    method Concatenate(b: Obj, c: Obj, slot: nat, klass: Obj?, id: nat) returns (o: Obj)
      requires Joined() && alloc.Balanced() && alloc.HasSlot(slot) && NonNull([klass]) <= alloc.gc.Reachables()
      requires b in numbers && c in numbers && id !in strings.alive
      requires strings.Holds(id, strings.text(numbers[b]) + strings.text(numbers[c]))
      modifies alloc.gc, Members(alloc.gc.heap), `numbers, strings`alive, strings.strings, strings.strings.entries
      ensures Joined() && alloc.Balanced() && o in numbers
      ensures strings.text(numbers[o]) == strings.text(old(numbers[b])) + strings.text(old(numbers[c]))
    {
      hide Collector.Valid, Collector.Reachables, Interning.Strings.Valid, KeysOf, Shrunk, Numbered, Allocator.After;
      ghost var s := alloc.Now();
      var chars := strings.text(numbers[b]) + strings.text(numbers[c]);
      Length(b);
      Length(c);
      var length := alloc.JoinedBuffer(b, c);
      alloc.ReachedStays(s, klass);
      Follow(s);
      o := TakeString(slot, klass, chars, id);
    }

    lemma Length(o: Obj)
      requires Joined() && o in numbers
      ensures o in Members(alloc.gc.heap) && o.body.Str? && o.body.length == |strings.text(numbers[o])|
    {
      assert o in alloc.Now().Strs();
    }
  }
}
