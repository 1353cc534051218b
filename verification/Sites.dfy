/** The places that allocate in src/object.c, src/array.c, src/chunk.c, src/table.c, src/xanString.c,
    src/vm.c and src/parse.c, with their sizes: what is allocated is owned in the end, by an object
    or by the chunk of a function that is being compiled. */
module Sites {
  import opened Bits
  import opened Heap
  import opened Collector
  import Arrays

  const BASE_STACK_SIZE := 1024

  /** The bytes of the chunks of the active compilers, which have these capacities: 4 for each
      instruction and 8 for its line. */
  function ChunkBytes(chunks: seq<nat>): nat
    decreases |chunks|
  {
    if chunks == [] then 0 else ChunkBytes(chunks[..|chunks| - 1]) + 12 * chunks[|chunks| - 1]
  }

  lemma ChunkLast(chunks: seq<nat>, c: nat)
    ensures ChunkBytes(chunks + [c]) == ChunkBytes(chunks) + 12 * c
  {
    assert (chunks + [c])[..|chunks|] == chunks;
  }

  lemma ChunkGrown(chunks: seq<nat>, c: nat)
    requires chunks != []
    ensures var last := |chunks| - 1;
      ChunkBytes(chunks[..last] + [c]) == ChunkBytes(chunks) - 12 * chunks[last] + 12 * c &&
      ChunkBytes(chunks) >= 12 * chunks[last]
  {
    ChunkLast(chunks[..|chunks| - 1], c);
  }

  /** What there was before an allocation. */
  datatype Snapshot = Snapshot(reached: set<Obj>, bodies: map<Obj, Body>, baseThread: Obj?, strings: Obj?) {
    /** The strings in the table. */
    ghost function Keys(): set<Obj> { if strings != null && strings in bodies then KeysOf(bodies[strings]) else {} }

    /** The string objects in the heap. */
    ghost function Strs(): map<Obj, Body> { map o | o in bodies && bodies[o].Str? :: bodies[o] }

    ghost function Without(o: Obj): Snapshot { this.(bodies := bodies - {o}) }
  }

  /** The strings in the heap are some of those that were, unchanged, and those in the table are
      the ones of them that were in it. */
  ghost predicate Shrunk(s: Snapshot, s': Snapshot) {
    && s'.Strs().Keys <= s.Strs().Keys
    && (forall o {:trigger s'.Strs()[o]} | o in s'.Strs() :: s'.Strs()[o] == s.Strs()[o])
    && (s.Keys() <= s.Strs().Keys ==> s'.Keys() == s.Keys() * s'.Strs().Keys)
  }

  /** The strings in the heap and those in the table are the ones that remain, as above, and o. */
  ghost predicate Gained(s: Snapshot, s': Snapshot, o: Obj, b: Body) {
    var rest := s'.Strs().Keys - {o};
    && o !in s.Strs() && o in s'.Strs() && s'.Strs()[o] == b && rest <= s.Strs().Keys
    && (forall x {:trigger s'.Strs()[x]} | x in rest :: s'.Strs()[x] == s.Strs()[x])
    && (s.Keys() <= s.Strs().Keys ==> s'.Keys() == s.Keys() * rest + {o})
  }

  lemma ShrunkGained(s: Snapshot, s1: Snapshot, s2: Snapshot, o: Obj, b: Body)
    requires Shrunk(s, s1) && Gained(s1, s2, o, b) && o !in s.Strs()
    ensures Gained(s, s2, o, b)
  {
    var rest := s2.Strs().Keys - {o};
    forall x | x in rest ensures s2.Strs()[x] == s.Strs()[x] {
      assert s2.Strs()[x] == s1.Strs()[x];
    }
    assert s1.Strs().Keys * rest == rest;
  }

  /** A new string comes into the heap, a while later into the table. */
  lemma GainedInStep(s: Snapshot, s1: Snapshot, s3: Snapshot, s4: Snapshot, o: Obj)
    requires o !in s.bodies && o in s1.bodies && s1.bodies[o].Str? && Shrunk(s, s1.Without(o)) && s1.strings != o
    requires Shrunk(s1, s3) && o in s3.bodies && s3.bodies[o].Str?
    requires s4.Strs() == s3.Strs() && s4.Keys() == s3.Keys() + {o}
    ensures Gained(s, s4, o, s1.bodies[o])
  {
    hide KeysOf;
    var less := s1.Without(o);
    assert less.Keys() == s1.Keys() && less.Strs().Keys == s1.Strs().Keys - {o};
    var rest := s4.Strs().Keys - {o};
    forall x | x in rest ensures s4.Strs()[x] == s.Strs()[x] {
      assert s3.Strs()[x] == s1.Strs()[x];
      assert less.Strs()[x] == s.Strs()[x];
    }
    assert s3.Strs()[o] == s1.Strs()[o];
  }

  lemma ShrunkTrans(s: Snapshot, s1: Snapshot, s2: Snapshot)
    requires Shrunk(s, s1) && Shrunk(s1, s2)
    ensures Shrunk(s, s2)
  {
    forall o | o in s2.Strs() ensures s2.Strs()[o] == s.Strs()[o] {
      assert s2.Strs()[o] == s1.Strs()[o];
    }
  }

  lemma ShrunkNone(s: Snapshot, s': Snapshot)
    requires Shrunk(s, s') && s.Strs() == map[]
    ensures s'.Strs() == map[]
  {
    assert s'.Strs().Keys == {};
  }

  lemma ShrunkSelf(s: Snapshot)
    ensures Shrunk(s, s)
  {
  }

  /** Objects that are no strings have changed, or come or gone, or the string table has other
      entries for the same keys. */
  lemma ShrunkBodies(s: Snapshot, s': Snapshot, o: Obj)
    requires s'.strings == s.strings && s'.bodies.Keys - {o} == s.bodies.Keys - {o}
    requires forall x | x in s.bodies && x != o :: x in s'.bodies && s'.bodies[x] == s.bodies[x]
    requires o in s.bodies ==> !s.bodies[o].Str?
    requires o in s'.bodies ==> !s'.bodies[o].Str?
    requires o == s.strings ==> o in s.bodies && o in s'.bodies && KeysOf(s'.bodies[o]) == KeysOf(s.bodies[o])
    ensures Shrunk(s, s') && s'.Strs() == s.Strs() && s'.Keys() == s.Keys()
  {
    hide KeysOf;
    forall x ensures x in s'.Strs() <==> x in s.Strs() {
      assert x in s'.bodies.Keys - {o} <==> x in s.bodies.Keys - {o};
    }
    assert s'.Strs() == s.Strs();
    if s.strings != null && s.strings != o {
      assert s.strings in s'.bodies.Keys - {o} <==> s.strings in s.bodies.Keys - {o};
    }
    assert s'.Keys() == s.Keys();
    ShrunkEqual(s, s');
  }

  lemma ShrunkEqual(s: Snapshot, s': Snapshot)
    requires s'.Strs() == s.Strs() && s'.Keys() == s.Keys()
    ensures Shrunk(s, s')
  {
    var strs := s.Strs();
    assert s'.Strs() == strs && forall o | o in strs :: s'.Strs()[o] == strs[o];
    if s.Keys() <= strs.Keys {
      assert s.Keys() * strs.Keys == s.Keys();
    }
  }

  class Allocator {
    const gc: Collector
    /** The capacities of the chunks that are being written, the innermost last. */
    var chunks: seq<nat>

    constructor (gc: Collector)
      ensures this.gc == gc && chunks == []
    {
      this.gc := gc;
      chunks := [];
    }

    /** Everything that is allocated is owned. */
    ghost predicate Balanced()
      reads this, gc, Members(gc.heap)`next, Members(gc.heap)`body, Members(gc.heap)`isBlack, gc.Weak()`body
    {
      gc.Valid() && gc.inflight == ChunkBytes(chunks)
    }

    ghost function Now(): Snapshot
      reads gc, Members(gc.heap)`body
    {
      Snapshot(gc.Reachables(), Bodies(Members(gc.heap)), gc.baseThread, gc.strings)
    }

    ghost predicate Same(o: Obj, s: Snapshot)
      reads gc`heap, gc`strings, o`body
    {
      o in s.bodies && o in Members(gc.heap) && (o !in gc.Weak() ==> o.body == s.bodies[o])
    }

    /** Everything that could be reached then still can, and is what it was; the string table may
        have lost strings. */
    ghost predicate After(s: Snapshot)
      reads gc, Members(gc.heap)`body, s.reached`body, gc.Weak()`body
    {
      && gc.baseThread == s.baseThread && gc.strings == s.strings && s.reached <= gc.Reachables()
      && (forall o {:trigger Same(o, s)} | o in s.reached :: Same(o, s))
      && (forall o {:trigger o in gc.Weak()} | o in gc.Weak() ::
            o in s.bodies && o in Members(gc.heap) && Thinned(s.bodies[o], o.body))
    }

    /** The same, but for the object x. */
    ghost predicate OthersStay(s: Snapshot, x: Obj)
      reads gc`heap, gc`strings, (s.reached - {x})`body
    {
      forall o {:trigger Same(o, s)} | o in s.reached && o != x :: Same(o, s)
    }

    /** What slot k of the stack refers to is what it was. */
    ghost predicate Held(k: nat, s: Snapshot)
      reads gc`baseThread, gc`heap, gc`strings, NonNull([gc.baseThread])`body, s.reached`body
    {
      HasSlot(k) && var v := gc.baseThread.body.stack[k];
      v.Ref? && v.o != null && v.o != gc.baseThread ==> v.o in s.reached && Same(v.o, s)
    }

    /** Of the base thread only this slot has changed, and what the others refer to has not. */
    ghost predicate Beside(s: Snapshot, slot: nat)
      reads gc`baseThread, gc`heap, gc`strings, NonNull([gc.baseThread])`body, s.reached`body
    {
      && HasSlot(slot) && gc.baseThread == s.baseThread && gc.strings == s.strings
      && SlotsReached(s) && slot < |s.bodies[s.baseThread].stack|
      && var b := s.bodies[s.baseThread];
      && gc.baseThread.body == b.(stack := b.stack[slot := gc.baseThread.body.stack[slot]])
      && forall k {:trigger Held(k, s)} | 0 <= k < |b.stack| && k != slot :: Held(k, s)
    }

    lemma NowReached()
      requires gc.Valid() && gc.baseThread != null && gc.baseThread.body.Thread?
      ensures SlotsReached(Now()) && Now().bodies[gc.baseThread] == gc.baseThread.body
    {
      hide Collector.Valid, Collector.Reachables;
      ThreadKnown();
      ThreadReached();
      var b := gc.baseThread.body;
      forall k | 0 <= k < |b.stack| ensures SlotReached(b.stack, k, gc.Reachables()) {
        if b.stack[k].Ref? && b.stack[k].o != null {
          assert Refs(b.stack)[k] == b.stack[k].o;
          assert b.stack[k].o in NonNull(Children(b));
          ChildReached(gc.baseThread, b.stack[k].o);
        }
      }
    }

    /** After s there was a new object t, and s1 has it in the slot. */
    ghost predicate RootedIn(s: Snapshot, s1: Snapshot, t: Obj, slot: nat)
      reads gc`strings
    {
      && SlotsReached(s) && SlotsReached(s1) && s1.baseThread == s.baseThread
      && t !in s.reached && s1.strings == s.strings == gc.strings
      && slot < |s.bodies[s.baseThread].stack| && s.reached <= s.bodies.Keys
      && (var b := s.bodies[s.baseThread];
          s1.bodies[s1.baseThread] == b.(stack := b.stack[slot := Ref(t)]))
      && (forall o {:trigger o in s1.bodies} | o in s.reached && o != s.baseThread && o !in gc.Weak() ::
            o in s1.bodies && o in s.bodies && s1.bodies[o] == s.bodies[o])
    }

    /** When it has got its buffer. */
    lemma BesideRooted(s: Snapshot, s1: Snapshot, t: Obj, slot: nat)
      requires RootedIn(s, s1, t, slot) && ThreadAsBefore(s1) && OthersStay(s1, t)
      ensures Beside(s, slot)
    {
      var b := s.bodies[s.baseThread];
      forall k | 0 <= k < |b.stack| && k != slot ensures Held(k, s) {
        assert SlotReached(b.stack, k, s.reached);
        assert SlotReached(gc.baseThread.body.stack, k, s1.reached);
        var v := b.stack[k];
        if v.Ref? && v.o != null && v.o != gc.baseThread {
          assert Same(v.o, s1);
        }
      }
    }

    lemma BesideNothing(s: Snapshot, slot: nat)
      requires After(s) && ThreadAsBefore(s) && HasSlot(slot) && SlotsReached(s)
      ensures Beside(s, slot)
    {
      var b := s.bodies[s.baseThread];
      assert b.stack[slot := b.stack[slot]] == b.stack;
      forall k | 0 <= k < |b.stack| && k != slot ensures Held(k, s) {
        assert SlotReached(b.stack, k, s.reached);
        var v := b.stack[k];
        if v.Ref? && v.o != null && v.o != gc.baseThread {
          assert Same(v.o, s);
        }
      }
    }

    // ----- the three ways to allocate -----

    /** A buffer grows, or a new one is made. */
    method Buffer(oldSize: nat, newSize: nat)
      requires gc.Valid() && oldSize <= newSize + gc.inflight
      modifies gc, Members(gc.heap)
      ensures gc.Valid() && gc.inflight == old(gc.inflight) + newSize - oldSize
      ensures After(old(Now())) && ThreadAsBefore(old(Now())) && Shrunk(old(Now()), Now())
      ensures Members(gc.heap) <= old(Members(gc.heap))
    {
      hide Collector.Valid, After, Survivors, Kept, Shrunk;
      ghost var s, list, kids := Now(), gc.heap, Kids(Members(gc.heap));
      ThreadKnown();
      gc.Reallocate(oldSize, newSize);
      WeakHere();
      Afterwards(s, list, kids, gc.heap);
      ThreadStays(s);
      StringsAfterwards(s, Now(), list, kids, gc.heap);
    }

    /** collectGarbage. */
    method Collect()
      requires gc.Valid() && gc.bytesAllocated > gc.nextMajorGC
      modifies gc, Members(gc.heap)
      ensures gc.Valid() && gc.inflight == old(gc.inflight) && gc.strings == old(gc.strings)
      ensures Members(gc.heap) == old(gc.Reachables()) + gc.Weak() && Shrunk(old(Now()), Now())
      ensures Now().Strs().Keys == old(Now()).Strs().Keys * old(gc.Reachables())
    {
      hide Collector.Valid, Survivors, Kept, Shrunk, Collector.Reachables;
      ghost var s, list, kids := Now(), gc.heap, Kids(Members(gc.heap));
      gc.CollectGarbage();
      StringsAfterwards(s, Now(), list, kids, gc.heap);
      StringsReached(s, list, kids);
    }

    lemma StringsReached(s: Snapshot, list: seq<Obj>, kids: map<Obj, set<Obj>>)
      requires gc.Survived(list, s.reached, s.bodies, kids, gc.heap) && Members(gc.heap) == s.reached + gc.Weak()
      ensures Now().Strs().Keys == s.Strs().Keys * s.reached
    {
      hide Survivors, Cleaned, SetOfStrings;
      var u := Members(gc.heap);
      forall o | o in u ensures o in s.bodies && (o.body.Str? <==> s.bodies[o].Str?) && (o.body.Str? ==> o in s.reached) {
        assert Kept(o, s.bodies, kids, gc.Weak(), u);
        if o in gc.Weak() {
          CleanedStr(s.bodies[o], u);
        }
      }
    }

    /** The same, for an object that can be reached. */
    method BufferFor(o: Obj, oldSize: nat, newSize: nat)
      requires gc.Valid() && oldSize <= newSize + gc.inflight && o in gc.Reachables() && o !in gc.Weak()
      modifies gc, Members(gc.heap)
      ensures gc.Valid() && gc.inflight == old(gc.inflight) + newSize - oldSize
      ensures After(old(Now())) && ThreadAsBefore(old(Now()))
      ensures o in gc.Reachables() && o !in gc.Weak() && o in Members(gc.heap) && o.body == old(o.body)
      ensures Members(gc.heap) <= old(Members(gc.heap))
      ensures Shrunk(old(Now()), Now())
    {
      hide Collector.Valid, Collector.Reachables, Shrunk;
      ghost var s := Now();
      ReachedInHeap();
      Buffer(oldSize, newSize);
      assert Same(o, s);
    }

    ghost predicate ThreadAsBefore(s: Snapshot)
      reads gc`baseThread, gc`strings, NonNull([gc.baseThread])`body
    {
      && gc.baseThread == s.baseThread && gc.strings == s.strings
      && (s.baseThread != null ==>
             s.baseThread in s.bodies && s.baseThread in NonNull([gc.baseThread]) &&
             s.baseThread.body == s.bodies[s.baseThread])
    }

    lemma ThreadKnown()
      requires gc.Valid()
      ensures gc.baseThread != null ==> gc.baseThread in gc.Reachables() && gc.baseThread !in gc.Weak()
      ensures gc.baseThread != null ==>
        gc.baseThread in Now().bodies && Now().bodies[gc.baseThread] == gc.baseThread.body
    {
      if gc.baseThread != null {
        ThreadReached();
      }
    }

    lemma ThreadStays(s: Snapshot)
      requires gc.Valid() && After(s)
      requires s.baseThread != null ==> s.baseThread in s.reached && s.baseThread in s.bodies
      ensures ThreadAsBefore(s)
    {
      if s.baseThread != null {
        ThreadReached();
        assert Same(s.baseThread, s);
      }
    }

    /** A new object; what it owns beyond its own size was allocated before. */
    method NewObject(size: nat, body: Body) returns (o: Obj)
      requires gc.Valid() && NonNull(Children(body)) <= gc.Reachables()
      requires size <= Footprint(gc.z, body) <= size + gc.inflight
      modifies gc, Members(gc.heap)
      ensures gc.Valid() && gc.inflight == old(gc.inflight) + size - Footprint(gc.z, body)
      ensures After(old(Now())) && ThreadAsBefore(old(Now())) && Shrunk(old(Now()), Now().Without(o))
      ensures fresh(o) && o.body == body && o in Members(gc.heap)
      ensures o !in gc.Weak() && Members(gc.heap) <= old(Members(gc.heap)) + {o}
      ensures !body.Str? ==> Shrunk(old(Now()), Now())
    {
      hide Collector.Valid, After, Survivors, Kept, Shrunk;
      ghost var s, list, kids := Now(), gc.heap, Kids(Members(gc.heap));
      ThreadKnown();
      o := gc.AllocateObject(size, body);
      WeakHere();
      Afterwards(s, list, kids, gc.heap[1..]);
      ThreadStays(s);
      WithoutHere(o);
      StringsAfterwards(s, Now().Without(o), list, kids, gc.heap[1..]);
      if !body.Str? {
        NoNewString(s, o);
      }
    }

    lemma NoNewString(s: Snapshot, o: Obj)
      requires o in Members(gc.heap) && !o.body.Str? && o !in gc.Weak() && Shrunk(s, Now().Without(o))
      ensures Shrunk(s, Now())
    {
      hide Shrunk;
      ShrunkBodies(Now().Without(o), Now(), o);
      ShrunkTrans(s, Now().Without(o), Now());
    }

    /** After a store into an object that is no string, and not the table of strings. */
    lemma StoredStrings(s: Snapshot, o: Obj)
      requires s.bodies.Keys == Members(gc.heap) && s.strings == gc.strings && o in Members(gc.heap) && o !in gc.Weak()
      requires !s.bodies[o].Str? && !o.body.Str?
      requires forall x | x in Members(gc.heap) && x != o :: x.body == s.bodies[x]
      ensures Shrunk(s, Now())
    {
      hide Shrunk, Collector.Reachables;
      ShrunkBodies(s, Now(), o);
    }

    lemma WithoutHere(o: Obj)
      requires gc.Valid() && gc.heap != [] && gc.heap[0] == o
      ensures Now().Without(o).bodies == Bodies(Members(gc.heap[1..])) && gc.heap == [o] + gc.heap[1..]
    {
      LinkedTail(o, gc.heap);
      assert gc.heap == [o] + gc.heap[1..];
    }

    lemma StringsAfterwards(s: Snapshot, s': Snapshot, list: seq<Obj>, kids: map<Obj, set<Obj>>, kept: seq<Obj>)
      requires gc.Survived(list, s.reached, s.bodies, kids, kept)
      requires s'.bodies == Bodies(Members(kept)) && s.strings == s'.strings == gc.strings
      ensures Shrunk(s, s')
    {
      hide Survivors, Cleaned, SetOfStrings, KeysOf;
      var u := Members(kept);
      forall o | o in u ensures Kept(o, s.bodies, kids, gc.Weak(), u) && o in s.bodies {
      }
      if gc.strings != null {
        assert gc.strings in gc.Weak();
        assert Kept(gc.strings, s.bodies, kids, gc.Weak(), u);
        CleanedStr(s.bodies[gc.strings], u);
        KeysCleaned(s.bodies[gc.strings], u);
      }
    }

    lemma WeakHere()
      requires gc.Valid()
      ensures gc.Weak() <= Members(gc.heap) && forall o | o in gc.Weak() :: SetOfStrings(o.body)
    {
    }

    lemma Afterwards(s: Snapshot, list: seq<Obj>, kids: map<Obj, set<Obj>>, kept: seq<Obj>)
      requires gc.Survived(list, s.reached, s.bodies, kids, kept)
      requires s.reached <= gc.Reachables() && Members(kept) <= Members(gc.heap)
      requires gc.baseThread == s.baseThread && gc.strings == s.strings
      ensures After(s)
    {
      hide Survivors, Cleaned, SetOfStrings;
      var u := Members(kept);
      forall o | o in s.reached ensures Same(o, s) {
        assert Kept(o, s.bodies, kids, gc.Weak(), u);
      }
      forall o | o in gc.Weak() ensures o in s.bodies && o in Members(gc.heap) && Thinned(s.bodies[o], o.body) {
        assert Kept(o, s.bodies, kids, gc.Weak(), u);
        CleanedThinned(s.bodies[o], u);
      }
    }

    lemma Unchanged(s: Snapshot)
      requires After(s)
      ensures forall o {:trigger o in s.reached} | o in s.reached && o !in gc.Weak() ::
        o in s.bodies && o in Members(gc.heap) && o.body == s.bodies[o]
    {
      forall o | o in s.reached ensures Same(o, s) {
      }
    }

    lemma AllStay(s: Snapshot, x: Obj)
      requires After(s)
      ensures OthersStay(s, x)
    {
    }

    /** The base thread is a root, and the children of what is reached are reached. */
    lemma ThreadReached()
      requires gc.Valid() && gc.baseThread != null
      ensures gc.baseThread in gc.Reachables() && gc.baseThread !in gc.Weak()
    {
      var t: Obj := gc.baseThread;
      assert t in gc.Roots();
    }

    lemma ChildReached(o: Obj, c: Obj)
      requires gc.Valid() && o in gc.Reachables() && o !in gc.Weak() && c in NonNull(Children(o.body))
      ensures c in gc.Reachables()
    {
      var u := Members(gc.heap);
      assert Kids(u)[o] <= u;
      assert Reachable(o, Kids(u), gc.Roots(), gc.Weak());
      forall t: set<Obj> | t <= u && gc.Roots() <= t && ClosedIn(t, Kids(u), gc.Weak()) ensures c in t {
        assert o in t;
      }
    }

    lemma ReachedInHeap()
      ensures gc.Reachables() <= Members(gc.heap)
    {
    }

    // ----- rooting -----

    /** The base thread has this stack slot. */
    ghost predicate HasSlot(slot: nat)
      reads gc`baseThread, NonNull([gc.baseThread])`body
    {
      gc.baseThread != null && gc.baseThread in NonNull([gc.baseThread]) && gc.baseThread.body.Thread? &&
      slot < |gc.baseThread.body.stack|
    }

    /** currentThread->base[slot] = o, where the collector finds it. */
    method Root(slot: nat, o: Obj)
      requires gc.Valid() && HasSlot(slot) && o in Members(gc.heap)
      modifies gc`inflight, gc`grayStack, gc`grayCapacity
      modifies NonNull([gc.baseThread])`body, NonNull([gc.baseThread])`isGrey
      ensures gc.Valid() && gc.inflight == old(gc.inflight) && HasSlot(slot) && o in gc.Reachables()
      ensures gc.baseThread.body == old(gc.baseThread.body).(stack := old(gc.baseThread.body).stack[slot := Ref(o)])
      ensures Shrunk(old(Now()), Now())
    {
      hide Collector.Valid, Shrunk, Collector.Reachables;
      var t: Obj := gc.baseThread;
      ghost var s := Now();
      ghost var stack := t.body.stack;
      ThreadReached();
      ReachedInHeap();
      EdgesHere(t);
      var body := t.body.(stack := t.body.stack[slot := Ref(o)]);
      StackChildren(t.body, slot, o, Members(gc.heap));
      gc.Store(t, body);
      StoredStrings(s, t);
      ThreadReached();
      SlotChild(t.body, slot, o);
      ChildReached(t, o);
    }

    lemma EdgesHere(o: Obj)
      requires gc.Valid() && o in Members(gc.heap)
      ensures NonNull(Children(o.body)) <= Members(gc.heap) && o in gc.heap
    {
      assert Kids(Members(gc.heap))[o] <= Members(gc.heap);
    }

    /** A new object, in the slot. */
    method NewRooted(slot: nat, size: nat, body: Body) returns (o: Obj)
      requires gc.Valid() && NonNull(Children(body)) <= gc.Reachables() && HasSlot(slot)
      requires size <= Footprint(gc.z, body) <= size + gc.inflight
      modifies gc, Members(gc.heap)
      ensures gc.Valid() && gc.inflight == old(gc.inflight) + size - Footprint(gc.z, body)
      ensures HasSlot(slot) && o in gc.Reachables()
      ensures fresh(o) && o.body == body && o in Members(gc.heap)
      ensures o !in gc.Weak() && Members(gc.heap) <= old(Members(gc.heap)) + {o}
      ensures RootedIn(old(Now()), Now(), o, slot) && gc.baseThread in old(Members(gc.heap))
      ensures gc.Weak() == old(gc.Weak()) && o != gc.baseThread
      ensures !body.Str? ==> Shrunk(old(Now()), Now())
    {
      hide Collector.Valid, After, Shrunk, Collector.Reachables, OthersStay;
      hide SlotsReached, SlotReached, Footprint, Children;
      ghost var s := Now();
      NowReached();
      ThreadReached();
      ReachedInHeap();
      o := NewObject(size, body);
      Unchanged(s);
      ghost var s1 := Now();
      Root(slot, o);
      if !body.Str? {
        ShrunkTrans(s, s1, Now());
      }
      ReachedInHeap();
      NowReached();
    }

    // ----- arrays -----

    /** newArray; what the memory holds is no reference. */
    method NewArray(klass: Obj?, slot: nat, count: nat) returns (a: Obj)
      requires Balanced() && HasSlot(slot) && count <= Pow2(SIZE_BITS - 1) && NonNull([klass]) <= gc.Reachables()
      modifies gc, Members(gc.heap)
      ensures Balanced() && fresh(a) && a in Members(gc.heap) && a !in gc.Weak()
      ensures a.body.Array? && |a.body.values| == count <= a.body.capacity
      ensures gc.baseThread == old(gc.baseThread) && Members(gc.heap) <= old(Members(gc.heap)) + {a}
      ensures Beside(old(Now()), slot)
      ensures Shrunk(old(Now()), Now())
    {
      hide Collector.Valid, After, Shrunk, Pow2, Collector.Reachables;
      hide OthersStay, Beside, Held, SlotsReached, SlotReached;
      ghost var s := Now();
      NowReached();
      ReachedInHeap();
      if count == 0 {
        a := NewObject(gc.z.arr, Array(klass, null, [], 0));
        BesideNothing(s, slot);
      } else {
        a := NewRooted(slot, gc.z.arr, Array(klass, null, [], 0));
        ghost var s1 := Now();
        Values(a, count);
        ShrunkTrans(s, s1, Now());
        BesideRooted(s, s1, a, slot);
      }
    }

    /** The elements of a new array. */
    method Values(a: Obj, count: nat)
      requires Balanced() && a in gc.Reachables() && a !in gc.Weak() && 1 <= count <= Pow2(SIZE_BITS - 1)
      requires a.body.Array? && a.body.capacity == 0 && a != gc.baseThread
      modifies gc, Members(gc.heap)
      ensures Balanced() && a in Members(gc.heap) && a !in gc.Weak() && ThreadAsBefore(old(Now()))
      ensures a.body.Array? && |a.body.values| == count <= a.body.capacity
      ensures Members(gc.heap) <= old(Members(gc.heap)) && OthersStay(old(Now()), a)
      ensures Shrunk(old(Now()), Now())
    {
      hide Collector.Valid, After, Shrunk, Pow2, IsPow2, Collector.Reachables, OthersStay;
      ghost var s := Now();
      ReachedInHeap();
      var capacity := RoundUpPow2(count);
      BufferFor(a, 0, VALUE_SIZE * capacity);
      ghost var s1 := Now();
      AllStay(s, a);
      assert OthersStay(s, a);
      NoReferences(a.body, count, capacity);
      Put(a, a.body.(values := seq(count, _ => Imm), capacity := capacity));
      assert OthersStay(s, a);
      ShrunkTrans(s, s1, Now());
    }

    /** A store into an object other than the string table, which takes over buffers. */
    method Put(o: Obj, body: Body)
      requires gc.Valid() && o in Members(gc.heap) && o !in gc.Weak()
      requires NonNull(Children(body)) <= NonNull(Children(o.body)) || NonNull(Children(body)) <= Members(gc.heap)
      requires Footprint(gc.z, body) <= Footprint(gc.z, o.body) + gc.inflight
      modifies o`body, o`isGrey, gc`inflight, gc`grayStack, gc`grayCapacity
      ensures gc.Valid() && o.body == body
      ensures gc.inflight == old(gc.inflight + Footprint(gc.z, o.body)) - Footprint(gc.z, body)
      ensures !old(o.body).Str? && !body.Str? ==> Shrunk(old(Now()), Now())
    {
      hide Collector.Valid, Shrunk, Collector.Reachables;
      EdgesHere(o);
      ghost var s := Now();
      gc.Store(o, body);
      if !s.bodies[o].Str? && !body.Str? {
        StoredStrings(s, o);
      }
    }

    /** GROW_ARRAY on the elements of an array; what the caller keeps reachable stays. */
    method GrowArray(a: Obj, capacity: nat, ghost keep: set<Obj>)
      requires Balanced() && IsArray(a) && a.body.capacity <= capacity && keep <= gc.Reachables()
      modifies gc, Members(gc.heap)
      ensures Balanced() && a in Members(gc.heap) && a !in gc.Weak() && a.body == old(a.body).(capacity := capacity)
      ensures ThreadAsBefore(old(Now())) && Members(gc.heap) <= old(Members(gc.heap)) && keep <= Members(gc.heap)
      ensures Shrunk(old(Now()), Now())
    {
      hide Collector.Valid, After, Shrunk, Collector.Reachables;
      ghost var s := Now();
      ReachedInHeap();
      BufferFor(a, VALUE_SIZE * a.body.capacity, VALUE_SIZE * capacity);
      ghost var s1 := Now();
      KeptThere(s, keep);
      Put(a, a.body.(capacity := capacity));
      ShrunkTrans(s, s1, Now());
    }

    /** An array that can be reached. */
    ghost predicate IsArray(a: Obj)
      reads gc, Members(gc.heap)`body, a`body
    {
      a in gc.Reachables() && a !in gc.Weak() && a != gc.baseThread &&
      a.body.Array? && |a.body.values| <= a.body.capacity
    }

    lemma KeptThere(s: Snapshot, keep: set<Obj>)
      requires After(s) && keep <= s.reached
      ensures keep <= Members(gc.heap)
    {
      forall o | o in keep ensures o in Members(gc.heap) {
        assert Same(o, s);
      }
    }

    /** setArray. */
    method SetArray(a: Obj, idx: int, v: Val)
      requires Balanced() && IsArray(a) && 0 <= idx <= Pow2(SIZE_BITS - 1) && NonNull(Refs([v])) <= gc.Reachables()
      modifies gc, Members(gc.heap)
      ensures Balanced() && a in Members(gc.heap) && a.body.Array?
      ensures a.body.values == SetVal(old(a.body.values), idx, v)
      ensures a.body.capacity > idx && a.body.capacity >= old(a.body.capacity) && ThreadAsBefore(old(Now()))
      ensures Shrunk(old(Now()), Now())
    {
      hide Collector.Valid, After, Shrunk, Collector.Reachables, Pow2, IsPow2;
      ReachedInHeap();
      ghost var s := Now();
      ShrunkSelf(s);
      ThreadKnown();
      var capacity := a.body.capacity;
      if idx >= a.body.capacity {
        var n := RoundUpPow2(idx);
        Arrays.GrownFits(idx, n);
        capacity := GrowCapacity(n);
        GrowArray(a, capacity, NonNull(Refs([v])));
      }
      EdgesHere(a);
      ghost var s1 := Now();
      ArrayChildren(a.body, SetVal(a.body.values, idx, v), v, Members(gc.heap));
      Put(a, a.body.(values := SetVal(a.body.values, idx, v)));
      ShrunkTrans(s, s1, Now());
    }

    /** writeValueArray. */
    method WriteValueArray(a: Obj, v: Val)
      requires Balanced() && IsArray(a) && NonNull(Refs([v])) <= gc.Reachables()
      modifies gc, Members(gc.heap)
      ensures Balanced() && a in Members(gc.heap) && a.body.Array? && a.body.values == old(a.body.values) + [v]
      ensures a.body.capacity >= |a.body.values|
      ensures a.body.capacity >= old(a.body.capacity) && ThreadAsBefore(old(Now()))
      ensures Shrunk(old(Now()), Now())
    {
      hide Collector.Valid, After, Shrunk, Collector.Reachables;
      ReachedInHeap();
      ghost var s := Now();
      ShrunkSelf(s);
      ThreadKnown();
      var count := |a.body.values|;
      if a.body.capacity < count + 1 {
        GrowArray(a, GrowCapacity(a.body.capacity), NonNull(Refs([v])));
      }
      EdgesHere(a);
      ghost var s1 := Now();
      ArrayChildren(a.body, a.body.values + [v], v, Members(gc.heap));
      Put(a, a.body.(values := a.body.values + [v]));
      ShrunkTrans(s, s1, Now());
    }

    // ----- the chunks of functions that are being compiled -----

    /** writeChunk: the instructions and their lines grow one after the other. */
    method WriteChunk(count: nat)
      requires Balanced() && chunks != [] && count <= chunks[|chunks| - 1]
      modifies this`chunks, gc, Members(gc.heap)
      ensures Balanced() && |chunks| == |old(chunks)| && chunks[..|chunks| - 1] == old(chunks)[..|chunks| - 1]
      ensures chunks[|chunks| - 1] >= count + 1 && chunks[|chunks| - 1] >= old(chunks)[|chunks| - 1]
      ensures Shrunk(old(Now()), Now())
    {
      hide Collector.Valid, After, Shrunk, ChunkBytes, Collector.Reachables;
      var last := |chunks| - 1;
      ghost var s := Now();
      ShrunkSelf(s);
      var oldCapacity := chunks[last];
      if oldCapacity < count + 1 {
        var capacity := GrowCapacity(oldCapacity);
        ChunkGrown(chunks, capacity);
        GrowChunk(oldCapacity, capacity);
        chunks := chunks[..last] + [capacity];
      }
    }

    method GrowChunk(oldCapacity: nat, capacity: nat)
      requires gc.Valid() && oldCapacity <= capacity
      modifies gc, Members(gc.heap)
      ensures gc.Valid() && gc.inflight == old(gc.inflight) + 12 * capacity - 12 * oldCapacity
      ensures Shrunk(old(Now()), Now())
    {
      hide Collector.Valid, After, Shrunk, Collector.Reachables;
      ghost var s := Now();
      Buffer(4 * oldCapacity, 4 * capacity);
      ghost var s1 := Now();
      Buffer(8 * oldCapacity, 8 * capacity);
      ShrunkTrans(s, s1, Now());
    }

    /** freeChunk, when there were errors. */
    method FreeChunk()
      requires Balanced() && chunks != []
      modifies this`chunks, gc`bytesAllocated, gc`inflight
      ensures Balanced() && chunks == old(chunks)[..|old(chunks)| - 1]
    {
      hide Collector.Valid, ChunkBytes;
      var last := |chunks| - 1;
      var capacity := chunks[last];
      ChunkGrown(chunks, 0);
      ChunkLast(chunks[..last], 0);
      gc.FreeBuffer(4 * capacity);
      gc.FreeBuffer(8 * capacity);
      chunks := chunks[..last];
    }

    // ----- tables -----

    /** A table that can be reached, or is the string table. */
    ghost predicate IsTable(t: Obj)
      reads gc, Members(gc.heap)`body, t`body
    {
      (t in gc.Reachables() || t in gc.Weak()) && t in Members(gc.heap) && t != gc.baseThread &&
      t.body.Tab? && |t.body.entries| % 2 == 0
    }

    /** adjustCapacity, to n values. Where a pair goes is the table's business: here the pairs that
        hold references go to the front. */
    method AdjustCapacity(t: Obj, n: nat)
      requires Balanced() && IsTable(t) && |t.body.entries| <= n && n % 2 == 0
      modifies gc, Members(gc.heap)
      ensures Balanced() && t in Members(gc.heap) && t.body.Tab?
      ensures |t.body.entries| == n && Members(gc.heap) <= old(Members(gc.heap))
      ensures t.body.klass == old(t.body.klass) && t.body.fields == old(t.body.fields) && ThreadAsBefore(old(Now()))
      ensures forall v | v in t.body.entries :: v in old(t.body.entries) || v == Imm
      ensures |old(t.body.entries)| < n ==> FreePair(t.body.entries) < n
      ensures gc.Weak() == old(gc.Weak()) && OthersStay(old(Now()), t)
      ensures Shrunk(old(Now()), Now())
    {
      hide Collector.Valid, After, Shrunk, Collector.Reachables, OthersStay;
      ghost var s := Now();
      TableKnown(t);
      Buffer(0, VALUE_SIZE * n);
      ghost var s1 := Now();
      TableThere(t, s);
      AllStay(s, t);
      assert OthersStay(s, t);
      Rehash(t, n);
      assert OthersStay(s, t);
      ShrunkTrans(s, s1, Now());
    }

    /** The pairs move to the new memory, and the old one is freed. */
    method Rehash(t: Obj, n: nat)
      requires gc.Valid() && gc.inflight == ChunkBytes(chunks) + VALUE_SIZE * n
      requires t in gc.heap && t.body.Tab? && |t.body.entries| % 2 == 0
      requires NonNull(Children(t.body)) <= Members(gc.heap)
      requires (t in gc.Weak() ==> SetOfStrings(t.body)) && |t.body.entries| <= n && n % 2 == 0
      modifies t`body, t`isGrey, gc`inflight, gc`bytesAllocated, gc`grayStack, gc`grayCapacity
      ensures Balanced() && t.body == old(t.body).(entries := Packed(old(t.body.entries), n))
      ensures |old(t.body.entries)| < n ==> FreePair(t.body.entries) <= |old(t.body.entries)|
      ensures Shrunk(old(Now()), Now())
    {
      hide Collector.Valid, Shrunk, KeysOf, Packed, FreePair, ChunkBytes, Collector.Reachables;
      var entries := t.body.entries;
      ghost var s := Now();
      PackedKeys(t.body, n);
      PackedOk(t.body, n, Members(gc.heap));
      gc.Store(t, t.body.(entries := Packed(entries, n)));
      gc.FreeBuffer(VALUE_SIZE * |entries|);
      ShrunkBodies(s, Now(), t);
    }

    /** newTable: room for at least one pair. */
    method NewTable(klass: Obj?, slot: nat, size: nat) returns (t: Obj)
      requires Balanced() && HasSlot(slot) && size <= Pow2(SIZE_BITS - 2) && NonNull([klass]) <= gc.Reachables()
      modifies gc, Members(gc.heap)
      ensures Balanced() && fresh(t) && t in Members(gc.heap) && t !in gc.Weak() && t != gc.baseThread
      ensures t.body.Tab? && t.body.klass == klass && forall v | v in t.body.entries :: v == Imm
      ensures |t.body.entries| >= 2 && |t.body.entries| >= 2 * size && |t.body.entries| % 2 == 0
      ensures gc.baseThread == old(gc.baseThread) && gc.Weak() == old(gc.Weak())
      ensures Members(gc.heap) <= old(Members(gc.heap)) + {t}
      ensures Beside(old(Now()), slot)
      ensures Shrunk(old(Now()), Now())
    {
      hide Collector.Valid, After, Shrunk, Pow2, IsPow2, Collector.Reachables;
      hide OthersStay, Beside, Held, SlotsReached, SlotReached;
      hide RootedIn;
      ghost var s := Now();
      t := NewRooted(slot, gc.z.table, Tab([], klass, null));
      ghost var s1 := Now();
      var n := TableSize(size);
      AdjustCapacity(t, n);
      BesideRooted(s, s1, t, slot);
      ShrunkTrans(s, s1, Now());
    }

    // ----- objects that own nothing but themselves -----

    /** ALLOCATE_OBJ for an upvalue, a bound method, a class, a module, an instance, a native
        function or an exception. */
    method NewPlain(body: Body) returns (o: Obj)
      requires Balanced() && NonNull(Children(body)) <= gc.Reachables() && StructSize(gc.z, body).Struct?
      modifies gc, Members(gc.heap)
      ensures Balanced() && fresh(o) && o in Members(gc.heap) && o.body == body && o !in gc.Weak() && After(old(Now()))
      ensures Shrunk(old(Now()), Now())
    {
      hide Collector.Valid, After, Shrunk, Collector.Reachables;
      o := NewObject(StructSize(gc.z, body).size, body);
    }

    // ----- closures -----

    /** newClosure: the array of upvalues comes first. */
    method NewClosure(f: Obj) returns (c: Obj)
      requires Balanced() && f in gc.Reachables() && f !in gc.Weak() && f.body.Function?
      modifies gc, Members(gc.heap)
      ensures Balanced() && fresh(c) && c in Members(gc.heap) && c !in gc.Weak() && ThreadAsBefore(old(Now()))
      ensures c.body == Closure(f, seq(old(f.body.uvCount), _ => null))
      ensures Shrunk(old(Now()), Now())
    {
      hide Collector.Valid, After, Shrunk, Collector.Reachables;
      ThreadKnown();
      ghost var s := Now();
      var uvs := seq(f.body.uvCount, _ => null);
      BufferFor(f, 0, ADDRESS_SIZE * |uvs|);
      ghost var s1 := Now();
      NothingIn(f, uvs);
      c := NewObject(gc.z.closure, Closure(f, uvs));
      ShrunkTrans(s, s1, Now());
    }

    // ----- compilers and functions -----

    /** The base thread's compilers are these. */
    method SetCompilers(compilers: seq<Obj?>)
      requires gc.Valid() && HasSlot(0) && NonNull(compilers) <= Members(gc.heap)
      modifies gc`inflight, gc`grayStack, gc`grayCapacity
      modifies NonNull([gc.baseThread])`body, NonNull([gc.baseThread])`isGrey
      ensures gc.Valid() && gc.inflight == old(gc.inflight) && HasSlot(0)
      ensures gc.baseThread.body == old(gc.baseThread.body).(compilers := compilers)
      ensures Shrunk(old(Now()), Now())
    {
      hide Collector.Valid, Shrunk, Collector.Reachables;
      var t: Obj := gc.baseThread;
      ghost var s := Now();
      ThreadReached();
      ReachedInHeap();
      EdgesHere(t);
      CompilerChildren(t.body, compilers, Members(gc.heap));
      gc.Store(t, t.body.(compilers := compilers));
      StoredStrings(s, t);
    }

    /** initCompiler: a chunk without capacity, and its constants, which the collector finds
        through the list of compilers. */
    method InitCompiler(slot: nat)
      requires Balanced() && HasSlot(slot)
      modifies this`chunks, gc, Members(gc.heap)
      ensures Balanced() && chunks == old(chunks) + [0] && HasSlot(slot)
      ensures |gc.baseThread.body.compilers| >= 3
      ensures Shrunk(old(Now()), Now())
    {
      hide Collector.Valid, After, Shrunk, Collector.Reachables, ChunkBytes, Pow2;
      ThreadReached();
      ghost var s := Now();
      ReachedInHeap();
      ChunkLast(chunks, 0);
      chunks := chunks + [0];
      var a := NewArray(null, slot, 0);
      ghost var s1 := Now();
      assert HasSlot(0);
      var before := gc.baseThread.body.compilers;
      CompilersHere();
      SetCompilers(before + [null, a, null]);
      ShrunkTrans(s, s1, Now());
      ghost var s2 := Now();
      var t := NewTable(null, slot, 0);
      ShrunkTrans(s, s2, Now());
      ghost var s3 := Now();
      CompilersHere();
      var now := gc.baseThread.body.compilers;
      SetCompilers(now[..|now| - 1] + [t]);
      ShrunkTrans(s, s3, Now());
    }

    /** newFunction: the function is in its slot while its array and its table are made. */
    method NewFunction(slot: nat, inner: nat, uvCount: nat, arities: nat) returns (f: Obj)
      requires Balanced() && HasSlot(slot) && HasSlot(inner) && slot != inner
      modifies gc, Members(gc.heap)
      ensures Balanced() && fresh(f) && f in Members(gc.heap) && f !in gc.Weak() && f != gc.baseThread
      ensures f.body.Function?
      ensures f.body.(constants := null, constantIndices := null) == Function(null, null, null, 0, uvCount, arities)
      ensures gc.baseThread == old(gc.baseThread) && HasSlot(slot)
      ensures gc.baseThread.body.compilers == old(gc.baseThread.body.compilers)
      ensures gc.baseThread.body.stack[slot] == Ref(f)
      ensures Shrunk(old(Now()), Now())
    {
      hide Collector.Valid, After, Shrunk, Collector.Reachables, ChunkBytes;
      ReachedInHeap();
      ghost var s := Now();
      ThreadReached();
      f := NewObject(gc.z.function_ + 2 * uvCount + 8 * arities, Function(null, null, null, 0, uvCount, arities));
      ghost var s1 := Now();
      Root(slot, f);
      ShrunkTrans(s, s1, Now());
      ghost var s2 := Now();
      GiveArray(f, slot, inner);
      ShrunkTrans(s, s2, Now());
      ghost var s3 := Now();
      GiveTable(f, slot, inner);
      ShrunkTrans(s, s3, Now());
    }

    /** The function f is in the slot. */
    ghost predicate Holds(slot: nat, f: Obj)
      reads gc`baseThread, gc`strings, gc`heap, NonNull([gc.baseThread])`body, f`body
    {
      && HasSlot(slot) && gc.baseThread.body.stack[slot] == Ref(f)
      && f in Members(gc.heap) && f !in gc.Weak() && f != gc.baseThread
      && f.body.Function? && f.body.funName == null
    }

    /** initChunk for the chunk of f: the array of constants. */
    method GiveArray(f: Obj, slot: nat, inner: nat)
      requires Balanced() && Holds(slot, f) && HasSlot(inner) && slot != inner
      modifies gc, Members(gc.heap)
      ensures Balanced() && Holds(slot, f) && f.body.constants != null
      ensures f.body == old(f.body).(constants := f.body.constants)
      ensures gc.baseThread == old(gc.baseThread) && HasSlot(inner)
      ensures gc.baseThread.body.compilers == old(gc.baseThread.body.compilers)
      ensures Members(gc.heap) <= old(Members(gc.heap)) + {f.body.constants} && fresh(f.body.constants)
      ensures Shrunk(old(Now()), Now())
    {
      hide Collector.Valid, After, Shrunk, Collector.Reachables, ChunkBytes, Pow2, Held, SlotsReached, SlotReached;
      ghost var s := Now();
      ReachedInHeap();
      NowReached();
      var a := NewArray(null, inner, 0);
      HeldThere(s, slot, inner, f);
      ghost var s1 := Now();
      EdgesHere(f);
      FunctionChildren(f.body, a, null);
      Put(f, f.body.(constants := a));
      ShrunkTrans(s, s1, Now());
    }

    /** And the table of their indices. */
    method GiveTable(f: Obj, slot: nat, inner: nat)
      requires Balanced() && Holds(slot, f) && HasSlot(inner) && slot != inner
      modifies gc, Members(gc.heap)
      ensures Balanced() && Holds(slot, f) && f.body.constantIndices != null
      ensures f.body == old(f.body).(constantIndices := f.body.constantIndices)
      ensures gc.baseThread == old(gc.baseThread) && gc.baseThread.body.compilers == old(gc.baseThread.body.compilers)
      ensures Shrunk(old(Now()), Now())
    {
      hide Collector.Valid, After, Shrunk, Collector.Reachables, ChunkBytes, Pow2, Held, SlotsReached, SlotReached;
      ghost var s := Now();
      ReachedInHeap();
      NowReached();
      var t := NewTable(null, inner, 0);
      HeldThere(s, slot, inner, f);
      ghost var s1 := Now();
      EdgesHere(f);
      FunctionChildren(f.body, null, t);
      Put(f, f.body.(constantIndices := t));
      ShrunkTrans(s, s1, Now());
    }

    /** An object in another slot is what it was. */
    lemma HeldThere(s: Snapshot, k: nat, slot: nat, f: Obj)
      requires gc.Valid() && Beside(s, slot) && k != slot && k < |s.bodies[s.baseThread].stack|
      requires s.bodies[s.baseThread].stack[k] == Ref(f)
      requires f !in gc.Weak() && f != gc.baseThread
      ensures f in s.bodies && f in Members(gc.heap) && f.body == s.bodies[f]
      ensures HasSlot(k) && gc.baseThread.body.stack[k] == Ref(f)
    {
      assert Held(k, s);
    }

    /** endCompiler: the function takes over the chunk of its compiler, and the compiler goes. */
    method EndCompiler(slot: nat, inner: nat, uvCount: nat, arities: nat) returns (f: Obj)
      requires Balanced() && HasSlot(slot) && HasSlot(inner) && slot != inner
      requires chunks != [] && |gc.baseThread.body.compilers| >= 3
      modifies this`chunks, gc, Members(gc.heap)
      ensures Balanced() && chunks == old(chunks)[..|old(chunks)| - 1] && fresh(f) && f in Members(gc.heap)
      ensures f.body.Function? && f.body.uvCount == uvCount && f.body.arities == arities
      ensures f.body.codeCapacity == old(chunks[|chunks| - 1])
      ensures f.body.constants == old(gc.baseThread.body.compilers[|gc.baseThread.body.compilers| - 2])
      ensures Shrunk(old(Now()), Now())
    {
      hide Collector.Valid, After, Shrunk, Collector.Reachables, ChunkBytes, Pow2;
      ThreadReached();
      ghost var s := Now();
      ReachedInHeap();
      f := NewFunction(slot, inner, uvCount, arities);
      ghost var s1 := Now();
      TakeChunk(f);
      ShrunkTrans(s, s1, Now());
    }

    /** The function owns the chunk that was written last. */
    method TakeChunk(f: Obj)
      requires Balanced() && HasSlot(0) && chunks != [] && |gc.baseThread.body.compilers| >= 3
      requires f in Members(gc.heap) && f !in gc.Weak() && f != gc.baseThread
      requires f.body.Function? && f.body.codeCapacity == 0
      modifies this`chunks, gc`inflight, gc`grayStack, gc`grayCapacity, f`body, f`isGrey
      modifies NonNull([gc.baseThread])`body, NonNull([gc.baseThread])`isGrey
      ensures Balanced() && chunks == old(chunks)[..|old(chunks)| - 1]
      ensures f.body.Function?
      ensures f.body == Function(f.body.funName, old(gc.baseThread.body.compilers[|gc.baseThread.body.compilers| - 2]), null,
                                 old(chunks[|chunks| - 1]), old(f.body.uvCount), old(f.body.arities))
      ensures Shrunk(old(Now()), Now())
    {
      hide Collector.Valid, Shrunk, ChunkBytes, Collector.Reachables, Kids;
      var last, compilers := |chunks| - 1, gc.baseThread.body.compilers;
      var n := |compilers|;
      CompilersHere();
      ghost var s := Now();
      ChunkGrown(chunks, 0);
      ChunkLast(chunks[..last], 0);
      TakenChildren(compilers, f.body, chunks[last]);
      Put(f, Function(compilers[n - 3], compilers[n - 2], null, chunks[last], f.body.uvCount, f.body.arities));
      ghost var s1 := Now();
      CompilersHere();
      SetCompilers(compilers[..n - 3]);
      ShrunkTrans(s, s1, Now());
      chunks := chunks[..last];
    }

    // ----- strings -----

    /** allocateString, with the characters that the caller has allocated. Whether the table grows is
        what its count says (module Table); here it also grows when the front is full. */
    method AllocateString(slot: nat, klass: Obj?, length: nat, grow: bool) returns (o: Obj)
      requires gc.Valid() && gc.inflight == ChunkBytes(chunks) + length + 1 && HasSlot(slot) && gc.strings != null
      requires NonNull([klass]) <= gc.Reachables()
      modifies gc, Members(gc.heap)
      ensures Balanced() && fresh(o) && o in Members(gc.heap) && o.body == Str(klass, null, length)
      ensures gc.strings == old(gc.strings) && Gained(old(Now()), Now(), o, o.body)
    {
      hide Collector.Valid, After, Shrunk, Collector.Reachables, ChunkBytes, FreePair, OthersStay, Gained, Kids;
      ghost var s := Now();
      StringsHere();
      o := NewObject(gc.z.str, Str(klass, null, length));
      ghost var s1 := Now();
      Root(slot, o);
      ReachedInHeap();
      StringsHere();
      ghost var s2 := Now();
      if grow || FreePair(gc.strings.body.entries) == |gc.strings.body.entries| {
        GrowStrings(o);
        ShrunkTrans(s1, s2, Now());
      }
      ghost var s3 := Now();
      PutString(o);
      GainedInStep(s, s1, s3, Now(), o);
    }

    /** The string table grows; o can be reached. */
    method GrowStrings(o: Obj)
      requires Balanced() && gc.strings != null && o in gc.Reachables() && o !in gc.Weak()
      modifies gc, Members(gc.heap)
      ensures Balanced() && gc.strings == old(gc.strings) && gc.strings != null && Shrunk(old(Now()), Now())
      ensures gc.strings.body.Tab? && |gc.strings.body.entries| % 2 == 0
      ensures FreePair(gc.strings.body.entries) < |gc.strings.body.entries|
      ensures o in Members(gc.heap) && o !in gc.Weak() && o.body == old(o.body)
    {
      hide Collector.Valid, After, Shrunk, Collector.Reachables, ChunkBytes, FreePair, OthersStay;
      ghost var s := Now();
      ReachedInHeap();
      StringsHere();
      AdjustCapacity(gc.strings, GrowCapacity(|gc.strings.body.entries|));
      assert Same(o, s) by { StaysHere(s, gc.strings, o); }
    }

    lemma StaysHere(s: Snapshot, x: Obj, o: Obj)
      requires OthersStay(s, x) && o in s.reached && o != x
      ensures Same(o, s)
    {
    }

    lemma StringsHere()
      requires gc.Valid() && gc.strings != null
      ensures gc.strings in gc.Weak() && gc.strings in Members(gc.heap) && gc.strings != gc.baseThread
      ensures SetOfStrings(gc.strings.body)
    {
      assert gc.strings in gc.Weak();
      assert gc.baseThread != null ==> gc.baseThread in gc.Roots();
    }

    /** tableSet of a new string. */
    method PutString(o: Obj)
      requires Balanced() && gc.strings != null && o in Members(gc.heap)
      requires gc.strings.body.Tab? && |gc.strings.body.entries| % 2 == 0
      requires FreePair(gc.strings.body.entries) < |gc.strings.body.entries|
      modifies gc`inflight, gc`grayStack, gc`grayCapacity, gc.Weak()`body, gc.Weak()`isGrey
      ensures Balanced() && Now().Keys() == old(Now()).Keys() + {o} && Now().Strs() == old(Now()).Strs()
    {
      hide Collector.Valid, ChunkBytes, Collector.Reachables, KeysOf, FreePair, SetOfStrings, Kids;
      ghost var s := Now();
      var t: Obj := gc.strings;
      var i := FreePair(t.body.entries);
      StringsHere();
      EdgesHere(t);
      StringChildren(t.body, i, o, Members(gc.heap));
      KeyAdded(t.body, i, o);
      gc.Store(t, t.body.(entries := t.body.entries[i := Ref(o)]));
      KeyStored(s, o);
    }

    lemma KeyStored(s: Snapshot, o: Obj)
      requires s.bodies.Keys == Members(gc.heap) && s.strings == gc.strings != null && gc.strings in Members(gc.heap)
      requires forall x | x in Members(gc.heap) && x != gc.strings :: x.body == s.bodies[x]
      requires !s.bodies[gc.strings].Str? && !gc.strings.body.Str?
      requires KeysOf(gc.strings.body) == KeysOf(s.bodies[gc.strings]) + {o}
      ensures Now().Keys() == s.Keys() + {o} && Now().Strs() == s.Strs()
    {
      hide KeysOf;
      assert Now().Strs() == s.Strs();
    }

    /** copyString: a string that is interned already is the answer. Whether one is, module Interning
        says, and for both together module WeakStrings. */
    method CopyString(slot: nat, klass: Obj?, length: nat, interned: Obj?, grow: bool) returns (o: Obj)
      requires Balanced() && HasSlot(slot) && gc.strings != null && NonNull([klass]) <= gc.Reachables()
      modifies gc, Members(gc.heap)
      ensures Balanced() && gc.strings == old(gc.strings)
      ensures interned != null ==> o == interned && gc.bytesAllocated == old(gc.bytesAllocated) && Now() == old(Now())
      ensures interned == null ==> fresh(o) && o in Members(gc.heap) && o.body == Str(klass, null, length)
      ensures interned == null ==> Gained(old(Now()), Now(), o, o.body)
    {
      hide Collector.Valid, After, Shrunk, Collector.Reachables, ChunkBytes, FreePair, Gained;
      if interned != null {
        return interned;
      }
      ghost var s := Now();
      Buffer(0, length + 1);
      ghost var s1 := Now();
      ReachedStays(s, klass);
      o := AllocateString(slot, klass, length, grow);
      assert o !in s.bodies;
      ShrunkGained(s, s1, Now(), o, o.body);
    }

    lemma ReachedStays(s: Snapshot, klass: Obj?)
      requires After(s) && NonNull([klass]) <= s.reached
      ensures NonNull([klass]) <= gc.Reachables()
    {
    }

    /** takeString: the characters are the caller's, and are freed when the string is there already,
        which again is for module Interning to say. */
    method TakeString(slot: nat, klass: Obj?, length: nat, interned: Obj?, grow: bool) returns (o: Obj)
      requires gc.Valid() && gc.inflight == ChunkBytes(chunks) + length + 1 && HasSlot(slot) && gc.strings != null
      requires NonNull([klass]) <= gc.Reachables()
      modifies gc, Members(gc.heap)
      ensures Balanced() && gc.strings == old(gc.strings)
      ensures interned != null ==> o == interned && gc.bytesAllocated == old(gc.bytesAllocated) - (length + 1)
      ensures interned != null ==> Now() == old(Now())
      ensures interned == null ==> fresh(o) && o in Members(gc.heap) && o.body == Str(klass, null, length)
      ensures interned == null ==> Gained(old(Now()), Now(), o, o.body)
    {
      hide Collector.Valid, After, Shrunk, Collector.Reachables, ChunkBytes, FreePair, Gained;
      if interned != null {
        gc.FreeBuffer(length + 1);
        return interned;
      }
      o := AllocateString(slot, klass, length, grow);
    }

    /** The buffer of concatenate, which the caller of takeString allocates; the operands are in the
        stack. */
    method JoinedBuffer(b: Obj, c: Obj) returns (length: nat)
      requires Balanced() && b.body.Str? && c.body.Str?
      modifies gc, Members(gc.heap)
      ensures gc.Valid() && gc.inflight == ChunkBytes(chunks) + length + 1 && gc.strings == old(gc.strings)
      ensures length == old(b.body.length + c.body.length)
      ensures After(old(Now())) && ThreadAsBefore(old(Now())) && Shrunk(old(Now()), Now())
      ensures Members(gc.heap) <= old(Members(gc.heap))
    {
      hide Collector.Valid, After, Shrunk, ChunkBytes;
      length := b.body.length + c.body.length;
      Buffer(0, length + 1);
    }

    /** concatenate. */
    method Concatenate(b: Obj, c: Obj, slot: nat, klass: Obj?, interned: Obj?, grow: bool) returns (o: Obj)
      requires Balanced() && HasSlot(slot) && gc.strings != null
      requires NonNull([klass]) <= gc.Reachables() && b.body.Str? && c.body.Str?
      modifies gc, Members(gc.heap)
      ensures Balanced() && gc.strings == old(gc.strings)
      ensures interned != null ==> o == interned && Shrunk(old(Now()), Now())
      ensures interned == null ==>
          fresh(o) && o in Members(gc.heap) && o.body == Str(klass, null, old(b.body.length + c.body.length))
      ensures interned == null ==> Gained(old(Now()), Now(), o, o.body)
    {
      hide Collector.Valid, After, Shrunk, Collector.Reachables, ChunkBytes, FreePair, Gained;
      ghost var s := Now();
      var length := JoinedBuffer(b, c);
      ghost var s1 := Now();
      ReachedStays(s, klass);
      o := TakeString(slot, klass, length, interned, grow);
      if interned == null {
        assert o !in s.bodies;
        ShrunkGained(s, s1, Now(), o, o.body);
      }
    }

    // ----- the stack, and the whole machine -----

    /** growStack. */
    method GrowStack(needed: nat)
      requires Balanced() && HasSlot(0)
      modifies gc, Members(gc.heap)
      ensures Balanced() && gc.baseThread == old(gc.baseThread) && HasSlot(0)
      ensures gc.baseThread.body == old(gc.baseThread.body).(stackSize := gc.baseThread.body.stackSize)
      ensures gc.baseThread.body.stackSize >= needed
      ensures gc.baseThread.body.stackSize >= old(gc.baseThread.body.stackSize)
      ensures Shrunk(old(Now()), Now())
    {
      hide Collector.Valid, After, Shrunk, Collector.Reachables, ChunkBytes;
      var t: Obj := gc.baseThread;
      ghost var s := Now();
      ThreadReached();
      ReachedInHeap();
      var n := t.body.stackSize;
      while n < needed
        invariant n >= t.body.stackSize
        decreases needed - n
      {
        n := GrowCapacity(n);
      }
      BufferFor(t, VALUE_SIZE * t.body.stackSize, VALUE_SIZE * n);
      ghost var s1 := Now();
      Put(t, t.body.(stackSize := n));
      ShrunkTrans(s, s1, Now());
    }

    /** initVM, as far as the table of strings; the stack shows this many slots. */
    method InitVM(slots: nat)
      requires Balanced() && gc.heap == [] && 1 <= slots <= BASE_STACK_SIZE
      modifies gc
      ensures Balanced() && HasSlot(slots - 1) && gc.baseThread.body.stackSize == BASE_STACK_SIZE && gc.strings != null
      ensures KeysOf(gc.strings.body) == {} && forall o | o in Members(gc.heap) :: !o.body.Str?
    {
      hide Collector.Valid, After, Shrunk, Collector.Reachables, ChunkBytes, Beside;
      InitStack(slots);
      ghost var s := Now();
      var strings := NewTable(null, 0, 0);
      ShrunkNone(s, Now());
      BesideKnown(s, 0);
      ThreadReached();
      ReachedInHeap();
      NoStrings(strings.body);
      gc.SetRoots(null, null, null, gc.baseThread, strings);
      NoneHere();
    }

    lemma NoneHere()
      ensures Now().Strs() == map[] <==> forall o | o in Members(gc.heap) :: !o.body.Str?
    {
      assert forall o | o in Members(gc.heap) && o.body.Str? :: o in Now().Strs();
    }

    lemma BesideKnown(s: Snapshot, slot: nat)
      requires Beside(s, slot)
      ensures gc.baseThread == s.baseThread && gc.baseThread in s.bodies
      ensures gc.baseThread.body.Thread? && s.bodies[gc.baseThread].Thread?
      ensures gc.baseThread.body.stackSize == s.bodies[gc.baseThread].stackSize
      ensures |gc.baseThread.body.stack| == |s.bodies[gc.baseThread].stack|
    {
    }

    /** The base thread and its stack. */
    method InitStack(slots: nat)
      requires Balanced() && gc.heap == [] && 1 <= slots <= BASE_STACK_SIZE
      modifies gc
      ensures Balanced() && fresh(Members(gc.heap)) && HasSlot(slots - 1)
      ensures gc.baseThread.body.stackSize == BASE_STACK_SIZE
      ensures |gc.baseThread.body.stack| == slots && gc.strings == null && Now().Strs() == map[]
    {
      hide Collector.Valid, After, Shrunk, Collector.Reachables, ChunkBytes, Bodies;
      ghost var s := Now();
      NoneHere();
      var t := NewObject(gc.z.thread, Thread([], Imm, [], [], 0));
      ShrunkNone(s, Now());
      gc.SetRoots(null, null, null, t, null);
      ghost var s1 := Now();
      ThreadReached();
      StackOf(t, slots);
      ShrunkNone(s1, Now());
    }

    /** Its stack. */
    method StackOf(t: Obj, slots: nat)
      requires Balanced() && gc.baseThread == t && t.body == Thread([], Imm, [], [], 0) && gc.strings == null
      requires 1 <= slots <= BASE_STACK_SIZE
      modifies gc, Members(gc.heap)
      ensures Balanced() && Members(gc.heap) <= old(Members(gc.heap)) && HasSlot(slots - 1)
      ensures gc.baseThread == t && t.body.stackSize == BASE_STACK_SIZE && |t.body.stack| == slots && gc.strings == null
      ensures Shrunk(old(Now()), Now())
    {
      hide Collector.Valid, After, Shrunk, Collector.Reachables, ChunkBytes;
      ghost var s := Now();
      ThreadReached();
      BufferFor(t, 0, VALUE_SIZE * BASE_STACK_SIZE);
      ghost var s1 := Now();
      var stack := seq(slots, _ => Imm);
      NothingOn(stack);
      Put(t, Thread(stack, Imm, [], [], BASE_STACK_SIZE));
      ShrunkTrans(s, s1, Now());
    }

    /** freeVM: when no function is being compiled, everything that was allocated has been freed. */
    method FreeVM()
      requires Balanced() && chunks == []
      modifies gc, Members(gc.heap)`body
      ensures gc.heap == [] && gc.bytesAllocated == 0
    {
      gc.FreeVM();
    }

    lemma CompilersHere()
      requires gc.Valid() && HasSlot(0)
      ensures NonNull(gc.baseThread.body.compilers) <= Members(gc.heap)
    {
      ThreadReached();
      ReachedInHeap();
      EdgesHere(gc.baseThread);
      var b := gc.baseThread.body;
      assert forall c | c in b.compilers :: c in Children(b);
    }

    lemma TableKnown(t: Obj)
      requires gc.Valid() && IsTable(t)
      ensures t in Now().bodies && Now().bodies[t] == t.body
    {
    }

    /** After an allocation. */
    lemma TableThere(t: Obj, s: Snapshot)
      requires gc.Valid() && After(s) && t in s.bodies && s.bodies[t].Tab? && (t in s.reached || t in gc.Weak())
      ensures t in gc.heap && t.body.Tab? && |t.body.entries| == |s.bodies[t].entries|
      ensures NonNull(Children(t.body)) <= Members(gc.heap) && (t in gc.Weak() ==> SetOfStrings(t.body))
      ensures t.body.klass == s.bodies[t].klass && t.body.fields == s.bodies[t].fields
      ensures forall v | v in t.body.entries :: v in s.bodies[t].entries || v == Imm
    {
      if t in gc.Weak() {
        assert Thinned(s.bodies[t], t.body);
      } else {
        assert Same(t, s);
      }
      EdgesHere(t);
    }
  }

  /** setArray on the elements: the gap is nil. */
  function SetVal(s: seq<Val>, idx: nat, v: Val): (r: seq<Val>)
    ensures |r| == (if idx < |s| then |s| else idx + 1)
    ensures forall i | 0 <= i < |r| :: r[i] == if i == idx then v else if i < |s| then s[i] else Imm
  {
    if idx < |s| then s[idx := v] else s + seq(idx - |s|, _ => Imm) + [v]
  }

  /** Elements that are old ones, v, or no references. */
  lemma ArrayChildren(b: Body, values: seq<Val>, v: Val, u: set<Obj>)
    requires b.Array? && NonNull(Children(b)) <= u && NonNull(Refs([v])) <= u
    requires forall i | 0 <= i < |values| ::
      values[i] == v || values[i] == Imm || (i < |b.values| && values[i] == b.values[i])
    ensures NonNull(Children(b.(values := values))) <= u
  {
    var rest := [b.klass, b.fields];
    var cs, cs' := Children(b), Children(b.(values := values));
    assert cs == rest + Refs(b.values) && cs' == rest + Refs(values);
    forall c | c in NonNull(cs') ensures c in u {
      var i :| 0 <= i < |cs'| && cs'[i] == c;
      if i < 2 {
        assert cs[i] == c && c in NonNull(cs);
      } else if values[i - 2] == v {
        assert Refs([v])[0] == c && c in NonNull(Refs([v]));
      } else {
        assert cs[i] == c && c in NonNull(cs);
      }
    }
  }

  /** The capacity of a new table: a power of two, twice the number of pairs or more. */
  method TableSize(size: nat) returns (n: nat)
    requires size <= Pow2(SIZE_BITS - 2)
    ensures n >= 2 && n >= 2 * size && n % 2 == 0
  {
    Pow2Double(SIZE_BITS - 1);
    hide Pow2, IsPow2;
    n := RoundUpPow2(2 * (if size == 0 then 1 else size));
    EvenPower(n);
  }

  lemma EvenPower(n: nat)
    requires IsPow2(n) && n >= 2
    ensures n % 2 == 0
  {
  }

  /** The pairs of key and value that are not both nil or the like. */
  function Pairs(es: seq<Val>): (r: seq<Val>)
    requires |es| % 2 == 0
    ensures |r| <= |es| && |r| % 2 == 0 && forall v | v in r :: v in es
  {
    if es == [] then [] else (if es[0] == Imm && es[1] == Imm then [] else es[..2]) + Pairs(es[2..])
  }

  function Packed(es: seq<Val>, n: nat): (r: seq<Val>)
    requires |es| % 2 == 0 && |es| <= n
    ensures |r| == n && forall v | v in r :: v in es || v == Imm
  {
    Pairs(es) + seq(n - |Pairs(es)|, _ => Imm)
  }

  /** The first place for a pair, or the number of entries. */
  function FreePair(es: seq<Val>): (i: nat)
    requires |es| % 2 == 0
    ensures i <= |es| && i % 2 == 0 && (i < |es| ==> es[i] == Imm && es[i + 1] == Imm)
  {
    if es == [] || (es[0] == Imm && es[1] == Imm) then 0 else 2 + FreePair(es[2..])
  }

  lemma {:induction false} FreePairBefore(es: seq<Val>, i: nat)
    requires |es| % 2 == 0 && i % 2 == 0 && i < |es| && es[i] == Imm && es[i + 1] == Imm
    ensures FreePair(es) <= i
    decreases i
  {
    if i > 0 {
      FreePairBefore(es[2..], i - 2);
    }
  }

  lemma {:induction false} PairsOdd(es: seq<Val>)
    requires |es| % 2 == 0 && forall i | 0 <= i < |es| && i % 2 == 1 :: es[i] == Imm
    ensures forall i | 0 <= i < |Pairs(es)| && i % 2 == 1 :: Pairs(es)[i] == Imm
    decreases |es|
  {
    if es != [] {
      PairsOdd(es[2..]);
    }
  }

  lemma PackedOk(b: Body, n: nat, u: set<Obj>)
    requires b.Tab? && |b.entries| % 2 == 0 && |b.entries| <= n && n % 2 == 0 && NonNull(Children(b)) <= u
    ensures NonNull(Children(b.(entries := Packed(b.entries, n)))) <= u
    ensures SetOfStrings(b) ==> SetOfStrings(b.(entries := Packed(b.entries, n)))
    ensures |b.entries| < n ==> FreePair(Packed(b.entries, n)) <= |b.entries|
  {
    var es := Packed(b.entries, n);
    forall c | c in NonNull(Refs(es)) ensures c in u {
      var i :| 0 <= i < |es| && Refs(es)[i] == c;
      assert es[i] in es;
      var j :| 0 <= j < |b.entries| && b.entries[j] == es[i];
      assert Refs(b.entries)[j] == c;
    }
    if SetOfStrings(b) {
      forall i | 0 <= i < |b.entries| && i % 2 == 1 ensures b.entries[i] == Imm {
        assert OddImm(b.entries, i);
      }
      PairsOdd(b.entries);
      forall i | 0 <= i < n ensures OddImm(es, i) {
      }
    }
    if |b.entries| < n {
      FreePairBefore(es, |Pairs(b.entries)|);
    }
  }

  lemma {:induction false} PairsKeep(es: seq<Val>, v: Val)
    requires |es| % 2 == 0 && v in es && v != Imm
    ensures v in Pairs(es)
    decreases |es|
  {
    assert es == es[..2] + es[2..];
    if v in es[2..] {
      PairsKeep(es[2..], v);
    }
  }

  /** No key is lost. */
  lemma PackedKeys(b: Body, n: nat)
    requires b.Tab? && |b.entries| % 2 == 0 && |b.entries| <= n
    ensures KeysOf(b.(entries := Packed(b.entries, n))) == KeysOf(b)
  {
    var es := Packed(b.entries, n);
    forall v | v in b.entries && v != Imm ensures v in es {
      PairsKeep(b.entries, v);
      assert v in Pairs(b.entries);
      var i :| 0 <= i < |Pairs(b.entries)| && Pairs(b.entries)[i] == v;
      assert es[i] == v;
    }
    RefsWithin(b.entries, es);
    RefsWithin(es, b.entries);
  }

  lemma RefsWithin(es: seq<Val>, es': seq<Val>)
    requires forall v | v in es && v != Imm :: v in es'
    ensures NonNull(Refs(es)) <= NonNull(Refs(es'))
  {
    forall o: Obj | o in NonNull(Refs(es)) ensures o in NonNull(Refs(es')) {
      var i :| 0 <= i < |es| && Refs(es)[i] == o;
      assert es[i] in es;
      var j :| 0 <= j < |es'| && es'[j] == es[i];
      assert Refs(es')[j] == o;
    }
  }

  lemma NoReferences(b: Body, count: nat, capacity: nat)
    requires b.Array?
    ensures NonNull(Children(b.(values := seq(count, _ => Imm), capacity := capacity))) <= NonNull(Children(b))
  {
    var values := seq(count, _ => Imm);
    assert forall i | 0 <= i < count :: Refs(values)[i] == null;
    forall c | c in NonNull([b.klass, b.fields] + Refs(values)) ensures c in NonNull(Children(b)) {
      assert c in [b.klass, b.fields];
      assert c in [b.klass, b.fields] + Refs(b.values);
    }
  }

  lemma SlotChild(b: Body, slot: nat, o: Obj)
    requires b.Thread? && slot < |b.stack| && b.stack[slot] == Ref(o)
    ensures o in NonNull(Children(b))
  {
    assert Refs(b.stack)[slot] == o;
    assert Children(b)[slot] == o;
  }

  /** Another value in a slot of a thread's stack. */
  lemma StackChildren(b: Body, slot: nat, o: Obj, u: set<Obj>)
    requires b.Thread? && slot < |b.stack| && NonNull(Children(b)) <= u && o in u
    ensures NonNull(Children(b.(stack := b.stack[slot := Ref(o)]))) <= u
  {
    var cs, cs' := Children(b), Children(b.(stack := b.stack[slot := Ref(o)]));
    assert Refs(b.stack[slot := Ref(o)]) == Refs(b.stack)[slot := o];
    assert cs' == cs[slot := o];
    OneOther(cs, slot, o, u);
  }

  lemma OneOther(cs: seq<Obj?>, slot: nat, o: Obj, u: set<Obj>)
    requires slot < |cs| && NonNull(cs) <= u && o in u
    ensures NonNull(cs[slot := o]) <= u
  {
    forall c | c in NonNull(cs[slot := o]) ensures c in u {
      assert c != o ==> c in NonNull(cs);
    }
  }

  /** The table b with some of its strings gone. */
  ghost predicate Thinned(b: Body, b': Body) {
    && SetOfStrings(b) && SetOfStrings(b') && |b'.entries| == |b.entries|
    && b'.klass == b.klass && b'.fields == b.fields
    && forall i | 0 <= i < |b.entries| :: b'.entries[i] == b.entries[i] || b'.entries[i] == Imm
  }

  lemma CleanedStr(b: Body, black: set<Obj>)
    requires SetOfStrings(b)
    ensures !b.Str? && !Cleaned(b, black).Str?
  {
  }

  lemma CleanedThinned(b: Body, black: set<Obj>)
    requires SetOfStrings(b)
    ensures Thinned(b, Cleaned(b, black))
  {
  }

  /** Slot k of a stack refers to what can be reached. */
  ghost predicate SlotReached(stack: seq<Val>, k: nat, reached: set<Obj>) {
    k < |stack| && (stack[k].Ref? && stack[k].o != null ==> stack[k].o in reached)
  }

  ghost predicate SlotsReached(s: Snapshot) {
    && s.baseThread != null && s.baseThread in s.bodies && s.bodies[s.baseThread].Thread?
    && var stack := s.bodies[s.baseThread].stack;
    forall k {:trigger SlotReached(stack, k, s.reached)} | 0 <= k < |stack| :: SlotReached(stack, k, s.reached)
  }

  datatype Size = Struct(size: nat) | Other

  /** sizeof of the structure, for objects without buffers. */
  function StructSize(z: Sizes, b: Body): Size {
    match b
    case BoundMethod(_, _) => Struct(z.boundMethod)
    case Class(_, _, isStatic) => if isStatic then Other else Struct(z.klass)
    case Instance(_, _) => Struct(z.instance)
    case Module_(_, _, _) => Struct(z.module_)
    case Native => Struct(z.native)
    case Upvalue(_) => Struct(z.upvalue)
    case Exception(_, _, _) => Struct(z.exception)
    case _ => Other
  }

  lemma NothingIn(f: Obj, uvs: seq<Obj?>)
    requires forall i | 0 <= i < |uvs| :: uvs[i] == null
    ensures NonNull(Children(Closure(f, uvs))) == {f}
  {
    assert Children(Closure(f, uvs))[0] == f;
  }

  lemma CompilerChildren(b: Body, compilers: seq<Obj?>, u: set<Obj>)
    requires b.Thread? && NonNull(Children(b)) <= u && NonNull(compilers) <= u
    ensures NonNull(Children(b.(compilers := compilers))) <= u
  {
    var rest := Refs(b.stack) + Refs([b.exception]) + b.openUpvalues;
    assert Children(b) == rest + b.compilers;
    forall c | c in NonNull(rest + compilers) ensures c in u {
      if c in rest {
        assert c in rest + b.compilers;
      }
    }
  }

  lemma FunctionChildren(b: Body, constants: Obj?, indices: Obj?)
    requires b.Function?
    ensures NonNull(Children(b.(constants := constants))) <= NonNull(Children(b)) + NonNull([constants])
    ensures NonNull(Children(b.(constantIndices := indices))) <= NonNull(Children(b)) + NonNull([indices])
  {
  }

  lemma TakenChildren(compilers: seq<Obj?>, b: Body, capacity: nat)
    requires |compilers| >= 3 && b.Function?
    ensures NonNull(Children(Function(compilers[|compilers| - 3], compilers[|compilers| - 2], null, capacity,
        b.uvCount, b.arities))) <= NonNull(compilers)
    ensures NonNull(compilers[..|compilers| - 3]) <= NonNull(compilers)
  {
  }

  lemma KeyAdded(b: Body, i: nat, o: Obj)
    requires b.Tab? && i < |b.entries| && b.entries[i] == Imm
    ensures KeysOf(b.(entries := b.entries[i := Ref(o)])) == KeysOf(b) + {o}
  {
    var es, es' := b.entries, b.entries[i := Ref(o)];
    forall x: Obj | x in NonNull(Refs(es)) + {o} ensures x in NonNull(Refs(es')) {
      if x == o {
        assert Refs(es')[i] == o;
      } else {
        var j :| 0 <= j < |es| && Refs(es)[j] == x;
        assert Refs(es')[j] == x;
      }
    }
    forall x: Obj | x in NonNull(Refs(es')) ensures x in NonNull(Refs(es)) + {o} {
      var j :| 0 <= j < |es'| && Refs(es')[j] == x;
      assert j != i ==> Refs(es)[j] == x;
    }
  }

  /** A string in the place of nothing. */
  lemma StringChildren(b: Body, i: nat, o: Obj, u: set<Obj>)
    requires SetOfStrings(b) && b.Tab? && i < |b.entries| && i % 2 == 0 && NonNull(Children(b)) <= u && o in u
    ensures NonNull(Children(b.(entries := b.entries[i := Ref(o)]))) <= u
    ensures SetOfStrings(b.(entries := b.entries[i := Ref(o)]))
  {
    var entries := b.entries[i := Ref(o)];
    forall c | c in NonNull(Refs(entries)) ensures c in u {
      var j :| 0 <= j < |entries| && Refs(entries)[j] == c;
      assert j != i ==> Refs(b.entries)[j] == c;
      assert j != i ==> c in NonNull(Children(b));
    }
    forall j | 0 <= j < |entries| ensures OddImm(entries, j) {
      assert OddImm(b.entries, j);
    }
  }

  lemma NoStrings(b: Body)
    requires b.Tab? && |b.entries| % 2 == 0 && forall v | v in b.entries :: v == Imm
    ensures SetOfStrings(b) && KeysOf(b) == {}
  {
    forall i | 0 <= i < |b.entries| ensures b.entries[i] == Imm && Refs(b.entries)[i] == null && OddImm(b.entries, i) {
      assert b.entries[i] in b.entries;
    }
  }

  lemma NothingOn(stack: seq<Val>)
    requires forall i | 0 <= i < |stack| :: stack[i] == Imm
    ensures NonNull(Children(Thread(stack, Imm, [], [], BASE_STACK_SIZE))) == {}
  {
    var cs := Children(Thread(stack, Imm, [], [], BASE_STACK_SIZE));
    assert forall i | 0 <= i < |cs| :: cs[i] == null;
  }
}
