/** The garbage collector (src/memory.c): mark with an explicit gray stack, sweep by unlinking,
    and byte accounting. */
module Collector {
  import opened Bits
  import opened Heap

  const HEAP_GROW_FACTOR := 2

  ghost function Black(u: set<Obj>): set<Obj>
    reads u`isBlack
  {
    set o | o in u && o.isBlack
  }

  /** What marking the objects cs does to the marks and to the gray stack. */
  ghost predicate Marks(black: set<Obj>, gray: seq<Obj>, cs: seq<Obj?>, black': set<Obj>, gray': seq<Obj>) {
    && black' == black + NonNull(cs)
    && Members(gray') == Members(gray) + (NonNull(cs) - black)
    && (NonNull(cs) <= black ==> gray' == gray)
  }

  lemma MarksNone(black: set<Obj>, gray: seq<Obj>)
    ensures Marks(black, gray, [], black, gray)
  {
  }

  lemma MarksTrans(b0: set<Obj>, g0: seq<Obj>, c1: seq<Obj?>, b1: set<Obj>, g1: seq<Obj>, c2: seq<Obj?>,
                   b2: set<Obj>, g2: seq<Obj>)
    requires Marks(b0, g0, c1, b1, g1) && Marks(b1, g1, c2, b2, g2)
    ensures Marks(b0, g0, c1 + c2, b2, g2)
  {
    assert NonNull(c1 + c2) == NonNull(c1) + NonNull(c2);
    if NonNull(c1 + c2) <= b0 {
      assert b1 == b0;
    }
  }

  lemma RefsAppend(vs: seq<Val>, i: nat)
    requires i < |vs|
    ensures Refs(vs[..i + 1]) == Refs(vs[..i]) + Refs([vs[i]])
  {
    assert |Refs(vs[..i + 1])| == i + 1;
  }

  class Collector {
    const z: Sizes
    var objects: Obj?
    var grayStack: seq<Obj>
    var grayCapacity: nat
    var bytesAllocated: nat
    var nextMajorGC: nat
    var nextGCisMajor: bool

    // The roots that the VM keeps, and its weak table of strings.
    var initString: Obj?
    var newString: Obj?
    var globals: Obj?
    var baseThread: Obj?
    var strings: Obj?

    /** The linked objects, newest first, and the bytes of buffers that no object owns yet. */
    ghost var heap: seq<Obj>
    ghost var inflight: nat

    // ----- marking -----

    /** pushGrayStack. */
    method PushGrayStack(o: Obj)
      modifies `grayStack, `grayCapacity
      ensures grayStack == old(grayStack) + [o]
    {
      if grayCapacity < |grayStack| + 1 {
        grayCapacity := GrowCapacity(grayCapacity);
      }
      grayStack := grayStack + [o];
    }

    /** markObject. */
    method MarkObject(o: Obj?, ghost u: set<Obj>)
      requires o != null ==> o in u
      modifies u`isBlack, `grayStack, `grayCapacity
      ensures Marks(old(Black(u)), old(grayStack), [o], Black(u), grayStack)
    {
      if o == null || o.isBlack {
        return;
      }
      assert o in NonNull([o]);
      o.isBlack := true;
      PushGrayStack(o);
    }

    /** markValue. */
    method MarkValue(v: Val, ghost u: set<Obj>)
      requires NonNull(Refs([v])) <= u
      modifies u`isBlack, `grayStack, `grayCapacity
      ensures Marks(old(Black(u)), old(grayStack), Refs([v]), Black(u), grayStack)
    {
      var c := if v.Ref? then v.o else null;
      assert Refs([v]) == [c];
      if v.Ref? {
        assert v.o != null ==> v.o in NonNull(Refs([v]));
        MarkObject(v.o, u);
      }
    }

    /** The loops over values: of markArray, markTable, and markThread over the slots it visits. */
    method MarkValues(vs: seq<Val>, ghost u: set<Obj>)
      requires NonNull(Refs(vs)) <= u
      modifies u`isBlack, `grayStack, `grayCapacity
      ensures Marks(old(Black(u)), old(grayStack), Refs(vs), Black(u), grayStack)
    {
      var i := 0;
      while i < |vs|
        invariant i <= |vs|
        invariant Marks(old(Black(u)), old(grayStack), Refs(vs[..i]), Black(u), grayStack)
      {
        ghost var b, g := Black(u), grayStack;
        RefsAppend(vs, i);
        RefsPart(vs, i);
        MarkValue(vs[i], u);
        MarksTrans(old(Black(u)), old(grayStack), Refs(vs[..i]), b, g, Refs([vs[i]]), Black(u), grayStack);
        i := i + 1;
      }
      assert vs[..i] == vs;
    }

    /** The loops over objects: upvalues of a closure, open upvalues and compilers of a thread. */
    method MarkObjects(cs: seq<Obj?>, ghost u: set<Obj>)
      requires NonNull(cs) <= u
      modifies u`isBlack, `grayStack, `grayCapacity
      ensures Marks(old(Black(u)), old(grayStack), cs, Black(u), grayStack)
    {
      var i := 0;
      while i < |cs|
        invariant i <= |cs|
        invariant Marks(old(Black(u)), old(grayStack), cs[..i], Black(u), grayStack)
      {
        ghost var b, g := Black(u), grayStack;
        assert cs[i] != null ==> cs[i] in NonNull(cs);
        MarkObject(cs[i], u);
        MarksTrans(old(Black(u)), old(grayStack), cs[..i], b, g, [cs[i]], Black(u), grayStack);
        assert cs[..i + 1] == cs[..i] + [cs[i]];
        i := i + 1;
      }
      assert cs[..i] == cs;
    }

    /** blackenObject: the children are marked, in the order of Children. */
    method BlackenObject(o: Obj, ghost u: set<Obj>)
      requires o in u && o.isBlack && NonNull(Children(o.body)) <= u
      modifies u`isBlack, o`isGrey, `grayStack, `grayCapacity
      ensures Marks(old(Black(u)), old(grayStack), Children(o.body), Black(u), grayStack)
      ensures forall x | x in u :: x.isBlack <==> old(x.isBlack) || Holds(o.body, x)
      ensures forall x | x in u :: x in grayStack <==> x in old(grayStack) || (Holds(o.body, x) && !old(x.isBlack))
    {
      hide Marks, Holds;
      ghost var b0, g0 := Black(u), grayStack;
      o.isGrey := false;
      BlackenFields(o, u);
      FieldsMarked(o, u, b0, g0);
    }

    lemma FieldsMarked(o: Obj, u: set<Obj>, b0: set<Obj>, g0: seq<Obj>)
      requires Marks(b0, g0, Children(o.body), Black(u), grayStack)
      ensures forall x | x in u :: x in Black(u) <==> x in b0 || Holds(o.body, x)
      ensures forall x | x in u :: x in grayStack <==> x in g0 || (Holds(o.body, x) && x !in b0)
    {
      hide Holds;
      forall x | x in u
        ensures x in Black(u) <==> x in b0 || Holds(o.body, x)
        ensures x in grayStack <==> x in g0 || (Holds(o.body, x) && x !in b0)
      {
        ChildrenHeld(o.body, x);
        assert x in grayStack <==> x in Members(grayStack);
        assert x in g0 <==> x in Members(g0);
      }
    }

    /** The switch in it. */
    method BlackenFields(o: Obj, ghost u: set<Obj>)
      requires o in u && o.isBlack && NonNull(Children(o.body)) <= u
      modifies u`isBlack, `grayStack, `grayCapacity
      ensures Marks(old(Black(u)), old(grayStack), Children(o.body), Black(u), grayStack)
    {
      hide Marks, NonNull, Black, Refs;
      ghost var b0, g0 := Black(u), grayStack;
      match o.body {
        case Array(klass, fields, values, _) =>
          NonNullParts([klass, fields], Refs(values), u);
          MarkObjects([klass, fields], u);
          ghost var b1, g1 := Black(u), grayStack;
          MarkValues(values, u);
          MarksTrans(b0, g0, [klass, fields], b1, g1, Refs(values), Black(u), grayStack);
        case BoundMethod(receiver, bound) =>
          NonNullParts(Refs([receiver]), [bound], u);
          MarkValue(receiver, u);
          ghost var b1, g1 := Black(u), grayStack;
          MarkObjects([bound], u);
          MarksTrans(b0, g0, Refs([receiver]), b1, g1, [bound], Black(u), grayStack);
        case Class(name, methods, _) =>
          MarkObjects([name, methods], u);
        case Closure(f, upvalues) =>
          NonNullParts([f], upvalues, u);
          MarkObjects([f], u);
          ghost var b1, g1 := Black(u), grayStack;
          MarkObjects(upvalues, u);
          MarksTrans(b0, g0, [f], b1, g1, upvalues, Black(u), grayStack);
        case Function(name, constants, indices, _, _, _) =>
          MarkObjects([name, constants, indices], u);
        case Instance(klass, fields) =>
          MarkObjects([klass, fields], u);
        case Module_(name, fields, klass) =>
          MarkObjects([name, fields, klass], u);
        case Tab(entries, _, _) =>
          MarkValues(entries, u);
        case Upvalue(closed) =>
          MarkValue(closed, u);
        case Exception(klass, fields, msg) =>
          NonNullParts([klass, fields], Refs([msg]), u);
          MarkObjects([klass, fields], u);
          ghost var b1, g1 := Black(u), grayStack;
          MarkValue(msg, u);
          MarksTrans(b0, g0, [klass, fields], b1, g1, Refs([msg]), Black(u), grayStack);
        case Str(klass, fields, _) =>
          MarkObjects([klass, fields], u);
        case Thread(stack, exception, open, compilers, _) =>
          MarkThread(stack, exception, open, compilers, u);
        case Native =>
          MarksNone(b0, g0);
      }
    }

    /** markThread, with markCompilerRoots. */
    method MarkThread(stack: seq<Val>, exception: Val, open: seq<Obj>, compilers: seq<Obj?>, ghost u: set<Obj>)
      requires NonNull(Refs(stack) + Refs([exception]) + open + compilers) <= u
      modifies u`isBlack, `grayStack, `grayCapacity
      ensures Marks(old(Black(u)), old(grayStack), Refs(stack) + Refs([exception]) + open + compilers,
          Black(u), grayStack)
    {
      hide Marks, NonNull, Black, Refs;
      ghost var b0, g0 := Black(u), grayStack;
      NonNullParts(Refs(stack) + Refs([exception]) + open, compilers, u);
      NonNullParts(Refs(stack) + Refs([exception]), open, u);
      NonNullParts(Refs(stack), Refs([exception]), u);
      MarkValues(stack, u);
      ghost var b1, g1 := Black(u), grayStack;
      MarkValue(exception, u);
      MarksTrans(b0, g0, Refs(stack), b1, g1, Refs([exception]), Black(u), grayStack);
      ghost var b2, g2 := Black(u), grayStack;
      MarkObjects(open, u);
      MarksTrans(b0, g0, Refs(stack) + Refs([exception]), b2, g2, open, Black(u), grayStack);
      ghost var b3, g3 := Black(u), grayStack;
      MarkObjects(compilers, u);
      MarksTrans(b0, g0, Refs(stack) + Refs([exception]) + open, b3, g3, compilers, Black(u), grayStack);
    }

    // ----- tracing -----

    ghost function Roots(): set<Obj>
      reads `initString, `newString, `globals, `baseThread
    {
      NonNull([initString, newString, globals, baseThread])
    }

    ghost function Weak(): set<Obj>
      reads `strings
    {
      NonNull([strings])
    }

    /** Roots and edges stay inside the heap. */
    ghost predicate InHeap(u: set<Obj>)
      reads `initString, `newString, `globals, `baseThread, `strings, u`body
    {
      && Roots() <= u && Weak() <= u && Roots() !! Weak()
      && (forall o {:trigger Kids(u)[o]} | o in u :: Kids(u)[o] <= u)
    }

    /** markRoots: the string table is marked, but not pushed. */
    method MarkRoots(ghost u: set<Obj>)
      requires InHeap(u) && Black(u) == {} && grayStack == []
      modifies u`isBlack, `grayStack, `grayCapacity
      ensures Black(u) == Roots() + Weak() && Members(grayStack) == Roots()
    {
      hide Marks, InHeap, NonNull, Black;
      InHeapRoots(u);
      ghost var none: set<Obj> := {};
      MarkObject(initString, u);
      ghost var b1, g1 := Black(u), grayStack;
      MarkObject(newString, u);
      MarksTrans(none, [], [initString], b1, g1, [newString], Black(u), grayStack);
      ghost var b2, g2 := Black(u), grayStack;
      MarkObject(globals, u);
      MarksTrans(none, [], [initString] + [newString], b2, g2, [globals], Black(u), grayStack);
      ghost var b3, g3, cs := Black(u), grayStack, [initString] + [newString] + [globals];
      MarkStrings(u);
      ghost var b4 := Black(u);
      MarkObject(baseThread, u);
      RootsMarked(b3, g3, b4, Black(u), grayStack);
    }

    lemma InHeapRoots(u: set<Obj>)
      requires InHeap(u)
      ensures initString != null ==> initString in u
      ensures newString != null ==> newString in u
      ensures globals != null ==> globals in u
      ensures baseThread != null ==> baseThread in u
      ensures strings != null ==> strings in u
      ensures Roots() !! Weak()
    {
      assert initString != null ==> initString in Roots();
      assert newString != null ==> newString in Roots();
      assert globals != null ==> globals in Roots();
      assert baseThread != null ==> baseThread in Roots();
      assert strings != null ==> strings in Weak();
    }

    /** The string table is marked by hand: its entries are not to be marked. */
    method MarkStrings(ghost u: set<Obj>)
      requires strings != null ==> strings in u
      modifies u`isBlack
      ensures Black(u) == old(Black(u)) + Weak()
    {
      if strings != null {
        strings.isBlack := true;
      }
    }

    lemma RootsMarked(b3: set<Obj>, g3: seq<Obj>, b4: set<Obj>, b5: set<Obj>, g5: seq<Obj>)
      requires Marks({}, [], [initString] + [newString] + [globals], b3, g3) && b4 == b3 + Weak()
      requires Marks(b4, g3, [baseThread], b5, g5) && Roots() !! Weak()
      ensures b5 == Roots() + Weak() && Members(g5) == Roots()
    {
      assert Roots() == NonNull([initString] + [newString] + [globals]) + NonNull([baseThread]) by {
        assert [initString, newString, globals, baseThread] == [initString] + [newString] + [globals] + [baseThread];
      }
      if Weak() != {} {
        assert Weak() !! NonNull([baseThread]);
      }
    }

    /** traceReferences: what is black at the end is what is reachable, and the string table. */
    method TraceReferences(ghost u: set<Obj>)
      requires InHeap(u) && Black(u) == Roots() + Weak() && Members(grayStack) == Roots()
      modifies u`isBlack, u`isGrey, `grayStack, `grayCapacity
      ensures grayStack == [] && Black(u) == Reach(Kids(u), Roots(), Weak()) + Weak()
      ensures ClosedIn(Black(u), Kids(u), Weak()) && Roots() + Weak() <= Black(u) <= u
    {
      hide Marks, Traced, Kids, Reach, ClosedIn, Black, NonNull;
      ghost var kids, roots, weak := Kids(u), Roots(), Weak();
      TraceBegin(u);
      while |grayStack| > 0
        invariant Kids(u) == kids && Traced(Black(u), grayStack, kids, roots, weak)
        decreases u - Black(u), |grayStack|
      {
        ghost var b0, g0 := Black(u), grayStack;
        var o := grayStack[|grayStack| - 1];
        grayStack := grayStack[..|grayStack| - 1];
        TraceTop(b0, g0, grayStack, o, kids, roots, weak);
        ghost var g1 := grayStack;
        KidsAt(o, u);
        BlackenObject(o, u);
        TraceStep(b0, g0, g1, o, Children(o.body), Black(u), grayStack, kids, roots, weak);
        BlackWithin(u);
      }
      TraceEnd(Black(u), grayStack, kids, roots, weak);
      BlackWithin(u);
    }

    lemma TraceBegin(u: set<Obj>)
      requires InHeap(u) && Black(u) == Roots() + Weak() && Members(grayStack) == Roots()
      ensures Traced(Black(u), grayStack, Kids(u), Roots(), Weak())
    {
      TraceStart(Black(u), grayStack, Kids(u), Roots(), Weak());
    }

    lemma KidsAt(o: Obj, u: set<Obj>)
      requires o in Kids(u)
      ensures o in u && Kids(u)[o] == NonNull(Children(o.body)) && Kids(u).Keys == u && (o in Black(u) ==> o.isBlack)
    {
    }

    lemma BlackWithin(u: set<Obj>)
      ensures Black(u) <= u
    {
    }

    // ----- freeing -----

    /** _free: its assertion never fails. */
    method Free(oldSize: nat)
      requires bytesAllocated >= oldSize
      modifies `bytesAllocated
      ensures bytesAllocated == old(bytesAllocated) - oldSize
    {
      assert bytesAllocated >= oldSize;
      bytesAllocated := bytesAllocated - oldSize;
    }

    /** freeObject, with freeChunk and freeTable. */
    method FreeObject(o: Obj)
      requires bytesAllocated >= Footprint(z, o.body)
      modifies `bytesAllocated, o`body
      ensures bytesAllocated == old(bytesAllocated) - Footprint(z, old(o.body))
    {
      match o.body {
        case Array(_, _, _, capacity) =>
          Free(VALUE_SIZE * capacity);
          Free(z.arr);
        case BoundMethod(_, _) => Free(z.boundMethod);
        case Class(_, _, isStatic) =>
          if isStatic {
            o.body := Class(null, null, true);
          } else {
            Free(z.klass);
          }
        case Closure(_, upvalues) =>
          Free(ADDRESS_SIZE * |upvalues|);
          Free(z.closure);
        case Function(_, _, _, codeCapacity, uvCount, arities) =>
          Free(4 * codeCapacity);
          Free(8 * codeCapacity);
          Free(z.function_ + 2 * uvCount + 8 * arities);
        case Instance(_, _) => Free(z.instance);
        case Module_(_, _, _) => Free(z.module_);
        case Native => Free(z.native);
        case Str(_, _, length) =>
          Free(length + 1);
          Free(z.str);
        case Tab(entries, _, _) =>
          if |entries| != 0 {
            Free(VALUE_SIZE * |entries|);
          }
          Free(z.table);
        case Upvalue(_) => Free(z.upvalue);
        case Thread(_, _, _, _, stackSize) =>
          Free(VALUE_SIZE * stackSize);
          Free(z.thread);
        case Exception(_, _, _) => Free(z.exception);
      }
    }

    ghost predicate Accounted()
      reads `bytesAllocated, `heap, `inflight, Members(heap)`body
    {
      bytesAllocated == TotalSize(z, heap) + inflight
    }

    /** One object is unlinked, through the link that leads to it, and freed. */
    method Remove(prev: Obj?, o: Obj, ghost kept: seq<Obj>, ghost rest: seq<Obj>)
      requires heap == kept + ([o] + rest) && Linked(objects, heap) && Accounted()
      requires prev == (if kept == [] then null else kept[|kept| - 1])
      modifies `objects, `bytesAllocated, `heap, Members(kept)`next, o`body
      ensures heap == kept + rest && Linked(objects, heap) && Accounted()
      ensures o.next == old(o.next) && o.next == (if rest == [] then null else rest[0])
      ensures o !in kept && o !in rest
    {
      hide Linked, TotalSize, Footprint;
      LinkedHead(objects, kept, [o] + rest);
      assert ([o] + rest)[1..] == rest;
      ghost var list := kept + rest;
      TotalSizeRemove(z, kept, o, rest);
      ghost var total := TotalSize(z, list);
      Unlink(prev, o, kept, rest);
      heap := list;
      FreeObject(o);
      assert o !in Members(list);
      assert TotalSize(z, list) == total;
    }

    /** *o = (*o)->next, where o is a link of the list: its head, or the one in prev. */
    method Unlink(prev: Obj?, o: Obj, ghost kept: seq<Obj>, ghost rest: seq<Obj>)
      requires Linked(objects, kept + ([o] + rest)) && o !in kept
      requires prev == (if kept == [] then null else kept[|kept| - 1])
      modifies `objects, Members(kept)`next
      ensures Linked(objects, kept + rest)
    {
      ghost var nexts, objects0 := Nexts(Members(kept + ([o] + rest))), objects;
      LinkedByNexts(objects, kept + ([o] + rest));
      LinkedHead(objects, kept, [o] + rest);
      LinkedFirst(objects, kept + ([o] + rest));
      assert o in kept + ([o] + rest) && forall x | x in kept + rest :: x in kept + ([o] + rest);
      if prev == null {
        objects := o.next;
      } else {
        prev.next := o.next;
      }
      Unlinked(kept, o, rest, objects0, objects, nexts);
    }

    /** One turn of the loop in sweep. */
    method SweepOne(prev: Obj?, o: Obj, major: bool, ghost kept: seq<Obj>, ghost rest: seq<Obj>)
        returns (prev': Obj?, o': Obj?, ghost kept': seq<Obj>)
      requires heap == kept + ([o] + rest) && Linked(objects, heap) && Accounted()
      requires prev == (if kept == [] then null else kept[|kept| - 1])
      modifies `objects, `bytesAllocated, `heap, Members(kept)`next, o
      ensures heap == kept' + rest && Linked(objects, heap) && Accounted()
      ensures o' == (if rest == [] then null else rest[0])
      ensures prev' == (if kept' == [] then null else kept'[|kept'| - 1])
      ensures kept' == kept + (if old(o.isBlack) then [o] else []) && o !in kept && o !in rest
      ensures old(o.isBlack) ==> o.isBlack == !major && o.body == old(o.body)
      ensures Members(rest) !! Members(kept) + {o}
      ensures forall x {:trigger x.isBlack} {:trigger x.body} | x in Members(kept) ::
        x.isBlack == old(x.isBlack) && x.body == old(x.body)
      ensures Members(kept') == Members(kept) + (if old(o.isBlack) then {o} else {})
    {
      hide Linked, TotalSize, Footprint;
      Apart(objects, kept, o, rest);
      LinkedHead(objects, kept, [o] + rest);
      assert ([o] + rest)[1..] == rest;
      if o.isBlack {
        if major {
          o.isBlack := false;
        }
        kept' := kept + [o];
        assert heap == kept' + rest;
        prev', o' := o, o.next;
      } else {
        prev', o', kept' := prev, o.next, kept;
        Remove(prev, o, kept, rest);
      }
    }

    /** The same, for what is known of the marks and the contents of all objects. */
    method SweepTurn(prev: Obj?, o: Obj, major: bool, ghost kept: seq<Obj>, ghost rest: seq<Obj>,
                     ghost black: set<Obj>, ghost bodies: map<Obj, Body>)
        returns (prev': Obj?, o': Obj?, ghost kept': seq<Obj>)
      requires heap == kept + ([o] + rest) && Linked(objects, heap) && Accounted()
      requires prev == (if kept == [] then null else kept[|kept| - 1])
      requires forall x {:trigger Waiting(x, black, bodies)} | x in {o} + Members(rest) :: Waiting(x, black, bodies)
      requires forall x {:trigger Swept(x, major, bodies)} | x in Members(kept) :: Swept(x, major, bodies)
      modifies `objects, `bytesAllocated, `heap, Members(kept)`next, o
      ensures heap == kept' + rest && Linked(objects, heap) && Accounted()
      ensures o' == (if rest == [] then null else rest[0])
      ensures prev' == (if kept' == [] then null else kept'[|kept'| - 1])
      ensures kept' == kept + (if o in black then [o] else [])
      ensures Members(kept') == Members(kept) + (if o in black then {o} else {})
      ensures forall x {:trigger Waiting(x, black, bodies)} | x in Members(rest) :: Waiting(x, black, bodies)
      ensures forall x {:trigger Swept(x, major, bodies)} | x in Members(kept') :: Swept(x, major, bodies)
    {
      hide Linked, Accounted, TotalSize, Footprint;
      assert Waiting(o, black, bodies);
      prev', o', kept' := SweepOne(prev, o, major, kept, rest);
      forall x | x in Members(rest) ensures Waiting(x, black, bodies) {
        assert old(Waiting(x, black, bodies));
      }
      forall x | x in Members(kept') ensures Swept(x, major, bodies) {
        if x in Members(kept) {
          assert old(Swept(x, major, bodies));
        } else {
          assert x == o;
        }
      }
    }

    /** sweep: frees what is not black. */
    method Sweep(major: bool)
      requires Linked(objects, heap) && Accounted()
      modifies `objects, `bytesAllocated, `heap, Members(heap)
      ensures heap == Survivors(old(heap), old(Black(Members(heap)))) && Linked(objects, heap) && Accounted()
      ensures forall o | o in heap && o in old(heap) :: o.isBlack == !major && o.body == old(o.body)
    {
      hide Linked, Accounted, Survivors, TotalSize, Footprint, Members;
      ghost var black, list := Black(Members(heap)), heap;
      ghost var kept: seq<Obj>, rest := [], heap;
      var prev: Obj?, o := null, objects;
      ghost var bodies := map x | x in Members(heap) :: x.body;
      ghost var i: nat := 0;
      assert kept + rest == heap;
      MembersNone(list);
      LinkedFirst(objects, heap);
      SurvivorsNone(black);
      while o != null
        invariant heap == kept + rest && Linked(objects, heap) && Accounted()
        invariant i <= |list| && list[i..] == rest && kept == Survivors(list[..i], black)
        invariant o == (if rest == [] then null else rest[0]) && prev == (if kept == [] then null else kept[|kept| - 1])
        invariant Members(kept) + Members(rest) <= Members(list)
        invariant forall x {:trigger Waiting(x, black, bodies)} | x in Members(rest) :: Waiting(x, black, bodies)
        invariant forall x {:trigger Swept(x, major, bodies)} | x in Members(kept) :: Swept(x, major, bodies)
        decreases |rest|
      {
        ghost var tail := rest[1..];
        SplitHead(list, kept, rest, i);
        SurvivorsStep(list, i, black);
        prev, o, kept := SweepTurn(prev, o, major, kept, tail, black, bodies);
        rest, i := tail, i + 1;
      }
      assert list[..|list|] == list;
      SweptAll(heap, kept, major, bodies);
    }

    /** freeObjects: every object is freed, and nothing remains allocated. */
    method FreeObjects()
      requires Linked(objects, heap) && Accounted()
      modifies `objects, `bytesAllocated, `heap, Members(heap)`body
      ensures heap == [] && bytesAllocated == inflight
    {
      hide Linked, Accounted;
      ghost var list := heap;
      var o := objects;
      LinkedFirst(o, heap);
      while o != null
        invariant o == (if heap == [] then null else heap[0])
        invariant Linked(o, heap) && Accounted() && Members(heap) <= Members(list)
        decreases |heap|
      {
        o := FreeFirst(o);
      }
      AccountedNone();
    }

    lemma AccountedNone()
      requires Accounted() && heap == []
      ensures bytesAllocated == inflight
    {
    }

    /** One turn of its loop. */
    method FreeFirst(o: Obj) returns (next: Obj?)
      requires heap != [] && heap[0] == o && Linked(o, heap) && Accounted()
      modifies `bytesAllocated, `heap, o`body
      ensures heap == old(heap)[1..] && next == (if heap == [] then null else heap[0])
      ensures Linked(next, heap) && Accounted() && Members(heap) <= old(Members(heap))
    {
      hide Linked, TotalSize, Footprint;
      next := o.next;
      LinkedTail(o, heap);
      ghost var rest := heap[1..];
      assert [] + ([o] + rest) == heap && [] + rest == rest;
      TotalSizeRemove(z, [], o, rest);
      heap := rest;
      ghost var total := TotalSize(z, rest);
      FreeObject(o);
      assert o !in Members(rest);
      assert TotalSize(z, rest) == total;
      LinkedFirst(next, rest);
    }

    // ----- collecting -----

    /** The string table maps its strings to nil, and a tombstone to true: no value is an object. */
    ghost predicate StringsOk()
      reads `strings, Weak()`body
    {
      forall s | s in Weak() :: SetOfStrings(s.body)
    }

    /** Links, edges, roots and the string table are in order. */
    ghost predicate Good()
      reads this, Members(heap)`next, Members(heap)`body, Weak()`body
    {
      Linked(objects, heap) && InHeap(Members(heap)) && StringsOk()
    }

    /** Between collections nothing is marked. */
    ghost predicate Resting()
      reads this, Members(heap)`isBlack
    {
      Black(Members(heap)) == {} && grayStack == []
    }

    /** What every operation keeps. */
    ghost predicate Valid()
      reads this, Members(heap)`next, Members(heap)`body, Members(heap)`isBlack, Weak()`body
    {
      Good() && Resting() && Accounted()
    }

    /** tableRemoveWhite on the string table: a string that is not black leaves the table. */
    method RemoveWhiteStrings(ghost u: set<Obj>)
      requires strings != null && SetOfStrings(strings.body) && NonNull(Children(strings.body)) <= u
      modifies strings`body
      ensures strings.body == Cleaned(old(strings.body), Black(u))
    {
      hide Cleaning, OddImm, CleanEntry, Black;
      var entries := strings.body.entries;
      ghost var b, e0, black := strings.body, entries, Black(u);
      CleaningStart(e0, black);
      var i := 1;
      while i < |entries|
        invariant i % 2 == 1 && |entries| == |e0| && i <= |e0| + 1
        invariant strings.body == b && Cleaning(e0, entries, i - 1, black)
      {
        OddAt(b, i);
        CleaningAt(e0, entries, i - 1, black, u);
        ghost var before := entries;
        if entries[i - 1].Ref? && entries[i - 1].o != null && !entries[i - 1].o.isBlack {
          entries := entries[i - 1 := Imm][i := Imm];
        }
        CleaningBlack(e0, i - 1, u);
        CleaningStep(e0, before, entries, i - 1, Black(u));
        i := i + 2;
      }
      CleaningEnd(e0, entries, i - 1, black);
      strings.body := strings.body.(entries := entries);
    }

    /** collectGarbage after tracing: the strings that are not black leave the table, which takes
        nothing from the accounts. */
    method CleanStrings()
      requires Linked(objects, heap) && Accounted() && StringsOk() && InHeap(Members(heap))
      modifies NonNull([strings])`body
      ensures Linked(objects, heap) && Accounted() && StringsOk()
      ensures forall o | o in Members(heap) ::
        o.body == (if o in Weak() then Cleaned(old(o.body), Black(Members(heap))) else old(o.body))
      ensures forall o | o in Members(heap) && o in Weak() ::
        SetOfStrings(old(o.body)) && NonNull(Children(old(o.body))) <= Members(heap)
    {
      hide TotalSize, Linked;
      if strings != null {
        var s: Obj := strings;
        assert s in NonNull([strings]);
        assert Kids(Members(heap))[s] <= Members(heap);
        ghost var a, b := SplitAt(heap, s, objects);
        TotalSizeRemove(z, a, s, b);
        ghost var total := TotalSize(z, a + b);
        RemoveWhiteStrings(Members(heap));
        assert s !in Members(a + b);
        assert TotalSize(z, a + b) == total;
        TotalSizeRemove(z, a, s, b);
      }
    }

    /** collectGarbage when more has been allocated than the limit allows: what is freed is
        exactly what cannot be reached, but for the string table; the others stay in order, with
        their contents; nothing that remains leads to a freed object; and nothing remains marked. */
    method CollectGarbage()
      requires Valid() && bytesAllocated > nextMajorGC
      modifies this, Members(heap)
      ensures Valid() && unchanged(`inflight, `initString, `newString, `globals, `baseThread, `strings)
      ensures Members(heap) == old(Reachables()) + Weak()
      ensures Survived(old(heap), old(Reachables()), old(Bodies(Members(heap))), old(Kids(Members(heap))), heap)
      ensures nextMajorGC == (if old(nextGCisMajor) then bytesAllocated * HEAP_GROW_FACTOR else old(nextMajorGC))
      ensures nextGCisMajor
      ensures forall r: Obj | r in [initString, newString, globals, baseThread, strings] :: r in Members(heap)
      ensures forall o, x: Obj {:trigger Holds(o.body, x)} | o in Members(heap) && Holds(o.body, x) ::
        x in Members(heap)
      ensures forall o | o in Members(heap) :: o in old(Members(heap)) && (o != strings ==> o.body == old(o.body))
      ensures strings != null ==> LeftOver(old(strings.body), strings.body, Members(heap))
      ensures var roots, bodies := [initString, newString, globals, baseThread], old(Bodies(Members(heap)));
        forall t: set<Obj> {:trigger Keeps(t, roots, bodies, strings)} | Keeps(t, roots, bodies, strings) ::
          forall o | o in Members(heap) && o != strings :: o in t
    {
      hide Valid, Survived, Reachables, Holds, Keeps, LeftOver, InHeap, StringsOk, Kept;
      ghost var u, kids, bodies := Members(heap), Kids(Members(heap)), Bodies(Members(heap));
      EdgesBefore();
      MarkAndSweep();
      FieldsKept(bodies, kids);
      NothingElse(u, bodies, kids);
    }

    lemma EdgesBefore()
      requires Valid()
      ensures Roots() <= Members(heap) && Kids(Members(heap)).Keys == Members(heap) == Bodies(Members(heap)).Keys
      ensures Reachables() == Reach(Kids(Members(heap)), Roots(), Weak())
      ensures forall o | o in Members(heap) ::
        && Kids(Members(heap))[o] == NonNull(Children(Bodies(Members(heap))[o]))
        && Kids(Members(heap))[o] <= Members(heap)
    {
    }

    /** Its body. */
    method MarkAndSweep()
      requires Valid() && bytesAllocated > nextMajorGC
      modifies this, Members(heap)
      ensures Valid() && unchanged(`inflight, `initString, `newString, `globals, `baseThread, `strings)
      ensures Members(heap) == old(Reachables()) + Weak()
      ensures Survived(old(heap), old(Reachables()), old(Bodies(Members(heap))), old(Kids(Members(heap))), heap)
      ensures nextMajorGC == (if old(nextGCisMajor) then bytesAllocated * HEAP_GROW_FACTOR else old(nextMajorGC))
      ensures nextGCisMajor && InHeap(Members(heap)) && StringsOk()
      ensures forall o {:trigger Kept(o, old(Bodies(Members(heap))), old(Kids(Members(heap))), Weak(), Members(heap))} |
        o in Members(heap) :: Kept(o, old(Bodies(Members(heap))), old(Kids(Members(heap))), Weak(), Members(heap))
    {
      hide Linked, TotalSize, Footprint, Reach, ClosedIn, Cleaned, SetOfStrings;
      hide Accounted, InHeap, StringsOk, Kids, Black, Survivors, Members;
      hide Roots, Weak, Holds, Keeps, LeftOver;
      ghost var u, kids, bodies := Members(heap), Kids(Members(heap)), Bodies(Members(heap));
      KeptBefore(u);
      MarkReachable();
      var major := bytesAllocated > nextMajorGC;
      Reclaim(major, bodies, kids);
      if nextGCisMajor {
        nextMajorGC := bytesAllocated * HEAP_GROW_FACTOR;
      }
      nextGCisMajor := major;
      KeptInHeap(bodies, kids);
      NoneBlack(Members(heap));
    }

    /** What is left holds nothing that is not. */
    lemma FieldsKept(bodies: map<Obj, Body>, kids: map<Obj, set<Obj>>)
      requires InHeap(Members(heap)) && StringsOk()
      requires forall o {:trigger Kept(o, bodies, kids, Weak(), Members(heap))} | o in Members(heap) ::
                 Kept(o, bodies, kids, Weak(), Members(heap))
      ensures forall r: Obj | r in [initString, newString, globals, baseThread, strings] :: r in Members(heap)
      ensures forall o, x: Obj {:trigger Holds(o.body, x)} | o in Members(heap) && Holds(o.body, x) ::
        x in Members(heap)
      ensures forall o | o in Members(heap) :: o in bodies && (o != strings ==> o.body == bodies[o])
      ensures strings != null ==> strings in bodies && LeftOver(bodies[strings], strings.body, Members(heap))
    {
      hide Holds;
      var u := Members(heap);
      forall r: Obj | r in [initString, newString, globals, baseThread, strings] ensures r in u {
        assert r in Roots() + Weak();
      }
      forall o, x: Obj | o in u && Holds(o.body, x) ensures x in u {
        ChildrenHeld(o.body, x);
        assert Kids(u)[o] <= u;
      }
      forall o | o in u ensures o in bodies && (o != strings ==> o.body == bodies[o]) {
        assert Kept(o, bodies, kids, Weak(), u);
      }
      if strings != null {
        assert Kept(strings, bodies, kids, Weak(), u);
      }
    }

    /** And every set that holds what is held has what is left. */
    lemma NothingElse(u: set<Obj>, bodies: map<Obj, Body>, kids: map<Obj, set<Obj>>)
      requires bodies.Keys == kids.Keys == u && Members(heap) == Reach(kids, Roots(), Weak()) + Weak()
      requires forall o | o in u :: kids[o] == NonNull(Children(bodies[o])) && kids[o] <= u
      requires Roots() <= u
      ensures forall t: set<Obj> {:trigger Keeps(t, [initString, newString, globals, baseThread], bodies, strings)} |
        Keeps(t, [initString, newString, globals, baseThread], bodies, strings) ::
          forall o | o in Members(heap) && o != strings :: o in t
    {
      hide Holds;
      var roots := [initString, newString, globals, baseThread];
      forall t: set<Obj>, o | Keeps(t, roots, bodies, strings) && o in Members(heap) && o != strings
        ensures o in t
      {
        var s := t * u;
        forall x, y | x in s && x !in Weak() && y in kids[x] ensures y in s {
          ChildrenHeld(bodies[x], y);
        }
        assert ClosedIn(s, kids, Weak());
        assert Reachable(o, kids, Roots(), Weak());
      }
    }


    /** The sweeping half, from the string table on. */
    method Reclaim(major: bool, ghost bodies: map<Obj, Body>, ghost kids: map<Obj, set<Obj>>)
      requires Linked(objects, heap) && Accounted() && StringsOk()
      requires InHeap(Members(heap)) && Black(Members(heap)) <= Members(heap)
      requires bodies == Bodies(Members(heap)) && kids == Kids(Members(heap))
      modifies `objects, `bytesAllocated, `heap, Members(heap)
      ensures Linked(objects, heap) && Accounted() && Members(heap) == old(Black(Members(heap)))
      ensures heap == Survivors(old(heap), Members(heap))
      ensures forall o {:trigger Kept(o, bodies, kids, Weak(), Members(heap))} | o in Members(heap) ::
        Kept(o, bodies, kids, Weak(), Members(heap))
      ensures forall o {:trigger o.isBlack} | o in Members(heap) :: o.isBlack == !major
    {
      hide Linked, TotalSize, Footprint, Cleaned, SetOfStrings, Accounted, StringsOk, InHeap, Survivors;
      ghost var list, black := heap, Black(Members(heap));
      InHeapRoots(Members(heap));
      CleanStrings();
      ghost var cleaned := Bodies(Members(list));
      assert Black(Members(heap)) == black;
      SurvivorsMembers(list, black);
      Sweep(major);
    }

    lemma KeptBefore(u: set<Obj>)
      requires InHeap(u)
      ensures Roots() !! Weak()
    {
    }

    lemma NoneBlack(u: set<Obj>)
      requires forall o {:trigger o.isBlack} | o in u :: !o.isBlack
      ensures Black(u) == {}
    {
    }

    /** The marking half of a collection. */
    method MarkReachable()
      requires InHeap(Members(heap)) && StringsOk() && Resting()
      modifies Members(heap)`isBlack, Members(heap)`isGrey, `grayStack, `grayCapacity
      ensures InHeap(Members(heap)) && StringsOk()
      ensures grayStack == [] && Black(Members(heap)) == Reach(Kids(Members(heap)), Roots(), Weak()) + Weak()
      ensures ClosedIn(Black(Members(heap)), Kids(Members(heap)), Weak())
      ensures Roots() + Weak() <= Black(Members(heap)) <= Members(heap)
    {
      MarkRoots(Members(heap));
      TraceReferences(Members(heap));
    }

    ghost function Reachables(): set<Obj>
      reads `initString, `newString, `globals, `baseThread, `strings, `heap, Members(heap)`body
    {
      Reach(Kids(Members(heap)), Roots(), Weak())
    }

    /** What an allocation leaves of a list: everything that could be reached, in order and
        unchanged, but for strings that left the string table. */
    ghost predicate Survived(list: seq<Obj>, reached: set<Obj>, bodies: map<Obj, Body>, kids: map<Obj, set<Obj>>,
                             kept: seq<Obj>)
      reads `strings, Members(kept)`body
    {
      && kept == Survivors(list, Members(kept)) && reached + Weak() <= Members(kept) <= Members(list)
      && forall o {:trigger Kept(o, bodies, kids, Weak(), Members(kept))} | o in Members(kept) ::
           Kept(o, bodies, kids, Weak(), Members(kept))
    }

    /** When what remains is closed, no edge of it leaves the heap. */
    lemma KeptInHeap(bodies: map<Obj, Body>, kids: map<Obj, set<Obj>>)
      requires var black := Members(heap);
        && Roots() + Weak() <= black && Roots() !! Weak() && ClosedIn(black, kids, Weak())
        && (forall o {:trigger Kept(o, bodies, kids, Weak(), black)} | o in black ::
            Kept(o, bodies, kids, Weak(), black))
      ensures InHeap(Members(heap)) && StringsOk()
    {
      var black := Members(heap);
      forall o | o in black ensures Kids(black)[o] <= black {
        assert Kept(o, bodies, kids, Weak(), black);
        if o in Weak() {
          CleanedKids(bodies[o], black);
        }
      }
      if strings != null {
        assert strings in Weak();
        assert Kept(strings, bodies, kids, Weak(), black);
      }
    }

    // ----- what the rest of the VM does to the heap -----

    /** An empty heap. */
    constructor (z: Sizes, nextMajorGC: nat)
      ensures Valid() && heap == [] && inflight == 0 && bytesAllocated == 0 && !nextGCisMajor
    {
      this.z, this.nextMajorGC := z, nextMajorGC;
      objects, initString, newString, globals, baseThread, strings := null, null, null, null, null, null;
      grayStack, grayCapacity, bytesAllocated, nextGCisMajor := [], 0, 0, false;
      heap, inflight := [], 0;
    }

    /** reallocate, for a buffer: no call in the source shrinks one, so that its assertion holds
        (module Sites has the calls and their sizes). When this allocates over the limit there is a
        collection first, that keeps at least what can be reached. */
    method Reallocate(oldSize: nat, newSize: nat)
      requires Valid() && oldSize <= newSize + inflight
      modifies this, Members(heap)
      ensures Valid() && inflight == old(inflight) + newSize - oldSize
      ensures unchanged(`initString, `newString, `globals, `baseThread, `strings)
      ensures Survived(old(heap), old(Reachables()), old(Bodies(Members(heap))), old(Kids(Members(heap))), heap)
      ensures newSize > oldSize && old(bytesAllocated) + newSize - oldSize > old(nextMajorGC) ==>
          Members(heap) == old(Reachables()) + Weak()
      ensures old(Reachables()) <= Reachables()
    {
      hide Reachables, Survived, Kids, Bodies, Linked, TotalSize, InHeap, StringsOk, Black, Weak;
      assert bytesAllocated + newSize >= oldSize;
      ghost var u, list := Members(heap), heap;
      ghost var reached, bodies, kids := Reachables(), Bodies(u), Kids(u);
      NothingCleaned();
      ReachedHere();
      bytesAllocated, inflight := bytesAllocated + newSize - oldSize, inflight + newSize - oldSize;
      if newSize > oldSize && bytesAllocated > nextMajorGC {
        CollectGarbage();
      }
      StillReachable(list, reached, bodies, kids);
    }

    lemma ReachedHere()
      ensures Reachables() == Reach(Kids(Members(heap)), Roots(), Weak()) && Kids(Members(heap)).Keys == Members(heap)
    {
    }

    /** What could be reached before an allocation still can. */
    lemma StillReachable(list: seq<Obj>, reached: set<Obj>, bodies: map<Obj, Body>, kids: map<Obj, set<Obj>>)
      requires Survived(list, reached, bodies, kids, heap)
      requires reached == Reach(kids, Roots(), Weak()) && kids.Keys == Members(list)
      ensures reached <= Reachables()
    {
      hide Survivors;
      var u := Members(heap);
      forall o, s: set<Obj> | o in reached && s <= u && Roots() <= s && ClosedIn(s, Kids(u), Weak()) ensures o in s {
        forall x | x in s && x in kids && x !in Weak() ensures kids[x] <= s {
          assert Kept(x, bodies, kids, Weak(), u);
          assert Kids(u)[x] == kids[x];
        }
        assert Reachable(o, kids, Roots(), Weak());
        assert ClosedIn(s, kids, Weak());
      }
      forall o | o in reached ensures o in Reachables() {
        assert Reachable(o, Kids(u), Roots(), Weak());
      }
    }

    /** A new object takes nothing from what can be reached. */
    lemma ReachedBeside(o: Obj, list: seq<Obj>, reached: set<Obj>, kids: map<Obj, set<Obj>>)
      requires heap == [o] + list && o !in list && Roots() <= Members(list)
      requires kids == Kids(Members(list)) && reached == Reach(kids, Roots(), Weak())
      requires forall x {:trigger kids[x]} | x in kids :: kids[x] <= Members(list)
      ensures reached <= Reachables()
    {
      var u := Members(heap);
      forall x, s: set<Obj> | x in reached && s <= u && Roots() <= s && ClosedIn(s, Kids(u), Weak()) ensures x in s {
        var s' := s - {o};
        forall y | y in s' && y in kids && y !in Weak() ensures kids[y] <= s' {
          assert Kids(u)[y] == kids[y];
        }
        assert Reachable(x, kids, Roots(), Weak());
        assert s' <= kids.Keys && Roots() <= s' && ClosedIn(s', kids, Weak());
      }
      forall x | x in reached ensures x in Reachables() {
        assert Reachable(x, Kids(u), Roots(), Weak());
      }
    }

    /** Without a collection everything is as after one that frees nothing. */
    lemma NothingCleaned()
      requires InHeap(Members(heap)) && StringsOk()
      ensures Survived(heap, Reachables(), Bodies(Members(heap)), Kids(Members(heap)), heap)
    {
      SurvivorsAll(heap);
      var bodies, kids := Bodies(Members(heap)), Kids(Members(heap));
      forall o | o in Members(heap) ensures Kept(o, bodies, kids, Weak(), Members(heap)) {
        if o in Weak() {
          assert Kids(Members(heap))[o] <= Members(heap);
          CleanedSame(o.body, Members(heap));
        }
      }
    }

    /** allocateObject, and what the caller stores in the new object before anything else is
        allocated: references to what can be reached, and buffers that no object owned. */
    method AllocateObject(size: nat, body: Body) returns (o: Obj)
      requires Valid() && NonNull(Children(body)) <= Reachables()
      requires size <= Footprint(z, body) <= size + inflight
      modifies this, Members(heap)
      ensures Valid() && fresh(o) && o.body == body && inflight == old(inflight) + size - Footprint(z, body)
      ensures unchanged(`initString, `newString, `globals, `baseThread, `strings)
      ensures heap != [] && heap[0] == o
      ensures Survived(old(heap), old(Reachables()), old(Bodies(Members(heap))), old(Kids(Members(heap))), heap[1..])
      ensures old(Reachables()) <= Reachables()
    {
      hide Reachables, Kids, Bodies, Linked, TotalSize, Footprint, InHeap, StringsOk, Black;
      hide Survivors, Kept;
      Reallocate(0, size);
      ghost var list := heap;
      ghost var reached, kids := Reachables(), Kids(Members(heap));
      ReachedHere();
      InHeapEdges();
      o := new Obj(body);
      assert Kids(Members(list)) == kids;
      Link(o);
      assert heap[1..] == list;
      assert Kids(Members(list)) == kids;
      ReachedBeside(o, list, reached, kids);
    }

    lemma InHeapEdges()
      requires InHeap(Members(heap))
      ensures Roots() <= Members(heap) && Weak() <= Members(heap)
      ensures forall x {:trigger Kids(Members(heap))[x]} | x in Kids(Members(heap)) ::
        Kids(Members(heap))[x] <= Members(heap)
    {
    }

    /** A new object becomes the first of the list. */
    method Link(o: Obj)
      requires Valid() && o !in heap && o.next == null && !o.isBlack && NonNull(Children(o.body)) <= Members(heap)
      requires Footprint(z, o.body) <= inflight
      modifies `objects, `heap, `inflight, o`next
      ensures Valid() && heap == [o] + old(heap) && inflight == old(inflight) - Footprint(z, o.body)
    {
      hide TotalSize, Footprint, StringsOk, Linked, InHeap, Black, Members;
      ghost var list, u := heap, Members(heap);
      MembersCons(o, list);
      AddedInHeap(o, u);
      o.next := objects;
      objects := o;
      assert o !in u && TotalSize(z, list) == old(TotalSize(z, list));
      assert Linked(o.next, list);
      LinkedCons(o, list);
      TotalSizeRemove(z, [], o, list);
      assert [] + ([o] + list) == [o] + list && [] + list == list;
      heap, inflight := [o] + list, inflight - Footprint(z, o.body);
    }

    /** A new object whose children are in the heap. */
    lemma AddedInHeap(o: Obj, u: set<Obj>)
      requires InHeap(u) && !o.isBlack && NonNull(Children(o.body)) <= u && Black(u) == {}
      ensures InHeap(u + {o}) && Black(u + {o}) == {}
    {
      forall x | x in u + {o} ensures Kids(u + {o})[x] <= u + {o} {
        if x in u {
          assert Kids(u)[x] <= u;
        }
      }
    }


    /** setGrey, when the barrier calls it. */
    method WriteBarrier(o: Obj)
      modifies o`isGrey, `grayStack, `grayCapacity
      ensures o.isGrey && grayStack == old(grayStack) + (if o.isBlack && !old(o.isGrey) then [o] else [])
    {
      if !o.isGrey {
        o.isGrey := true;
        if o.isBlack {
          PushGrayStack(o);
        }
      }
    }

    /** A store into an object: of references to linked objects, and of buffers that no object
        owned; buffers that the object gives up are owned by nobody until they are freed. The
        barrier pushes nothing, because nothing is black between collections. */
    method Store(o: Obj, body: Body)
      requires Valid() && o in heap && NonNull(Children(body)) <= Members(heap)
      requires Footprint(z, body) <= Footprint(z, o.body) + inflight && (o in Weak() ==> SetOfStrings(body))
      modifies o`body, o`isGrey, `inflight, `grayStack, `grayCapacity
      ensures Valid() && o.body == body && inflight == old(inflight + Footprint(z, o.body)) - Footprint(z, body)
    {
      hide TotalSize, Footprint, Linked, InHeap, StringsOk, Black, Children;
      hide NonNull, SetOfStrings, Roots, Weak, EdgesIn, Accounted;
      AllEdges();
      assert o in Members(heap);
      NotBlack(o);
      ghost var a, b := SplitAt(heap, o, objects);
      TotalSizeRemove(z, a, o, b);
      ghost var total := TotalSize(z, a + b);
      assert o !in Members(a + b);
      AccountedFor(a, o, b);
      inflight := inflight + Footprint(z, o.body) - Footprint(z, body);
      WriteBarrier(o);
      o.body := body;
      assert TotalSize(z, a + b) == total;
      TotalSizeRemove(z, a, o, b);
      AccountFor(a, o, b);
      StoredHere(o);
      AllInHeap();
    }

    lemma StoredHere(o: Obj)
      requires NonNull(Children(o.body)) <= Members(heap)
      ensures EdgesIn(o, Members(heap))
    {
    }

    lemma AccountedFor(a: seq<Obj>, o: Obj, b: seq<Obj>)
      requires Accounted() && heap == a + ([o] + b)
      ensures bytesAllocated == TotalSize(z, a + ([o] + b)) + inflight
    {
    }

    lemma AccountFor(a: seq<Obj>, o: Obj, b: seq<Obj>)
      requires bytesAllocated == TotalSize(z, a + ([o] + b)) + inflight && heap == a + ([o] + b)
      ensures Accounted()
    {
    }

    lemma NotBlack(o: Obj)
      requires o in Members(heap) && Black(Members(heap)) == {}
      ensures !o.isBlack
    {
      assert o.isBlack ==> o in Black(Members(heap));
    }

    ghost predicate EdgesIn(o: Obj, u: set<Obj>)
      reads o`body
    {
      NonNull(Children(o.body)) <= u
    }

    lemma AllEdges()
      requires InHeap(Members(heap)) && StringsOk()
      ensures forall x {:trigger EdgesIn(x, Members(heap))} | x in Members(heap) :: EdgesIn(x, Members(heap))
      ensures forall s {:trigger SetOfStrings(s.body)} | s in Weak() :: SetOfStrings(s.body)
      ensures Roots() <= Members(heap) && Weak() <= Members(heap) && Roots() !! Weak()
    {
      forall x | x in Members(heap) ensures EdgesIn(x, Members(heap)) {
        assert Kids(Members(heap))[x] <= Members(heap);
      }
    }

    lemma AllInHeap()
      requires forall x {:trigger EdgesIn(x, Members(heap))} | x in Members(heap) :: EdgesIn(x, Members(heap))
      requires forall s {:trigger SetOfStrings(s.body)} | s in Weak() :: SetOfStrings(s.body)
      requires Roots() <= Members(heap) && Weak() <= Members(heap) && Roots() !! Weak()
      ensures InHeap(Members(heap)) && StringsOk()
    {
      forall x | x in Members(heap) ensures Kids(Members(heap))[x] <= Members(heap) {
        assert EdgesIn(x, Members(heap));
      }
    }

    /** The roots may be any linked objects, and the string table is not one of the others. */
    method SetRoots(initString: Obj?, newString: Obj?, globals: Obj?, baseThread: Obj?, strings: Obj?)
      requires Valid() && NonNull([initString, newString, globals, baseThread, strings]) <= Members(heap)
      requires strings != null ==>
          strings !in {initString, newString, globals, baseThread} && SetOfStrings(strings.body)
      modifies `initString, `newString, `globals, `baseThread, `strings
      ensures Valid() && this.initString == initString && this.newString == newString && this.globals == globals
      ensures this.baseThread == baseThread && this.strings == strings
    {
      hide TotalSize, Footprint, Linked, Accounted, InHeap, StringsOk, Black, EdgesIn, SetOfStrings;
      StoredRoots(initString, newString, globals, baseThread, strings);
      AllEdges();
      this.initString, this.newString, this.globals, this.baseThread, this.strings :=
          initString, newString, globals, baseThread, strings;
      AllInHeap();
    }

    lemma StoredRoots(initString: Obj?, newString: Obj?, globals: Obj?, baseThread: Obj?, strings: Obj?)
      requires NonNull([initString, newString, globals, baseThread, strings]) <= Members(heap)
      ensures NonNull([initString, newString, globals, baseThread]) + NonNull([strings]) <= Members(heap)
    {
      assert [initString, newString, globals, baseThread, strings] ==
          [initString, newString, globals, baseThread] + [strings];
      NonNullParts([initString, newString, globals, baseThread], [strings], Members(heap));
    }

    /** _free of a buffer that no object owns. */
    method FreeBuffer(size: nat)
      requires Valid() && size <= inflight
      modifies `bytesAllocated, `inflight
      ensures Valid() && bytesAllocated == old(bytesAllocated) - size && inflight == old(inflight) - size
    {
      hide TotalSize;
      Free(size);
      inflight := inflight - size;
    }

    /** freeVM: what is lost in the end is what the buffers hold that no object owns. */
    method FreeVM()
      requires Valid()
      modifies this, Members(heap)`body
      ensures heap == [] && bytesAllocated == inflight == old(inflight) && Roots() == {} && Weak() == {}
    {
      hide Linked, TotalSize;
      initString, newString, globals, baseThread, strings := null, null, null, null, null;
      FreeObjects();
      grayStack := [];
    }
  }

  /** What is known of an object that survives a collection. */
  ghost predicate Kept(o: Obj, bodies: map<Obj, Body>, kids: map<Obj, set<Obj>>, weak: set<Obj>, black: set<Obj>)
    reads o`body
  {
    && o in bodies && o in kids && kids[o] == NonNull(Children(bodies[o]))
    && (o in weak ==> SetOfStrings(bodies[o]))
    && o.body == if o in weak then Cleaned(bodies[o], black) else bodies[o]
  }

  /** Only black strings are left in the table. */
  lemma CleanedKids(b: Body, black: set<Obj>)
    requires SetOfStrings(b)
    ensures NonNull(Children(Cleaned(b, black))) <= black
  {
    var es := Cleaned(b, black).entries;
    forall c | c in NonNull(Refs(es)) ensures c in black {
      var i :| 0 <= i < |es| && Refs(es)[i] == c;
      assert es[i] == CleanEntry(b.entries[i], black);
    }
  }

  ghost function Nexts(u: set<Obj>): map<Obj, Obj?>
    reads u`next
  {
    map o | o in u :: o.next
  }

  lemma Unlinked(kept: seq<Obj>, o: Obj, rest: seq<Obj>, objects: Obj?, objects': Obj?, nexts: map<Obj, Obj?>)
    requires LinkedIn(objects, kept + ([o] + rest), nexts)
    requires o in nexts && objects' == (if kept == [] then nexts[o] else objects)
    requires forall x | x in kept + rest ::
      x in nexts && x.next == (if kept != [] && x == kept[|kept| - 1] then nexts[o] else nexts[x])
    ensures Linked(objects', kept + rest)
  {
    hide Members, LinkedIn;
    var list' := kept + rest;
    forall i | 0 <= i < |list'| ensures LinkedAt(list', i) {
      InMembers(list', i);
      assert list'[i] in list';
      UnlinkedAt(kept, o, rest, objects, nexts, i);
    }
    UnlinkedDistinct(kept, o, rest, objects, nexts);
  }

  lemma InMembers(list: seq<Obj>, i: nat)
    requires i < |list|
    ensures list[i] in Members(list)
  {
  }

  /** The list without o: the object before o is linked to the one after it. */
  lemma UnlinkedAt(kept: seq<Obj>, o: Obj, rest: seq<Obj>, objects: Obj?, nexts: map<Obj, Obj?>, i: nat)
    requires LinkedIn(objects, kept + ([o] + rest), nexts) && i < |kept + rest|
    ensures o in nexts && (kept + rest)[i] in nexts
    ensures (if kept != [] && (kept + rest)[i] == kept[|kept| - 1] then nexts[o] else nexts[(kept + rest)[i]]) ==
        NextIn(kept + rest, i)
  {
    var list, list' := kept + ([o] + rest), kept + rest;
    var j := if i < |kept| then i else i + 1;
    assert list[j] == list'[i] && list[|kept|] == o;
    assert nexts[list[j]] == NextIn(list, j) && nexts[o] == NextIn(list, |kept|);
    if kept != [] && i != |kept| - 1 {
      assert list[|kept| - 1] == kept[|kept| - 1];
    }
  }

  lemma UnlinkedDistinct(kept: seq<Obj>, o: Obj, rest: seq<Obj>, objects: Obj?, nexts: map<Obj, Obj?>)
    requires LinkedIn(objects, kept + ([o] + rest), nexts)
    ensures var list := kept + rest; forall i, j | 0 <= i < j < |list| :: list[i] != list[j]
    ensures o in nexts
    ensures (if kept == [] then nexts[o] else objects) == (if kept + rest == [] then null else (kept + rest)[0])
  {
    var list := kept + rest;
    forall i, j | 0 <= i < j < |list| ensures list[i] != list[j] {
      UnlinkedPair(kept, o, rest, objects, nexts, i, j);
    }
    assert (kept + ([o] + rest))[|kept|] == o;
    assert nexts[o] == NextIn(kept + ([o] + rest), |kept|);
  }

  lemma UnlinkedPair(kept: seq<Obj>, o: Obj, rest: seq<Obj>, objects: Obj?, nexts: map<Obj, Obj?>, i: nat, j: nat)
    requires LinkedIn(objects, kept + ([o] + rest), nexts) && i < j < |kept + rest|
    ensures (kept + rest)[i] != (kept + rest)[j]
  {
    var list, list' := kept + ([o] + rest), kept + rest;
    var i', j' := if i < |kept| then i else i + 1, if j < |kept| then j else j + 1;
    assert list[i'] == list'[i] && list[j'] == list'[j];
  }

  lemma LinkedByNexts(objects: Obj?, list: seq<Obj>)
    requires Linked(objects, list)
    ensures LinkedIn(objects, list, Nexts(Members(list)))
  {
    forall i | 0 <= i < |list| ensures list[i] in Members(list) && list[i].next == NextIn(list, i) {
      assert LinkedAt(list, i);
    }
  }

  function NextIn(list: seq<Obj>, i: nat): Obj?
    requires i < |list|
  {
    if i + 1 < |list| then list[i + 1] else null
  }

  /** Linked, in a heap given by the links. */
  ghost predicate LinkedIn(objects: Obj?, list: seq<Obj>, nexts: map<Obj, Obj?>) {
    && objects == (if list == [] then null else list[0])
    && (forall i, j | 0 <= i < j < |list| :: list[i] != list[j])
    && forall i {:trigger list[i]} | 0 <= i < |list| :: list[i] in nexts && nexts[list[i]] == NextIn(list, i)
  }

  ghost predicate SetOfStrings(b: Body) {
    b.Tab? && |b.entries| % 2 == 0 && forall i | 0 <= i < |b.entries| :: OddImm(b.entries, i)
  }

  ghost predicate OddImm(entries: seq<Val>, i: nat) {
    i % 2 == 1 && i < |entries| ==> entries[i] == Imm
  }

  ghost function CleanEntry(v: Val, black: set<Obj>): Val {
    if v.Ref? && v.o != null && v.o !in black then Imm else v
  }

  ghost function CleanEntries(entries: seq<Val>, black: set<Obj>): (r: seq<Val>)
    ensures |r| == |entries| && forall i | 0 <= i < |r| :: r[i] == CleanEntry(entries[i], black)
  {
    if entries == [] then [] else [CleanEntry(entries[0], black)] + CleanEntries(entries[1..], black)
  }

  /** The string table without the strings that are not black. */
  ghost function Cleaned(b: Body, black: set<Obj>): (r: Body)
    requires SetOfStrings(b)
    ensures SetOfStrings(r) && |r.entries| == |b.entries|
  {
    var r := b.(entries := CleanEntries(b.entries, black));
    assert forall i | 0 <= i < |b.entries| :: OddImm(b.entries, i) ==> OddImm(r.entries, i);
    r
  }

  /** What the entries of the string table refer to. */
  ghost function KeysOf(b: Body): set<Obj> { NonNull(Children(b)) }

  lemma KeysCleaned(b: Body, black: set<Obj>)
    requires SetOfStrings(b)
    ensures KeysOf(Cleaned(b, black)) == KeysOf(b) * black
  {
    var es, es' := b.entries, Cleaned(b, black).entries;
    forall o | o in KeysOf(b) * black ensures o in KeysOf(Cleaned(b, black)) {
      var i :| 0 <= i < |es| && Refs(es)[i] == o;
      assert Refs(es')[i] == o;
    }
    forall o | o in KeysOf(Cleaned(b, black)) ensures o in KeysOf(b) * black {
      var i :| 0 <= i < |es| && Refs(es')[i] == o;
      assert Refs(es)[i] == o;
    }
  }

  /** The table b' has the entries of b, but for references to what is not in u. */
  ghost predicate LeftOver(b: Body, b': Body, u: set<Obj>) {
    && b.Tab? && b'.Tab? && |b'.entries| == |b.entries|
    && forall i | 0 <= i < |b.entries| ::
         b'.entries[i] == if b.entries[i].Ref? && b.entries[i].o != null && b.entries[i].o !in u then Imm else b.entries[i]
  }

  ghost function Bodies(u: set<Obj>): map<Obj, Body>
    reads u`body
  {
    map o | o in u :: o.body
  }

  /** The entries before the i-th are cleaned. */
  ghost predicate Cleaning(e0: seq<Val>, entries: seq<Val>, i: nat, black: set<Obj>) {
    |entries| == |e0| && i <= |e0| + 1 && forall j | 0 <= j < |e0| ::
        entries[j] == if j < i then CleanEntry(e0[j], black) else e0[j]
  }

  lemma CleaningStart(e0: seq<Val>, black: set<Obj>)
    ensures Cleaning(e0, e0, 0, black)
  {
  }

  lemma CleaningAt(e0: seq<Val>, entries: seq<Val>, i: nat, black: set<Obj>, u: set<Obj>)
    requires Cleaning(e0, entries, i, black) && i < |e0| && NonNull(Refs(e0)) <= u
    ensures |entries| == |e0| && entries[i] == e0[i] && (e0[i].Ref? && e0[i].o != null ==> e0[i].o in u)
  {
    assert e0[i].Ref? ==> Refs(e0)[i] == e0[i].o;
    if e0[i].Ref? && e0[i].o != null {
      assert e0[i].o in NonNull(Refs(e0));
    }
  }

  lemma CleaningBlack(e0: seq<Val>, i: nat, u: set<Obj>)
    requires i < |e0| && (e0[i].Ref? && e0[i].o != null ==> e0[i].o in u)
    ensures CleanEntry(e0[i], Black(u)) == if e0[i].Ref? && e0[i].o != null && !e0[i].o.isBlack then Imm else e0[i]
  {
  }

  lemma CleaningStep(e0: seq<Val>, entries: seq<Val>, entries': seq<Val>, i: nat, black: set<Obj>)
    requires Cleaning(e0, entries, i, black) && i + 1 < |e0| && e0[i + 1] == Imm
    requires |entries| == |e0|
    requires entries' == if CleanEntry(e0[i], black) != e0[i] then entries[i := Imm][i + 1 := Imm] else entries
    ensures Cleaning(e0, entries', i + 2, black) && |entries'| == |e0|
  {
  }

  lemma CleaningEnd(e0: seq<Val>, entries: seq<Val>, i: nat, black: set<Obj>)
    requires Cleaning(e0, entries, i, black) && i >= |e0|
    ensures entries == CleanEntries(e0, black)
  {
  }

  lemma OddAt(b: Body, i: nat)
    requires SetOfStrings(b) && i < |b.entries| && i % 2 == 1
    ensures b.entries[i] == Imm
  {
    assert OddImm(b.entries, i);
  }

  lemma MembersAppend(list: seq<Obj>, o: Obj)
    ensures Members(list + [o]) == Members(list) + {o}
  {
  }

  lemma CleanedSame(b: Body, black: set<Obj>)
    requires SetOfStrings(b) && NonNull(Children(b)) <= black
    ensures Cleaned(b, black) == b
  {
    forall i | 0 <= i < |b.entries| ensures CleanEntry(b.entries[i], black) == b.entries[i] {
      if b.entries[i].Ref? && b.entries[i].o != null {
        assert Refs(b.entries)[i] in NonNull(Refs(b.entries));
      }
    }
    assert Cleaned(b, black).entries == b.entries;
  }

  lemma {:induction false} SurvivorsOf(list: seq<Obj>, s: set<Obj>)
    requires Members(list) <= s
    ensures Survivors(list, s) == list
    decreases |list|
  {
    if list != [] {
      var rest, last := list[..|list| - 1], list[|list| - 1];
      assert list == rest + [last];
      MembersAppend(rest, last);
      SurvivorsOf(rest, s);
    }
  }

  lemma SurvivorsAll(list: seq<Obj>)
    ensures Survivors(list, Members(list)) == list
  {
    SurvivorsOf(list, Members(list));
  }

  lemma LinkedCons(o: Obj, list: seq<Obj>)
    requires Linked(o.next, list) && o !in list
    ensures Linked(o, [o] + list)
  {
    var all := [o] + list;
    forall i | 0 <= i < |all| ensures LinkedAt(all, i) {
      if i > 0 {
        assert LinkedAt(list, i - 1);
      }
    }
  }

  lemma MembersCons(o: Obj, list: seq<Obj>)
    ensures Members([o] + list) == Members(list) + {o}
    ensures o in Members(list) <==> o in list
  {
  }

  lemma SplitAt(list: seq<Obj>, o: Obj, objects: Obj?) returns (a: seq<Obj>, b: seq<Obj>)
    requires o in Members(list) && Linked(objects, list)
    ensures list == a + ([o] + b) && o !in a + b
  {
    var i :| 0 <= i < |list| && list[i] == o;
    a, b := list[..i], list[i + 1..];
  }

  lemma {:induction false} SurvivorsMembers(list: seq<Obj>, s: set<Obj>)
    ensures Members(Survivors(list, s)) == Members(list) * s
    decreases |list|
  {
    if list != [] {
      var rest, last := list[..|list| - 1], list[|list| - 1];
      SurvivorsMembers(rest, s);
      assert list == rest + [last];
      MembersAppend(rest, last);
      MembersAppend(Survivors(rest, s), last);
      assert Survivors(rest, s) + [] == Survivors(rest, s);
      if last in s {
        assert (Members(rest) + {last}) * s == Members(rest) * s + {last};
      } else {
        assert (Members(rest) + {last}) * s == Members(rest) * s;
      }
    }
  }

  lemma LinkedFirst(objects: Obj?, list: seq<Obj>)
    requires Linked(objects, list)
    ensures objects == (if list == [] then null else list[0])
  {
  }

  lemma SplitHead(list: seq<Obj>, kept: seq<Obj>, rest: seq<Obj>, i: nat)
    requires i <= |list| && list[i..] == rest && rest != []
    ensures i < |list| && rest == [rest[0]] + rest[1..] && list[i] == rest[0] && list[i + 1..] == rest[1..]
    ensures kept + rest == kept + ([rest[0]] + rest[1..])
    ensures Members(rest) == {rest[0]} + Members(rest[1..])
  {
  }

  lemma SurvivorsNone(s: set<Obj>)
    ensures Survivors([], s) == []
  {
  }

  lemma LinkedTail(o: Obj, list: seq<Obj>)
    requires Linked(o, list)
    ensures list != [] && list[0] == o && o !in list[1..] && Linked(o.next, list[1..])
  {
    assert LinkedAt(list, 0);
    forall i | 0 <= i < |list| - 1 ensures LinkedAt(list[1..], i) {
      assert LinkedAt(list, i + 1);
    }
  }

  ghost predicate Waiting(o: Obj, black: set<Obj>, bodies: map<Obj, Body>)
    reads o`isBlack, o`body
  {
    o.isBlack == (o in black) && o in bodies && o.body == bodies[o]
  }

  lemma MembersNone(list: seq<Obj>)
    ensures Members([]) == {}
  {
  }

  lemma SweptAll(heap: seq<Obj>, kept: seq<Obj>, major: bool, bodies: map<Obj, Body>)
    requires heap == kept + [] && forall x | x in Members(kept) :: Swept(x, major, bodies)
    ensures heap == kept && forall x | x in heap :: x in bodies && x.isBlack == !major && x.body == bodies[x]
  {
    forall x | x in heap ensures x in bodies && x.isBlack == !major && x.body == bodies[x] {
      assert x in Members(kept);
    }
  }

  ghost predicate Swept(o: Obj, major: bool, bodies: map<Obj, Body>)
    reads o`isBlack, o`body
  {
    o.isBlack == !major && o in bodies && o.body == bodies[o]
  }

  lemma Apart(objects: Obj?, kept: seq<Obj>, o: Obj, rest: seq<Obj>)
    requires Linked(objects, kept + ([o] + rest))
    ensures forall x | x in rest :: x !in kept && x != o
  {
    var list := kept + ([o] + rest);
    forall i, j | 0 <= i < |rest| && 0 <= j <= |kept| ensures rest[i] != list[j] {
      assert list[|kept| + 1 + i] == rest[i];
    }
    assert list[|kept|] == o;
    forall x | x in rest ensures x !in kept && x != o {
      var i :| 0 <= i < |rest| && rest[i] == x;
      forall j | 0 <= j < |kept| ensures kept[j] != x {
        assert kept[j] == list[j];
      }
    }
  }

  /** The head of the rest of a linked list, and what remains linked without it. */
  lemma LinkedHead(objects: Obj?, kept: seq<Obj>, rest: seq<Obj>)
    requires Linked(objects, kept + rest) && rest != []
    ensures rest[0].next == (if |rest| > 1 then rest[1] else null)
    ensures rest[0] !in kept && rest[0] !in rest[1..]
    ensures kept != [] ==> kept[|kept| - 1] !in rest && kept[|kept| - 1] !in kept[..|kept| - 1]
  {
    var list := kept + rest;
    assert list[|kept|] == rest[0];
    assert LinkedAt(list, |kept|);
    forall i | 0 <= i < |kept| ensures kept[i] == list[i] && kept[i] != rest[0] {
    }
    forall i | 1 <= i < |rest| ensures rest[i] == list[|kept| + i] && rest[i] != rest[0] {
    }
    if kept != [] {
      assert list[|kept| - 1] == kept[|kept| - 1];
      forall i | 0 <= i < |rest| ensures rest[i] != kept[|kept| - 1] {
        assert rest[i] == list[|kept| + i];
      }
    }
  }

  lemma SurvivorsStep(list: seq<Obj>, i: nat, s: set<Obj>)
    requires i < |list|
    ensures Survivors(list[..i + 1], s) == Survivors(list[..i], s) + (if list[i] in s then [list[i]] else [])
  {
    assert list[..i + 1][..i] == list[..i];
  }

  lemma {:induction false} TotalSizeRemove(z: Sizes, a: seq<Obj>, o: Obj, b: seq<Obj>)
    ensures TotalSize(z, a + ([o] + b)) == TotalSize(z, a + b) + Footprint(z, o.body)
    decreases |b|
  {
    if b == [] {
      assert a + ([o] + b) == a + [o] && (a + [o])[..|a|] == a && a + b == a;
    } else {
      var last := |b| - 1;
      TotalSizeRemove(z, a, o, b[..last]);
      assert (a + ([o] + b))[..|a| + |b|] == a + ([o] + b[..last]);
      assert (a + b)[..|a| + last] == a + b[..last];
      assert (a + ([o] + b))[|a| + |b|] == b[last] && (a + b)[|a| + last] == b[last];
    }
  }

  /** A black object is on the gray stack, or its children are black. */
  ghost predicate Settled(o: Obj, black: set<Obj>, gray: seq<Obj>, kids: map<Obj, set<Obj>>, weak: set<Obj>) {
    o in kids && o in black && o !in weak && o !in Members(gray) ==> kids[o] <= black
  }

  /** The strong black objects belong to this closed set. */
  ghost predicate Only(black: set<Obj>, kids: map<Obj, set<Obj>>, roots: set<Obj>, weak: set<Obj>, s: set<Obj>) {
    s <= kids.Keys && roots <= s && ClosedIn(s, kids, weak) ==> black - weak <= s
  }

  /** The invariant of tracing. */
  ghost predicate Traced(black: set<Obj>, gray: seq<Obj>, kids: map<Obj, set<Obj>>, roots: set<Obj>, weak: set<Obj>) {
    && roots + weak <= black <= kids.Keys && Members(gray) <= black - weak
    && (forall o {:trigger kids[o]} | o in kids :: kids[o] <= kids.Keys)
    && (forall o {:trigger Settled(o, black, gray, kids, weak)} | o in kids :: Settled(o, black, gray, kids, weak))
    && (forall s: set<Obj> {:trigger Only(black, kids, roots, weak, s)} | s <= kids.Keys ::
        Only(black, kids, roots, weak, s))
  }

  lemma TraceStart(black: set<Obj>, gray: seq<Obj>, kids: map<Obj, set<Obj>>, roots: set<Obj>, weak: set<Obj>)
    requires black == roots + weak && Members(gray) == roots && roots !! weak && black <= kids.Keys
    requires forall o {:trigger kids[o]} | o in kids :: kids[o] <= kids.Keys
    ensures Traced(black, gray, kids, roots, weak)
  {
  }

  lemma TraceTop(black: set<Obj>, gray: seq<Obj>, rest: seq<Obj>, o: Obj, kids: map<Obj, set<Obj>>,
                 roots: set<Obj>, weak: set<Obj>)
    requires Traced(black, gray, kids, roots, weak) && gray == rest + [o]
    ensures o in black && o in kids && o !in weak && kids[o] <= kids.Keys
  {
    assert o in Members(gray);
  }

  /** Blackening the object on top keeps the invariant; either something more is black, or the
      stack is shorter. */
  lemma TraceStep(black: set<Obj>, gray: seq<Obj>, rest: seq<Obj>, o: Obj, cs: seq<Obj?>, black': set<Obj>,
                  gray': seq<Obj>,
                  kids: map<Obj, set<Obj>>, roots: set<Obj>, weak: set<Obj>)
    requires Traced(black, gray, kids, roots, weak) && gray == rest + [o]
    requires o in kids && kids[o] == NonNull(cs) && Marks(black, rest, cs, black', gray')
    ensures Traced(black', gray', kids, roots, weak)
    ensures black <= black' <= kids.Keys && (black' == black ==> |gray'| < |gray|)
  {
    assert Members(gray) == Members(rest) + {o};
    forall x | x in kids ensures Settled(x, black', gray', kids, weak) {
      assert Settled(x, black, gray, kids, weak);
    }
    forall s: set<Obj> | s <= kids.Keys ensures Only(black', kids, roots, weak, s) {
      assert Only(black, kids, roots, weak, s);
    }
  }

  lemma TraceEnd(black: set<Obj>, gray: seq<Obj>, kids: map<Obj, set<Obj>>, roots: set<Obj>, weak: set<Obj>)
    requires Traced(black, gray, kids, roots, weak) && gray == []
    ensures black == Reach(kids, roots, weak) + weak
    ensures ClosedIn(black, kids, weak) && roots + weak <= black <= kids.Keys
  {
    assert ClosedIn(black, kids, weak) by {
      forall o | o in black && o in kids && o !in weak ensures kids[o] <= black {
        assert Settled(o, black, gray, kids, weak);
      }
    }
    forall s: set<Obj> | s <= kids.Keys && roots <= s && ClosedIn(s, kids, weak) ensures black - weak <= s {
      assert Only(black, kids, roots, weak, s);
    }
    ReachIs(black, kids, roots, weak);
  }

  lemma NonNullParts(a: seq<Obj?>, b: seq<Obj?>, u: set<Obj>)
    requires NonNull(a + b) <= u
    ensures NonNull(a) <= u && NonNull(b) <= u
  {
    forall c | c in NonNull(a) ensures c in NonNull(a + b) {
    }
    forall c | c in NonNull(b) ensures c in NonNull(a + b) {
    }
  }

  lemma RefsPart(vs: seq<Val>, i: nat)
    requires i < |vs|
    ensures NonNull(Refs([vs[i]])) <= NonNull(Refs(vs))
  {
    assert Refs([vs[i]]) == [Refs(vs)[i]];
  }
}
