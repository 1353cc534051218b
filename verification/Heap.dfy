/** Heap objects and their edges (src/type.h, src/memory.c). */
module Heap {
  /** A value, as far as the collector cares. */
  datatype Val = Imm | Ref(o: Obj?)

  /** What blackenObject and freeObject look at, for each ObjType. */
  datatype Body =
    | Array(klass: Obj?, fields: Obj?, values: seq<Val>, capacity: nat)
    | BoundMethod(receiver: Val, bound: Obj?)
    | Class(className: Obj?, methods: Obj?, static_: bool)
    | Closure(f: Obj?, upvalues: seq<Obj?>)
    | Function(funName: Obj?, constants: Obj?, constantIndices: Obj?, codeCapacity: nat, uvCount: nat, arities: nat)
    | Instance(klass: Obj?, fields: Obj?)
    | Module_(modName: Obj?, fields: Obj?, klass: Obj?)
    | Native
    | Str(klass: Obj?, fields: Obj?, length: nat)
    | Tab(entries: seq<Val>, klass: Obj?, fields: Obj?)
    | Upvalue(closed: Val)
    | Thread(stack: seq<Val>, exception: Val, openUpvalues: seq<Obj>, compilers: seq<Obj?>, stackSize: nat)
    | Exception(klass: Obj?, fields: Obj?, msg: Val)

  class Obj {
    var isBlack: bool
    var isGrey: bool
    var next: Obj?
    var body: Body

    constructor (body: Body)
      ensures this.body == body && !isBlack && isGrey && next == null
    {
      this.body := body;
      isBlack, isGrey, next := false, true, null;
    }
  }

  function Refs(vs: seq<Val>): (r: seq<Obj?>)
    ensures |r| == |vs| && forall i | 0 <= i < |vs| :: r[i] == if vs[i].Ref? then vs[i].o else null
  {
    if vs == [] then [] else [if vs[0].Ref? then vs[0].o else null] + Refs(vs[1..])
  }

  /** The objects that blackenObject marks, in its order: not the class and the fields of a
      table, and of a thread every slot of its stack that markThread visits. */
  function Children(b: Body): seq<Obj?> {
    match b
    case Array(klass, fields, values, _) => [klass, fields] + Refs(values)
    case BoundMethod(receiver, bound) => Refs([receiver]) + [bound]
    case Class(name, methods, _) => [name, methods]
    case Closure(f, upvalues) => [f] + upvalues
    case Function(name, constants, indices, _, _, _) => [name, constants, indices]
    case Instance(klass, fields) => [klass, fields]
    case Module_(name, fields, klass) => [name, fields, klass]
    case Native => []
    case Str(klass, fields, _) => [klass, fields]
    case Tab(entries, _, _) => Refs(entries)
    case Upvalue(closed) => Refs([closed])
    case Thread(stack, exception, open, compilers, _) => Refs(stack) + Refs([exception]) + open + compilers
    case Exception(klass, fields, msg) => [klass, fields] + Refs([msg])
  }

  /** An object with these contents holds a reference to x, in one of its fields. (The class and the
      fields of a table are not followed.) */
  ghost predicate Holds(b: Body, x: Obj) {
    match b
    case Array(klass, fields, values, _) => x == klass || x == fields || Ref(x) in values
    case BoundMethod(receiver, bound) => receiver == Ref(x) || x == bound
    case Class(name, methods, _) => x == name || x == methods
    case Closure(f, upvalues) => x == f || x in upvalues
    case Function(name, constants, indices, _, _, _) => x == name || x == constants || x == indices
    case Instance(klass, fields) => x == klass || x == fields
    case Module_(name, fields, klass) => x == name || x == fields || x == klass
    case Native => false
    case Str(klass, fields, _) => x == klass || x == fields
    case Tab(entries, _, _) => Ref(x) in entries
    case Upvalue(closed) => closed == Ref(x)
    case Thread(stack, exception, open, compilers, _) =>
      Ref(x) in stack || exception == Ref(x) || x in open || x in compilers
    case Exception(klass, fields, msg) => x == klass || x == fields || msg == Ref(x)
  }

  lemma RefIn(vs: seq<Val>, x: Obj)
    ensures x in Refs(vs) <==> Ref(x) in vs
  {
    if x in Refs(vs) {
      var i :| 0 <= i < |vs| && Refs(vs)[i] == x;
      assert vs[i] == Ref(x);
    }
    if Ref(x) in vs {
      var i :| 0 <= i < |vs| && vs[i] == Ref(x);
      assert Refs(vs)[i] == x;
    }
  }

  /** What the collector follows is what the fields hold. */
  lemma ChildrenHeld(b: Body, x: Obj)
    ensures x in NonNull(Children(b)) <==> Holds(b, x)
  {
    match b {
      case Array(klass, fields, values, _) => RefIn(values, x);
      case BoundMethod(receiver, bound) => RefIn([receiver], x);
      case Tab(entries, _, _) => RefIn(entries, x);
      case Upvalue(closed) => RefIn([closed], x);
      case Thread(stack, exception, open, compilers, _) =>
        RefIn(stack, x);
        RefIn([exception], x);
      case Exception(klass, fields, msg) => RefIn([msg], x);
      case _ =>
    }
  }

  /** The set t has the roots and whatever its members hold, but for what the weak one holds. */
  ghost predicate Keeps(t: set<Obj>, roots: seq<Obj?>, bodies: map<Obj, Body>, weak: Obj?) {
    && (forall r: Obj | r in roots :: r in t)
    && (forall o, x {:trigger Holds(bodies[o], x)} |
          o in t && o in bodies && x in bodies && o != weak && Holds(bodies[o], x) :: x in t)
  }

  // ----- footprints -----

  const VALUE_SIZE := 8
  const ADDRESS_SIZE := 8
  /** sizeof of the structures, whatever they are. */
  datatype Sizes = Sizes(arr: nat, boundMethod: nat, klass: nat, closure: nat, function_: nat, instance: nat,
      module_: nat,
                         native: nat, str: nat, table: nat, upvalue: nat, thread: nat, exception: nat)

  /** The bytes that freeObject gives back. */
  function Footprint(z: Sizes, b: Body): nat {
    match b
    case Array(_, _, _, capacity) => VALUE_SIZE * capacity + z.arr
    case BoundMethod(_, _) => z.boundMethod
    case Class(_, _, isStatic) => if isStatic then 0 else z.klass
    case Closure(_, upvalues) => ADDRESS_SIZE * |upvalues| + z.closure
    case Function(_, _, _, code, uvs, arities) => 4 * code + 8 * code + (z.function_ + 2 * uvs + 8 * arities)
    case Instance(_, _) => z.instance
    case Module_(_, _, _) => z.module_
    case Native => z.native
    case Str(_, _, length) => (length + 1) + z.str
    case Tab(entries, _, _) => VALUE_SIZE * |entries| + z.table
    case Upvalue(_) => z.upvalue
    case Thread(_, _, _, _, stackSize) => VALUE_SIZE * stackSize + z.thread
    case Exception(_, _, _) => z.exception
  }

  // ----- linked objects -----

  function Members(list: seq<Obj>): set<Obj> { set o | o in list }

  ghost predicate LinkedAt(list: seq<Obj>, i: int)
    requires 0 <= i < |list|
    reads Members(list)`next
  {
    list[i] in Members(list) && list[i].next == (if i + 1 < |list| then list[i + 1] else null)
  }

  /** `objects` heads the linked list of exactly these objects. */
  ghost predicate Linked(objects: Obj?, list: seq<Obj>)
    reads Members(list)`next
  {
    && objects == (if list == [] then null else list[0])
    && (forall i, j | 0 <= i < j < |list| :: list[i] != list[j])
    && forall i {:trigger LinkedAt(list, i)} | 0 <= i < |list| :: LinkedAt(list, i)
  }

  function TotalSize(z: Sizes, list: seq<Obj>): nat
    reads Members(list)`body
    decreases |list|
  {
    if list == [] then 0 else TotalSize(z, list[..|list| - 1]) + Footprint(z, list[|list| - 1].body)
  }

  /** The objects of the list that are in s, in order. */
  function Survivors(list: seq<Obj>, s: set<Obj>): seq<Obj>
    decreases |list|
  {
    if list == [] then []
    else Survivors(list[..|list| - 1], s) + (if list[|list| - 1] in s then [list[|list| - 1]] else [])
  }

  // ----- reachability -----

  function NonNull(cs: seq<Obj?>): set<Obj> { set c: Obj | c in cs }

  /** Where the edges of the objects in u lead. */
  ghost function Kids(u: set<Obj>): map<Obj, set<Obj>>
    reads u`body
  {
    map o | o in u :: NonNull(Children(o.body))
  }

  /** Everything the members of s point to is in s; the edges of weak objects do not count. */
  ghost predicate ClosedIn(s: set<Obj>, kids: map<Obj, set<Obj>>, weak: set<Obj>) {
    forall o {:trigger kids[o]} | o in s && o in kids && o !in weak :: kids[o] <= s
  }

  ghost predicate Reachable(o: Obj, kids: map<Obj, set<Obj>>, roots: set<Obj>, weak: set<Obj>) {
    forall s: set<Obj> | s <= kids.Keys && roots <= s && ClosedIn(s, kids, weak) :: o in s
  }

  /** The smallest closed set that has the roots. */
  ghost function Reach(kids: map<Obj, set<Obj>>, roots: set<Obj>, weak: set<Obj>): set<Obj> {
    set o | o in kids && Reachable(o, kids, roots, weak)
  }

  /** A closed set with the roots, all of whose strong members are in every such set, is what
      is reachable, but for the weak objects. */
  lemma ReachIs(black: set<Obj>, kids: map<Obj, set<Obj>>, roots: set<Obj>, weak: set<Obj>)
    requires roots <= black <= kids.Keys && ClosedIn(black, kids, weak)
    requires forall s: set<Obj> | s <= kids.Keys && roots <= s && ClosedIn(s, kids, weak) :: black - weak <= s
    ensures black - weak == Reach(kids, roots, weak) - weak
  {
    forall o | o in black - weak ensures Reachable(o, kids, roots, weak) {
    }
    forall o | o in Reach(kids, roots, weak) ensures o in black {
      assert Reachable(o, kids, roots, weak);
    }
  }

  /** The class and the fields of a table are not followed: what only they hold is not reachable. */
  lemma TableFieldsLost(t: Obj, klass: Obj, fields: Obj, entries: seq<Val>)
    requires t.body == Tab(entries, klass, fields) && t !in {klass, fields}
    requires forall x: Obj | Ref(x) in entries :: x == t
    ensures klass !in Reach(Kids({t, klass, fields}), {t}, {}) && fields !in Reach(Kids({t, klass, fields}), {t}, {})
  {
    var s, kids := {t}, Kids({t, klass, fields});
    forall x: Obj | x in kids[t] ensures x == t {
      ChildrenHeld(t.body, x);
    }
    assert s <= kids.Keys && ClosedIn(s, kids, {});
    assert !Reachable(klass, kids, {t}, {}) && !Reachable(fields, kids, {t}, {});
  }
}
