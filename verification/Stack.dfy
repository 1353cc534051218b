/** The value stack of a thread: frames that describe themselves, and upvalues that stand for
    variables on it (src/vm.c, src/vm.h, src/memory.c, src/object.c). */
module Stack {
  import opened Bits
  import opened Bytecode
  import opened Machine
  import Scopes

  /** A value in the stack: an ordinary one, the link of a frame, or a closure. */
  datatype Slot = Plain(v: Value) | Ip(n: int) | Fun(c: Closure)

  /** Where an upvalue points: into the stack, or at its own field `closed`. */
  datatype Location = At(addr: int) | Own

  class Upvalue {
    var location: Location
    var closed: Slot
    var next: Upvalue?

    /** newUpvalue. */
    constructor (slot: int)
      ensures location == At(slot) && closed == Plain(Nil) && next == null
    {
      location, closed, next := At(slot), Plain(Nil), null;
    }
  }

  class Closure {
    var upvalues: seq<Upvalue?>

    /** newClosure. */
    constructor (uvCount: nat)
      ensures upvalues == seq(uvCount, _ => null)
    {
      upvalues := seq(uvCount, _ => null);
    }
  }

  // ----- cells: what the upvalues are to refine -----

  datatype Home = InSlot(i: nat) | InUpvalue(u: Upvalue)

  /** Variables as cells: their values, the cell of each stack slot, where a cell lives, and the
      least number that was never a cell. */
  datatype Cells = Cells(val: map<nat, Slot>, slot: seq<nat>, home: map<nat, Home>, next: nat)

  ghost predicate SlotOk(cs: Cells, mem: seq<Slot>, i: nat) {
    i < |mem| && i < |cs.slot| ==>
      && cs.slot[i] in cs.val && cs.val[cs.slot[i]] == mem[i]
      && cs.slot[i] in cs.home && cs.home[cs.slot[i]] == InSlot(i)
  }

  ghost predicate NumberOk(cs: Cells, c: nat) { c in cs.val || c in cs.home ==> c < cs.next }

  ghost predicate SlotsOk(cs: Cells, mem: seq<Slot>) {
    && |cs.slot| == |mem|
    && (forall i: nat {:trigger SlotOk(cs, mem, i)} :: SlotOk(cs, mem, i))
    && (forall c: nat {:trigger NumberOk(cs, c)} :: NumberOk(cs, c))
  }

  /** An upvalue stands for its cell: through the slot while it is open, by itself when closed. */
  ghost predicate UpvalueOk(cs: Cells, stack: int, open: set<Upvalue>, up: map<Upvalue, nat>, u: Upvalue)
    reads u`location, u`closed
  {
    && u in up && up[u] in cs.val && up[u] in cs.home && (u in open <==> u.location.At?)
    && match u.location
       case At(a) => 0 <= a - stack < |cs.slot| && up[u] == cs.slot[a - stack]
       case Own => cs.home[up[u]] == InUpvalue(u) && cs.val[up[u]] == u.closed
  }

  ghost predicate UpvaluesOk(cs: Cells, stack: int, open: set<Upvalue>, up: map<Upvalue, nat>)
    reads up.Keys`location, up.Keys`closed
  {
    forall u {:trigger UpvalueOk(cs, stack, open, up, u)} | u in up :: UpvalueOk(cs, stack, open, up, u)
  }

  /** Slot i is written. */
  ghost function Written(cs: Cells, i: nat, v: Slot): Cells
    requires i < |cs.slot|
  {
    cs.(val := cs.val[cs.slot[i] := v])
  }

  /** The variable of slot i moves to the upvalue u, and the slot starts a new variable. */
  ghost function Detached(cs: Cells, i: nat, u: Upvalue): Cells
    requires i < |cs.slot| && cs.slot[i] in cs.val
  {
    Cells(cs.val[cs.next := cs.val[cs.slot[i]]], cs.slot[i := cs.next],
          cs.home[cs.slot[i] := InUpvalue(u)][cs.next := InSlot(i)], cs.next + 1)
  }

  /** One more slot. */
  ghost function WithSlot(cs: Cells, v: Slot): Cells {
    Cells(cs.val[cs.next := v], cs.slot + [cs.next], cs.home[cs.next := InSlot(|cs.slot|)], cs.next + 1)
  }

  lemma WrittenOk(cs: Cells, mem: seq<Slot>, i: nat, v: Slot)
    requires SlotsOk(cs, mem) && i < |mem|
    ensures SlotsOk(Written(cs, i, v), mem[i := v])
  {
    var cs', mem' := Written(cs, i, v), mem[i := v];
    assert SlotOk(cs, mem, i);
    forall j: nat ensures SlotOk(cs', mem', j) {
      assert SlotOk(cs, mem, j);
    }
    forall c: nat ensures NumberOk(cs', c) {
      assert NumberOk(cs, c);
    }
  }

  lemma WrittenUpvalues(cs: Cells, mem: seq<Slot>, i: nat, v: Slot, stack: int, open: set<Upvalue>,
                        up: map<Upvalue, nat>)
    requires SlotsOk(cs, mem) && i < |mem| && UpvaluesOk(cs, stack, open, up)
    ensures UpvaluesOk(Written(cs, i, v), stack, open, up)
  {
    assert SlotOk(cs, mem, i);
    forall u | u in up ensures UpvalueOk(Written(cs, i, v), stack, open, up, u) {
      assert UpvalueOk(cs, stack, open, up, u);
    }
  }

  lemma DetachedOk(cs: Cells, mem: seq<Slot>, i: nat, u: Upvalue)
    requires SlotsOk(cs, mem) && i < |mem| && cs.slot[i] in cs.val
    ensures SlotsOk(Detached(cs, i, u), mem)
    ensures forall c | c in cs.val :: c in Detached(cs, i, u).val && Detached(cs, i, u).val[c] == cs.val[c]
  {
    var cs' := Detached(cs, i, u);
    assert SlotOk(cs, mem, i);
    assert NumberOk(cs, cs.next);
    forall j: nat ensures SlotOk(cs', mem, j) {
      assert SlotOk(cs, mem, j);
    }
    forall c: nat ensures NumberOk(cs', c) {
      assert NumberOk(cs, c);
    }
  }

  lemma WithSlotOk(cs: Cells, mem: seq<Slot>, v: Slot)
    requires SlotsOk(cs, mem)
    ensures SlotsOk(WithSlot(cs, v), mem + [v])
    ensures forall c | c in cs.val :: c in WithSlot(cs, v).val && WithSlot(cs, v).val[c] == cs.val[c]
  {
    var cs', mem' := WithSlot(cs, v), mem + [v];
    assert NumberOk(cs, cs.next);
    forall j: nat ensures SlotOk(cs', mem', j) {
      assert SlotOk(cs, mem, j);
    }
    forall c: nat ensures NumberOk(cs', c) {
      assert NumberOk(cs, c);
    }
  }

  ghost function WithSlots(cs: Cells, vs: seq<Slot>): Cells
    decreases |vs|
  {
    if vs == [] then cs else WithSlots(WithSlot(cs, vs[0]), vs[1..])
  }

  lemma {:induction false} WithSlotsOk(cs: Cells, mem: seq<Slot>, vs: seq<Slot>)
    requires SlotsOk(cs, mem)
    ensures SlotsOk(WithSlots(cs, vs), mem + vs) && cs.slot <= WithSlots(cs, vs).slot
    ensures forall c | c in cs.val :: c in WithSlots(cs, vs).val && WithSlots(cs, vs).val[c] == cs.val[c]
    ensures forall c | c in cs.home && c < cs.next ::
      c in WithSlots(cs, vs).home && WithSlots(cs, vs).home[c] == cs.home[c]
    ensures cs.next <= WithSlots(cs, vs).next
    decreases |vs|
  {
    hide SlotsOk;
    if vs == [] {
      assert mem + vs == mem;
    } else {
      WithSlotOk(cs, mem, vs[0]);
      assert mem + [vs[0]] + vs[1..] == mem + vs;
      WithSlotsOk(WithSlot(cs, vs[0]), mem + [vs[0]], vs[1..]);
    }
  }

  /** Every variable keeps its value, and the slots below i their variables. */
  ghost predicate KeptBelow(cs: Cells, cs': Cells, i: int) {
    && (forall c | c in cs.val :: c in cs'.val && cs'.val[c] == cs.val[c])
    && |cs.slot| <= |cs'.slot| && forall j | 0 <= j < |cs.slot| && j < i :: cs'.slot[j] == cs.slot[j]
  }

  lemma DetachedKeeps(cs: Cells, mem: seq<Slot>, i: nat, u: Upvalue, cs0: Cells, last: int)
    requires SlotsOk(cs, mem) && i < |cs.slot| && cs.slot[i] in cs.val && last <= i && KeptBelow(cs0, cs, last)
    ensures KeptBelow(cs0, Detached(cs, i, u), last)
  {
    assert NumberOk(cs, cs.next);
  }

  // ----- the list of open upvalues -----

  ghost predicate OpenAt(stack: int, open: seq<Upvalue>, slots: seq<nat>, i: int)
    requires 0 <= i < |open| == |slots|
    reads Those(open)`next, Those(open)`location
  {
    && open[i] in Those(open) && open[i].location == At(stack + slots[i])
    && open[i].next == (if i + 1 < |open| then open[i + 1] else null)
  }

  function Those(us: seq<Upvalue>): set<Upvalue> { set u | u in us }

  lemma InThose(us: seq<Upvalue>, i: nat)
    requires i < |us|
    ensures us[i] in Those(us)
  {
  }

  ghost predicate Descending(slots: seq<nat>) { forall i, j | 0 <= i < j < |slots| :: slots[i] > slots[j] }

  /** The open upvalues, by descending slots, one for each. */
  ghost predicate OpenOk(stack: int, first: Upvalue?, open: seq<Upvalue>, slots: seq<nat>)
    reads Those(open)`next, Those(open)`location
  {
    && |open| == |slots| && first == (if open == [] then null else open[0])
    && (forall i {:trigger OpenAt(stack, open, slots, i)} | 0 <= i < |open| :: OpenAt(stack, open, slots, i))
    && Descending(slots)
  }

  /** Slot i belongs in the list at k, between prev and cur. */
  ghost predicate Between(open: seq<Upvalue>, slots: seq<nat>, prev: Upvalue?, cur: Upvalue?, i: int, k: nat) {
    && k <= |open| == |slots| && cur == (if k < |open| then open[k] else null)
    && prev == (if k > 0 then open[k - 1] else null)
    && (forall j | 0 <= j < k :: slots[j] > i) && (k < |slots| ==> slots[k] <= i)
  }

  lemma BetweenBound(open: seq<Upvalue>, slots: seq<nat>, prev: Upvalue?, cur: Upvalue?, i: int, k: nat)
    requires Between(open, slots, prev, cur, i, k)
    ensures k <= |open| == |slots|
  {
  }

  // ----- frames -----

  /** What base[-3] and base[-2] say of the distance to the frame before. */
  function LinkOf(code: int -> Instr, marker: Slot, link: Slot): int {
    if !link.Ip? then 0
    else if marker == Plain(Nil) then link.n
    else (code(link.n - 1).a + 1) % 0x100 + 2
  }

  ghost predicate FrameAt(code: int -> Instr, mem: seq<Slot>, frames: seq<int>, k: int) {
    1 <= k < |frames| ==>
      && 3 <= frames[k] <= |mem| && frames[k - 1] + 2 <= frames[k]
      && mem[frames[k] - 2].Ip? && LinkOf(code, mem[frames[k] - 3], mem[frames[k] - 2]) == frames[k] - frames[k - 1]
  }

  /** The frames are at these indexes of the stack, and each one's header leads to the one before. */
  ghost predicate Framed(code: int -> Instr, mem: seq<Slot>, frames: seq<int>) {
    frames != [] && frames[0] == 0 && forall k {:trigger FrameAt(code, mem, frames, k)} :: FrameAt(code, mem, frames, k)
  }

  lemma {:induction false} FramesAscend(code: int -> Instr, mem: seq<Slot>, frames: seq<int>, j: nat, k: nat)
    requires Framed(code, mem, frames) && j <= k < |frames|
    ensures frames[j] + 2 * (k - j) <= frames[k] && 0 <= frames[k]
    decreases k
  {
    if j < k {
      assert FrameAt(code, mem, frames, k);
      FramesAscend(code, mem, frames, j, k - 1);
    } else if j > 0 {
      assert FrameAt(code, mem, frames, k);
    }
  }

  lemma FramedWrite(code: int -> Instr, mem: seq<Slot>, frames: seq<int>, i: nat, v: Slot)
    requires Framed(code, mem, frames) && 0 <= i < |mem| && NotHeader(frames, i)
    ensures Framed(code, mem[i := v], frames)
  {
    var mem' := mem[i := v];
    forall k ensures FrameAt(code, mem', frames, k) {
      assert FrameAt(code, mem, frames, k);
    }
  }

  /** The registers of the current frame, from -1 on, are no part of a header. */
  lemma AboveHeaders(code: int -> Instr, mem: seq<Slot>, frames: seq<int>, i: int)
    requires Framed(code, mem, frames) && frames[|frames| - 1] - 1 <= i
    ensures NotHeader(frames, i)
  {
    forall k | 1 <= k < |frames| ensures frames[k] - 2 < i {
      FramesAscend(code, mem, frames, k, |frames| - 1);
    }
  }

  lemma FramedGrow(code: int -> Instr, mem: seq<Slot>, frames: seq<int>, more: seq<Slot>)
    requires Framed(code, mem, frames)
    ensures Framed(code, mem + more, frames)
  {
    var mem' := mem + more;
    forall k ensures FrameAt(code, mem', frames, k) {
      assert FrameAt(code, mem, frames, k);
    }
  }

  lemma FramedPush(code: int -> Instr, mem: seq<Slot>, frames: seq<int>, base: int)
    requires Framed(code, mem, frames) && frames[|frames| - 1] + 2 <= base <= |mem| && base >= 3
    requires mem[base - 2].Ip? && LinkOf(code, mem[base - 3], mem[base - 2]) == base - frames[|frames| - 1]
    ensures Framed(code, mem, frames + [base])
  {
    var frames' := frames + [base];
    forall k ensures FrameAt(code, mem, frames', k) {
      assert FrameAt(code, mem, frames, k);
    }
  }

  lemma FramedPop(code: int -> Instr, mem: seq<Slot>, frames: seq<int>)
    requires Framed(code, mem, frames) && |frames| > 1
    ensures Framed(code, mem, frames[..|frames| - 1])
  {
    var frames' := frames[..|frames| - 1];
    forall k ensures FrameAt(code, mem, frames', k) {
      assert FrameAt(code, mem, frames, k);
    }
  }

  /** The registers of every frame that was pushed are inside the stack. */
  ghost predicate Roomy(frames: seq<int>, used: seq<nat>, size: nat) {
    |used| == |frames| && forall k | 1 <= k < |frames| :: frames[k] + used[k] + 1 < size
  }

  /** No open upvalue points at the header of a frame. */
  ghost predicate Clear(frames: seq<int>, slots: seq<nat>) {
    forall k, j | 1 <= k < |frames| && 0 <= j < |slots| :: slots[j] != frames[k] - 2 && slots[j] != frames[k] - 3
  }

  ghost predicate NotHeader(frames: seq<int>, i: int) {
    forall k | 1 <= k < |frames| :: i != frames[k] - 2 && i != frames[k] - 3
  }

  lemma SlotsSize(cs: Cells, mem: seq<Slot>)
    requires SlotsOk(cs, mem)
    ensures |cs.slot| == |mem|
    ensures forall i | 0 <= i < |mem| :: cs.slot[i] in cs.val && cs.val[cs.slot[i]] == mem[i] && cs.slot[i] in cs.home
  {
    forall i | 0 <= i < |mem| ensures cs.slot[i] in cs.val && cs.val[cs.slot[i]] == mem[i] && cs.slot[i] in cs.home {
      assert SlotOk(cs, mem, i);
    }
  }

  class Thread {
    /** The instructions in memory, and what memory holds that nobody has written. */
    const code: int -> Instr
    const junk: int -> Slot

    // Addresses: pointers into the stack, and to its first and last value.
    var stack: int
    var stackTop: int
    var stackLast: int
    var base: int
    var mem: seq<Slot>
    var openUpvalues: Upvalue?

    /** Indexes of the bases of the frames, and the registers that each one asked for. */
    ghost var frames: seq<int>
    ghost var used: seq<nat>
    /** The variables, the cell of every upvalue, and the list of open upvalues with their slots. */
    ghost var cs: Cells
    ghost var up: map<Upvalue, nat>
    ghost var open: seq<Upvalue>
    ghost var slots: seq<nat>

    ghost predicate FramesOk()
      reads `stack, `mem, `stackTop, `stackLast, `base, `frames, `used
    {
      && |mem| > 0 && stackLast == stack + |mem| - 1
      && Framed(code, mem, frames) && base == stack + frames[|frames| - 1]
      && base <= stackTop <= stackLast && (|frames| > 1 ==> base < stackTop) && Roomy(frames, used, |mem|)
    }

    ghost predicate CellsOk()
      reads `stack, `mem, `openUpvalues, `cs, `up, `open, `slots
      reads up.Keys`location, up.Keys`closed, Those(open)`location, Those(open)`next
    {
      && SlotsOk(cs, mem) && UpvaluesOk(cs, stack, Those(open), up)
      && Those(open) <= up.Keys && OpenOk(stack, openUpvalues, open, slots)
    }

    ghost predicate Valid()
      reads this, up.Keys, Those(open)
    {
      FramesOk() && CellsOk() && Clear(frames, slots)
    }

    /** The address is a slot of the stack. */
    predicate InStack(addr: int)
      reads `stack, `mem
    {
      0 <= addr - stack < |mem|
    }

    /** initVM for its thread, before it pushes a frame; stack is where malloc put the stack. */
    constructor (code: int -> Instr, junk: int -> Slot, stack: int, size: nat)
      requires size > 0
      ensures Valid() && base == stackTop == stack == this.stack && frames == [0] && up == map[]
      ensures mem == seq(size, _ => Plain(Nil))
    {
      this.code, this.junk, this.stack := code, junk, stack;
      base, stackTop, stackLast := stack, stack, stack + size - 1;
      mem := seq(size, _ => Plain(Nil));
      openUpvalues := null;
      frames, used, up, open, slots := [0], [0], map[], [], [];
      cs := WithSlots(Cells(map[], [], map[], 0), seq(size, _ => Plain(Nil)));
      WithSlotsOk(Cells(map[], [], map[], 0), [], seq(size, _ => Plain(Nil)));
      new;
      assert [] + mem == mem;
    }

    // ----- reading and writing -----

    /** A slot that is no part of a header is written: its variable changes, and no other. */
    method WriteSlot(addr: int, v: Slot)
      requires Valid() && InStack(addr) && NotHeader(frames, addr - stack)
      modifies `mem, `cs
      ensures Valid() && mem == old(mem)[addr - stack := v] && cs == Written(old(cs), addr - stack, v)
    {
      hide Framed, SlotsOk, UpvaluesOk, OpenOk, Roomy, Clear, NotHeader;
      ghost var i := addr - stack;
      FramedWrite(code, mem, frames, i, v);
      SlotsSize(cs, mem);
      WrittenOk(cs, mem, i, v);
      WrittenUpvalues(cs, mem, i, v, stack, Those(open), up);
      mem := mem[addr - stack := v];
      cs := Written(cs, i, v);
    }

    /** OP_GET_UPVAL: an upvalue reads the variable that it stands for. */
    method GetUpvalue(u: Upvalue) returns (v: Slot)
      requires CellsOk() && u in up
      ensures up[u] in cs.val && v == cs.val[up[u]]
    {
      assert UpvalueOk(cs, stack, Those(open), up, u);
      match u.location
      case At(a) =>
        assert SlotOk(cs, mem, a - stack);
        v := mem[a - stack];
      case Own =>
        v := u.closed;
    }

    /** OP_SET_UPVAL: an upvalue writes the variable that it stands for, and no other. */
    method SetUpvalue(u: Upvalue, v: Slot)
      requires Valid() && u in up
      modifies `mem, `cs, u`closed
      ensures Valid() && up[u] in old(cs.val) && cs == old(cs).(val := old(cs.val)[up[u] := v])
      ensures if u.location.At?
                 then InStack(u.location.addr) && mem == old(mem)[u.location.addr - stack := v]
                 else mem == old(mem)
    {
      hide Framed, SlotsOk, OpenOk, Roomy, Clear, NotHeader;
      assert UpvalueOk(cs, stack, Those(open), up, u);
      match u.location
      case At(a) =>
        OpenSlot(u);
        WriteSlot(a, v);
      case Own =>
        ghost var cs0 := cs;
        SlotsSize(cs, mem);
        OwnWritten(cs, mem, up[u], u, v);
        u.closed := v;
        cs := cs.(val := cs.val[up[u] := v]);
        forall x | x in up ensures UpvalueOk(cs, stack, Those(open), up, x) {
          assert old(UpvalueOk(cs, stack, Those(open), up, x));
          if x != u && x.location.At? {
            SlotNotOwn(cs0, mem, x.location.addr - stack, u, up[u]);
          }
        }
    }

    /** A variable has at most one upvalue, so closures that captured it share that one. */
    lemma OnePerVariable(u: Upvalue, v: Upvalue)
      requires CellsOk() && u in up && v in up && up[u] == up[v]
      ensures u == v
    {
      assert UpvalueOk(cs, stack, Those(open), up, u) && UpvalueOk(cs, stack, Those(open), up, v);
      if u.location.At? {
        assert SlotOk(cs, mem, u.location.addr - stack);
      }
      if v.location.At? {
        assert SlotOk(cs, mem, v.location.addr - stack);
      }
      if u.location.At? && v.location.At? {
        var i :| 0 <= i < |open| && open[i] == u;
        var j :| 0 <= j < |open| && open[j] == v;
        assert OpenAt(stack, open, slots, i) && OpenAt(stack, open, slots, j);
      }
    }

    lemma OpenSlot(u: Upvalue)
      requires Valid() && u in Those(open)
      ensures u.location.At? && InStack(u.location.addr) && NotHeader(frames, u.location.addr - stack)
    {
      var j :| 0 <= j < |open| && open[j] == u;
      assert OpenAt(stack, open, slots, j);
      assert UpvalueOk(cs, stack, Those(open), up, u);
    }

    // ----- capturing and closing -----

    /** captureUpvalue: the open upvalue of the slot if there is one, else a new one for it. */
    method CaptureUpvalue(local: int) returns (ret: Upvalue)
      requires Valid() && InStack(local) && NotHeader(frames, local - stack)
      modifies `openUpvalues, `open, `slots, `up, Those(open)`next
      ensures Valid() && ret in up && up[ret] == cs.slot[local - stack] && old(up.Keys) <= up.Keys
      ensures forall u | u in old(up) :: up[u] == old(up)[u]
      ensures if ret in old(up)
                 then up == old(up) && open == old(open)
                 else fresh(ret) && up.Keys == old(up).Keys + {ret}
      ensures KeptUp(old(up), up) && forall u | u in Those(open) :: u in old(Those(open)) || fresh(u)
    {
      hide FramesOk, CellsOk, Clear, NotHeader;
      var prev, cur, k := FindOpen(local);
      if k < |open| {
        AtOpen(k);
      }
      if cur != null && cur.location == At(local) {
        return cur;
      }
      ret := InsertOpen(prev, cur, local, k);
    }

    /** The walk along the list: to the first upvalue that is not above the slot. */
    method FindOpen(local: int) returns (prev: Upvalue?, cur: Upvalue?, ghost k: nat)
      requires CellsOk() && InStack(local)
      ensures Between(open, slots, prev, cur, local - stack, k)
    {
      OpenSize();
      prev, cur, k := null, openUpvalues, 0;
      if k < |open| {
        AtOpen(k);
      }
      while cur != null && cur.location.addr > local
        invariant k <= |open| && cur == (if k < |open| then open[k] else null)
        invariant prev == (if k > 0 then open[k - 1] else null)
        invariant forall j | 0 <= j < k :: slots[j] > local - stack
        invariant k < |open| ==>
            open[k].location == At(stack + slots[k]) && open[k].next == (if k + 1 < |open| then open[k + 1] else null)
        decreases |open| - k
      {
        prev, cur, k := cur, cur.next, k + 1;
        if k < |open| {
          AtOpen(k);
        }
      }
    }

    lemma OpenSize()
      requires CellsOk()
      ensures |open| == |slots| && openUpvalues == (if open == [] then null else open[0])
    {
    }

    lemma AtOpen(k: nat)
      requires CellsOk() && k < |open|
      ensures |open| == |slots| && open[k].location == At(stack + slots[k])
      ensures open[k].next == (if k + 1 < |open| then open[k + 1] else null)
      ensures open[k] in up && slots[k] < |mem| == |cs.slot| && up[open[k]] == cs.slot[slots[k]]
    {
      assert OpenAt(stack, open, slots, k);
      assert UpvalueOk(cs, stack, Those(open), up, open[k]);
    }

    /** A new upvalue goes into the list, between prev and cur. */
    method InsertOpen(prev: Upvalue?, cur: Upvalue?, local: int, ghost k: nat) returns (ret: Upvalue)
      requires Valid() && InStack(local) && NotHeader(frames, local - stack)
      requires Between(open, slots, prev, cur, local - stack, k) && (k < |slots| ==> slots[k] != local - stack)
      modifies `openUpvalues, `open, `slots, `up, Those(open)`next
      ensures Valid() && fresh(ret) && up == old(up)[ret := cs.slot[local - stack]]
      ensures Those(open) == old(Those(open)) + {ret}
    {
      hide FramesOk, Clear, NotHeader, SlotsOk, UpvaluesOk, OpenOk, InsertAt, Those, Between, CellsOk, OpenAt;
      ghost var i: nat := local - stack;
      Parts();
      SlotsSize(cs, mem);
      BetweenBound(open, slots, prev, cur, i, k);
      ClearInsert(frames, slots, k, i);
      ghost var open', slots';
      ret, open', slots' := LinkOpen(prev, cur, local, k);
      CaptureUpvalues(cs, stack, Those(open), up, ret, i);
      InsertThose(open, k, ret);
      TakeIn(open', slots', up[ret := cs.slot[i]]);
    }

    /** The list of open upvalues is another one. */
    ghost method TakeIn(open': seq<Upvalue>, slots': seq<nat>, up': map<Upvalue, nat>)
      requires FramesOk() && SlotsOk(cs, mem) && UpvaluesOk(cs, stack, Those(open'), up') && Clear(frames, slots')
      requires Those(open') <= up'.Keys && OpenOk(stack, openUpvalues, open', slots')
      modifies `open, `slots, `up
      ensures Valid() && open == open' && slots == slots' && up == up'
    {
      hide FramesOk, Clear, SlotsOk, UpvaluesOk, OpenOk, Those;
      open, slots, up := open', slots', up';
      Whole();
    }

    lemma Parts()
      requires CellsOk()
      ensures SlotsOk(cs, mem) && UpvaluesOk(cs, stack, Those(open), up)
      ensures Those(open) <= up.Keys && OpenOk(stack, openUpvalues, open, slots)
    {
    }

    lemma Whole()
      requires SlotsOk(cs, mem) && UpvaluesOk(cs, stack, Those(open), up)
      requires Those(open) <= up.Keys && OpenOk(stack, openUpvalues, open, slots)
      ensures CellsOk()
    {
    }

    /** *uv = ret, where uv is the link between prev and cur. */
    method LinkOpen(prev: Upvalue?, cur: Upvalue?, local: int, ghost k: nat)
        returns (ret: Upvalue, ghost open': seq<Upvalue>, ghost slots': seq<nat>)
      requires OpenOk(stack, openUpvalues, open, slots) && InStack(local)
      requires Between(open, slots, prev, cur, local - stack, k) && (k < |slots| ==> slots[k] != local - stack)
      modifies `openUpvalues, Those(open)`next
      ensures fresh(ret) && ret.location == At(local)
      ensures k <= |open| == |slots| && open' == InsertAt(open, k, ret)
      ensures slots' == InsertAt<nat>(slots, k, local - stack)
      ensures OpenOk(stack, openUpvalues, open', slots')
    {
      hide OpenOk, OpenIn, InsertAt, Those;
      ghost var nexts, first, those := Nexts(Those(open)), openUpvalues, Those(open);
      OpenByNexts(stack, openUpvalues, open, slots);
      ret := new Upvalue(local);
      ret.next := cur;
      if prev == null {
        openUpvalues := ret;
      } else {
        InThose(open, k - 1);
        prev.next := ret;
      }
      ghost var before := if k > 0 then open[k - 1] else null;
      forall u | u in those ensures Relinked(u, nexts, before, ret) {
      }
      Inserted(stack, first, openUpvalues, open, slots, nexts, k, ret, local - stack);
      open', slots' := InsertAt(open, k, ret), InsertAt<nat>(slots, k, local - stack);
    }

    /** closeUpvalues: every variable keeps its value and every upvalue its variable; those from
        the slot `last` up live in their upvalues now, and no open upvalue is left there. */
    method CloseUpvalues(last: int)
      requires Valid()
      modifies `openUpvalues, `open, `slots, `cs, Those(open)`location, Those(open)`closed
      ensures Valid() && KeptBelow(old(cs), cs, last - stack) && Those(open) <= old(Those(open))
      ensures forall j | 0 <= j < |slots| :: slots[j] < last - stack
    {
      hide FramesOk, CellsOk, Clear, SlotsOk, Detached;
      OpenSize();
      if open != [] {
        AtOpen(0);
      }
      while openUpvalues != null && openUpvalues.location.addr >= last
        invariant Valid() && KeptBelow(old(cs), cs, last - stack) && Those(open) <= old(Those(open))
        invariant |open| == |slots| && openUpvalues == (if open == [] then null else open[0])
        invariant open != [] ==> open[0].location == At(stack + slots[0])
        decreases |open|
      {
        ghost var cs0, i, u := cs, slots[0], open[0];
        AtOpen(0);
        SlotsThere();
        CloseFirst();
        DetachedKeeps(cs0, mem, i, u, old(cs), last - stack);
        OpenSize();
        if open != [] {
          AtOpen(0);
        }
      }
      if open != [] {
        SlotsBelow(last - stack);
      }
    }

    lemma SlotsThere()
      requires CellsOk()
      ensures forall i | 0 <= i < |cs.slot| :: cs.slot[i] in cs.val
    {
      SlotsSize(cs, mem);
    }

    lemma SlotsBelow(i: int)
      requires CellsOk() && open != [] && |slots| == |open| && slots[0] < i
      ensures forall j | 0 <= j < |slots| :: slots[j] < i
    {
    }

    /** One turn of its loop. */
    method CloseFirst()
      requires Valid() && open != [] && |slots| == |open| && slots[0] < |cs.slot| && cs.slot[slots[0]] in cs.val
      modifies `openUpvalues, `open, `slots, `cs, {open[0]}`location, {open[0]}`closed
      ensures Valid() && open == old(open)[1..] && slots == old(slots)[1..]
      ensures |slots| == |open| && SlotsOk(old(cs), mem)
      ensures cs == Detached(old(cs), old(slots[0]), old(open[0]))
    {
      hide FramesOk, CellsOk, Clear, SlotsOk, UpvaluesOk, OpenOk;
      Parts();
      AtOpen(0);
      SlotsSize(cs, mem);
      ghost var i, us, cs0 := slots[0], open, cs;
      OpenTail(stack, openUpvalues, open, slots);
      DetachedOk(cs, mem, i, open[0]);
      ClearTail(frames, slots);
      OthersKept(cs, stack, Those(open), Those(open[1..]), up, us[0], i, mem);
      MoveOut(openUpvalues, i);
      open, slots, cs := open[1..], slots[1..], Detached(cs, i, us[0]);
      MovedOut(cs0, stack, Those(open), up, us[0], i, mem);
      Whole();
    }

    /** The value moves from the slot into the upvalue, which leaves the list. */
    method MoveOut(uv: Upvalue, ghost i: nat)
      requires CellsOk() && open != [] && uv == open[0] && |slots| == |open| && i == slots[0] < |cs.slot|
      modifies `openUpvalues, uv`location, uv`closed
      ensures uv.location == Own && uv.closed == mem[i] && openUpvalues == uv.next
    {
      AtOpen(0);
      uv.closed := mem[uv.location.addr - stack];
      uv.location := Own;
      openUpvalues := uv.next;
    }

    // ----- growing -----

    /** growStack, when realloc has put the stack at the address `moved`: every pointer into the
        stack moves along, so that frames and variables are what they were. */
    method GrowStack(spaceNeeded: int, moved: int)
      requires Valid()
      modifies `stack, `stackTop, `stackLast, `base, `mem, `cs, Those(open)`location
      ensures Valid() && stack == moved && |mem| >= spaceNeeded && old(mem) <= mem
      ensures base - stack == old(base - stack) && stackTop - stack == old(stackTop - stack)
      ensures KeptBelow(old(cs), cs, |old(mem)|)
    {
      hide Framed, Roomy, CellsOk, SlotsOk, UpvaluesOk, OpenOk, WithSlots, Clear, Those;
      var stackTopIndex, oldStack, size := stackTop - stack, stack, stackLast - stack + 1;
      while size < spaceNeeded
        invariant size >= |mem|
        decreases spaceNeeded - size
      {
        size := GrowCapacity(size);
      }
      var end := moved + |mem|;
      var more := seq(size - |mem|, i => junk(end + i));
      MovePointers(moved, more);
      FramedGrow(code, mem, frames, more);
      RoomyGrow(frames, used, |mem|, size);
      mem := mem + more;
      stack := moved;
      stackTop := stack + stackTopIndex;
      stackLast := stack + size - 1;
      base := base + (stack - oldStack);
      Whole();
    }

    /** The variables stay what they were, and the new slots are new ones. */
    method MovePointers(moved: int, ghost more: seq<Slot>)
      requires CellsOk()
      modifies `cs, Those(open)`location
      ensures SlotsOk(cs, mem + more) && UpvaluesOk(cs, moved, Those(open), up)
      ensures OpenOk(moved, openUpvalues, open, slots)
      ensures Those(open) <= up.Keys && KeptBelow(old(cs), cs, |mem|)
    {
      hide CellsOk, SlotsOk, OpenOk, WithSlots, UpvaluesOk;
      Parts();
      WithSlotsOk(cs, mem, more);
      SlotsSize(cs, mem);
      ghost var those, cs' := Those(open), WithSlots(cs, more);
      GrownUpvalues(cs, cs', mem, stack, those, up);
      OpenCells(cs', stack, openUpvalues, open, slots, up);
      Relocate(moved - stack);
      cs := cs';
      UpvaluesMoved(cs, stack, moved, openUpvalues, open, slots, up);
    }

    /** The loop over the open upvalues. */
    method Relocate(delta: int)
      requires OpenOk(stack, openUpvalues, open, slots)
      modifies Those(open)`location
      ensures OpenOk(stack + delta, openUpvalues, open, slots)
    {
      hide Those, OpenOk, Descending;
      ghost var k: nat := 0;
      var uv := openUpvalues;
      RelocatedNone(stack, openUpvalues, open, slots, delta);
      RelocatedNone(stack, openUpvalues, open, slots, 0);
      OpenDistinct(stack, open, slots);
      while uv != null
        invariant k <= |open| == |slots| && uv == (if k < |open| then open[k] else null)
        invariant forall j {:trigger RelocatedAt(stack, open, slots, j, delta, k)} | 0 <= j < |open| ::
          RelocatedAt(stack, open, slots, j, delta, k)
        decreases |open| - k
      {
        assert RelocatedAt(stack, open, slots, k, delta, k);
        ghost var next := k + 1;
        RelocateOne(uv, delta, k, next);
        k := next;
        assert k < |open| ==> RelocatedAt(stack, open, slots, k, delta, k);
        assert RelocatedAt(stack, open, slots, k - 1, delta, k);
        uv := uv.next;
      }
      RelocatedAll(stack, openUpvalues, open, slots, delta);
    }

    /** One turn of it. */
    method RelocateOne(uv: Upvalue, delta: int, ghost k: nat, ghost next: nat)
      requires next == k + 1 && k < |open| == |slots| && uv == open[k] && uv in Those(open)
      requires forall i, j | 0 <= i < j < |open| :: open[i] != open[j]
      requires forall j {:trigger RelocatedAt(stack, open, slots, j, delta, k)} | 0 <= j < |open| ::
        RelocatedAt(stack, open, slots, j, delta, k)
      modifies uv`location
      ensures forall j {:trigger RelocatedAt(stack, open, slots, j, delta, next)} | 0 <= j < |open| ::
        RelocatedAt(stack, open, slots, j, delta, next)
    {
      hide Those;
      assert RelocatedAt(stack, open, slots, k, delta, k);
      uv.location := At(uv.location.addr + delta);
      forall j | 0 <= j < |open| ensures RelocatedAt(stack, open, slots, j, delta, next) {
        assert old(RelocatedAt(stack, open, slots, j, delta, k));
      }
    }

    // ----- frames -----

    /** Makes room for a frame, as incFrame and incCFrame do; `moved` is where realloc puts the
        stack if it has to grow. */
    method Reserve(stackUsed: Reg, shift: nat, moved: int)
      requires Valid()
      modifies `stack, `stackTop, `stackLast, `base, `mem, `cs, Those(open)`location
      ensures Valid() && old(mem) <= mem && base - stack == old(base - stack) && KeptBelow(old(cs), cs, |old(mem)|)
      ensures base + shift + stackUsed + 2 <= stackTop
    {
      hide Framed, Roomy, CellsOk, Clear, KeptBelow;
      KeptSelf(cs, |mem|);
      if base + shift + stackUsed + 2 > stackLast {
        var baseIndex := base + shift + 1 - stack;
        GrowStack(baseIndex + stackUsed + 2, moved);
      }
      if base + shift + stackUsed + 2 > stackTop {
        stackTop := base + shift + stackUsed + 2;
      }
    }

    /** The header of a new frame, and the base above it. */
    method PushFrame(stackUsed: Reg, shift: nat, marker: Slot, link: Slot)
      requires Valid() && shift >= 1 && base - stack + shift >= 2 && base + shift + stackUsed + 2 <= stackTop
      requires link.Ip? && LinkOf(code, marker, link) == shift + 1 && HeaderFree(slots, base - stack + shift)
      modifies `mem, `cs, `base, `frames, `used
      ensures Valid() && base == old(base) + shift + 1
      ensures frames == old(frames) + [base - stack] && used == old(used) + [stackUsed]
      ensures 3 <= base - stack <= |mem| && |cs.slot| == |old(cs).slot| == |mem| == |old(mem)|
      ensures mem == old(mem)[base - stack - 2 := link][base - stack - 3 := marker]
      ensures cs == Written(Written(old(cs), base - stack - 2, link), base - stack - 3, marker)
      ensures InStack(base + stackUsed + 1)
    {
      hide Framed, Roomy, CellsOk, Clear, HeaderFree;
      WriteHeader(base - stack + shift + 1, marker, link);
      base := base + shift + 1;
      FramedPush(code, mem, frames, base - stack);
      ClearPush(frames, slots, base - stack);
      RoomyPush(frames, used, |mem|, base - stack, stackUsed);
      frames, used := frames + [base - stack], used + [stackUsed];
    }

    /** base[-2] and base[-3] are written, for a base above the current one. */
    method WriteHeader(i: int, marker: Slot, link: Slot)
      requires Valid() && i >= base - stack + 2 && 3 <= i <= |mem|
      modifies `mem, `cs
      ensures Valid() && |cs.slot| == |old(cs).slot| == |mem| == |old(mem)|
      ensures mem == old(mem)[i - 2 := link][i - 3 := marker]
      ensures cs == Written(Written(old(cs), i - 2, link), i - 3, marker)
    {
      hide CellsOk, Clear, NotHeader, Roomy;
      AboveHeaders(code, mem, frames, i - 2);
      AboveHeaders(code, mem, frames, i - 3);
      hide Framed;
      CellsSize();
      WriteSlot(stack + i - 2, link);
      CellsSize();
      WriteSlot(stack + i - 3, marker);
    }

    lemma CellsSize()
      requires CellsOk()
      ensures |cs.slot| == |mem|
    {
    }

    /** incFrame: the frame of a script function, called by the instruction before ip. */
    method IncFrame(stackUsed: Reg, shift: nat, function_: Closure, ip: int, moved: int)
      requires Valid() && shift >= 1 && base - stack + shift >= 2 && (code(ip - 1).a + 1) % 0x100 == shift - 1
      requires HeaderFree(slots, base - stack + shift)
      modifies `stack, `stackTop, `stackLast, `base, `mem, `cs, `frames, `used, Those(open)`location
      ensures Valid() && frames == old(frames) + [base - stack]
      ensures base - stack == old(base - stack) + shift + 1 && used == old(used) + [stackUsed]
      ensures 3 <= base - stack <= |mem| && |old(mem)| <= |mem|
      ensures mem[base - stack - 2] == Ip(ip) && mem[base - stack - 3] == Fun(function_)
      ensures forall i | 0 <= i < base - stack - 3 && i < |old(mem)| :: mem[i] == old(mem)[i]
      ensures InStack(base + stackUsed + 1)
    {
      hide Valid, Clear, HeaderFree, KeptBelow, Written;
      Reserve(stackUsed, shift, moved);
      PushFrame(stackUsed, shift, Fun(function_), Ip(ip));
    }

    /** incCFrame. */
    method IncCFrame(stackUsed: Reg, shift: nat, moved: int)
      requires Valid() && shift >= 1 && base - stack + shift >= 2 && HeaderFree(slots, base - stack + shift)
      modifies `stack, `stackTop, `stackLast, `base, `mem, `cs, `frames, `used, Those(open)`location
      ensures Valid() && frames == old(frames) + [base - stack]
      ensures base - stack == old(base - stack) + shift + 1 && used == old(used) + [stackUsed]
      ensures 3 <= base - stack <= |mem| && |old(mem)| <= |mem|
      ensures mem[base - stack - 2] == Ip(shift + 1) && mem[base - stack - 3] == Plain(Nil)
      ensures forall i | 0 <= i < base - stack - 3 && i < |old(mem)| :: mem[i] == old(mem)[i]
      ensures InStack(base + stackUsed + 1)
    {
      hide Valid, Clear, HeaderFree, KeptBelow, Written;
      Reserve(stackUsed, shift, moved);
      PushFrame(stackUsed, shift, Plain(Nil), Ip(shift + 1));
    }

    /** decFrame: back to the frame that was current before the push. */
    method DecFrame() returns (ip: int)
      requires Valid() && |frames| > 1 && 3 <= base - stack <= |mem| && mem[base - stack - 3] != Plain(Nil)
      modifies `base, `frames, `used
      ensures Valid() && frames == old(frames)[..|old(frames)| - 1] && used == old(used)[..|old(used)| - 1]
      ensures base == stack + old(frames)[|old(frames)| - 2]
      ensures old(mem)[old(base) - stack - 2] == Ip(ip) && base + 2 <= old(base)
    {
      hide Framed, Roomy, CellsOk, Clear;
      LastFrame(code, mem, frames);
      ip := mem[base - stack - 2].n;
      var bytecode := code(ip - 1);
      var ra: Reg := Cast8(bytecode.a + 1);
      base := base - (ra + 2);
      PopFrame();
    }

    /** decCFrame. */
    method DecCFrame()
      requires Valid() && |frames| > 1 && 3 <= base - stack <= |mem| && mem[base - stack - 3] == Plain(Nil)
      modifies `base, `frames, `used
      ensures Valid() && frames == old(frames)[..|old(frames)| - 1] && used == old(used)[..|old(used)| - 1]
      ensures base == stack + old(frames)[|old(frames)| - 2]
    {
      hide Framed, Roomy, CellsOk, Clear;
      LastFrame(code, mem, frames);
      base := base - mem[base - stack - 2].n;
      PopFrame();
    }

    ghost method PopFrame()
      requires |frames| > 1 && base == stack + frames[|frames| - 2]
      requires base <= stackTop && CellsOk() && Clear(frames, slots)
      requires |mem| > 0 && stackLast == stack + |mem| - 1
      requires stackTop <= stackLast && (|frames| > 2 ==> base < stackTop)
      requires Framed(code, mem, frames) && Roomy(frames, used, |mem|)
      modifies `frames, `used
      ensures Valid() && frames == old(frames)[..|old(frames)| - 1] && used == old(used)[..|old(used)| - 1]
    {
      hide CellsOk;
      FramedPop(code, mem, frames);
      frames, used := frames[..|frames| - 1], used[..|used| - 1];
    }

    // ----- marking -----

    /** The walk of markThread over the stack, which finds the frames by their headers: it visits
        every slot from 1 up to the top, but for the links at base[-2], and its assertions never fail. */
    method VisitSlots() returns (visited: seq<int>)
      requires FramesOk()
      ensures forall i | 1 <= i < stackTop - stack :: i in visited <==> !IsLink(frames, i)
      ensures forall i | i in visited :: 0 <= i < stackTop - stack && !IsLink(frames, i)
    {
      LastBase(code, mem, frames);
      hide Framed, Roomy, IsLink, Visited;
      var b, slot := base, stackTop - 1;
      ghost var k, top := |frames| - 1, stackTop - stack;
      visited := [];
      VisitedNone(frames, top);
      Bottom(code, mem, frames, k);
      while slot > stack
        invariant 0 <= k < |frames| && b == stack + frames[k] && b - 2 <= slot && -1 <= slot - stack
        invariant BelowNext(frames, k, slot - stack) && Visited(frames, visited, slot - stack, top)
        decreases slot - stack
      {
        slot, visited := VisitFrame(b, slot, visited, k);
        if slot <= stack {
          break;
        }
        slot := slot - 1;
        VisitedLink(code, mem, frames, visited, k, top);
        visited := visited + [slot - stack];
        assert slot >= stack;
        assert b >= stack + 3;
        b := PreviousBase(b, k);
        k := k - 1;
        slot := slot - 1;
      }
      VisitedAll(frames, visited, slot - stack, top);
    }

    /** The inner loop: the slots of one frame, down to the header below it. */
    method VisitFrame(b: int, from: int, visited: seq<int>, ghost k: nat) returns (slot: int, visited': seq<int>)
      requires FramesOk() && k < |frames| && b == stack + frames[k] && b - 2 <= from && -1 <= from - stack
      requires BelowNext(frames, k, from - stack)
      requires Visited(frames, visited, from - stack, stackTop - stack) && from < stackTop
      ensures slot <= from && (slot == b - 2 || (slot == stack - 1 && k == 0)) && -1 <= slot - stack
      ensures Visited(frames, visited', slot - stack, stackTop - stack) && (k > 0 ==> slot > stack)
    {
      hide Framed, Roomy, IsLink, Visited, BelowNext;
      slot, visited' := from, visited;
      Bottom(code, mem, frames, k);
      while slot >= b - 1 && slot >= stack
        invariant b - 2 <= slot <= from && -1 <= slot - stack
        invariant Visited(frames, visited', slot - stack, stackTop - stack)
        decreases slot - stack
      {
        BelowDown(frames, k, from - stack, slot - stack);
        NoLink(code, mem, frames, k, slot - stack);
        VisitedOne(frames, visited', slot - stack, stackTop - stack);
        visited' := visited' + [slot - stack];
        slot := slot - 1;
      }
    }

    /** The base before b, as the header below b tells it. */
    method PreviousBase(b: int, ghost k: nat) returns (b': int)
      requires FramesOk() && 1 <= k < |frames| && b == stack + frames[k] && FrameAt(code, mem, frames, k)
      ensures b' == stack + frames[k - 1]
    {
      hide Framed, Roomy;
      if mem[b - 3 - stack] == Plain(Nil) {
        return b - mem[b - 2 - stack].n;
      }
      var ip := mem[b - 2 - stack].n;
      var bytecode := code(ip - 1);
      var ra: Reg := Cast8(bytecode.a + 1);
      return b - (ra + 2);
    }

    // ----- OP_CLOSURE and OP_RETURN -----

    /** OP_CLOSURE, for a function with these upvalue descriptors: the upvalues of the new closure
        stand for what the descriptors capture, of the variables in the registers of the frame and
        of the upvalues of the running closure. No variable changes but the one of the register
        that gets the closure, and no upvalue stands for another variable than before. */
    method MakeClosure(uv: seq<nat>, ra: Reg, running: Closure) returns (cl: Closure)
      requires Valid() && InStack(base + ra) && 3 <= base - stack <= |mem| && mem[base - stack - 3] == Fun(running)
      requires Known(running.upvalues, up) && Scopes.CanCapture(uv, |running.upvalues|) && Capturable(uv, base)
      modifies `mem, `cs, `openUpvalues, `open, `slots, `up, Those(open)`next
      ensures Valid() && fresh(cl) && |cs.slot| == |mem| == |old(cs).slot|
      ensures cs == Written(old(cs), base - stack + ra, Fun(cl))
      ensures Known(cl.upvalues, up) && KeptUp(old(up), up)
      ensures CellsOf(cl.upvalues, up) ==
          Scopes.Captured(uv, SlotCells(cs.slot, base - stack), old(CellsOf(running.upvalues, up)))
    {
      hide FramesOk, CellsOk, Clear, NotHeader;
      cl := new Closure(|uv|);
      RegisterFree(ra);
      CellsSize();
      WriteSlot(base + ra, Fun(cl));
      CellsSize();
      Capture(cl, uv, running, Scopes.Captured(uv, SlotCells(cs.slot, base - stack), CellsOf(running.upvalues, up)));
    }

    /** The loop of OP_CLOSURE. */
    method Capture(cl: Closure, uv: seq<nat>, running: Closure, ghost captured: seq<nat>)
      requires Valid() && cl != running && |cl.upvalues| == |uv| && base - stack >= 1
      requires Known(running.upvalues, up) && Scopes.CanCapture(uv, |running.upvalues|) && Capturable(uv, base)
      requires captured == Scopes.Captured(uv, SlotCells(cs.slot, base - stack), CellsOf(running.upvalues, up))
      modifies cl, `openUpvalues, `open, `slots, `up, Those(open)`next
      ensures Valid() && Known(cl.upvalues, up) && KeptUp(old(up), up) && CellsOf(cl.upvalues, up) == captured
    {
      hide FramesOk, CellsOk, Clear, NotHeader, Scopes.IsLocal, Scopes.Index;
      KeptUpSelf(up);
      var i := 0;
      while i < |uv|
        invariant i <= |uv| == |cl.upvalues| && Valid() && KeptUp(old(up), up)
        invariant forall u | u in Those(open) :: u in old(Those(open)) || fresh(u)
        invariant forall j {:trigger Holds(cl.upvalues, up, captured, j)} | 0 <= j < i ::
          Holds(cl.upvalues, up, captured, j)
      {
        ghost var before, us, next := up, cl.upvalues, i + 1;
        var uvi := CaptureOne(uv[i], running, old(up), captured[i]);
        cl.upvalues := cl.upvalues[i := uvi];
        forall j | 0 <= j < next ensures Holds(cl.upvalues, up, captured, j) {
          if j < i {
            assert Holds(us, before, captured, j);
          }
        }
        i := i + 1;
      }
      HoldsAll(cl.upvalues, up, captured);
    }

    /** One turn of it; up0 is the upvalues from before the loop. */
    method CaptureOne(d: nat, running: Closure, ghost up0: map<Upvalue, nat>, ghost cell: nat) returns (uvi: Upvalue?)
      requires Valid() && Known(running.upvalues, up0) && KeptUp(up0, up) && base - stack >= 1
      requires if Scopes.IsLocal(d)
                  then InStack(base + Scopes.Index(d)) && cell == SlotCells(cs.slot, base - stack)(Scopes.Index(d))
               else 0 <= Scopes.Index(d) < |running.upvalues| && cell == CellsOf(running.upvalues, up0)[Scopes.Index(d)]
      modifies `openUpvalues, `open, `slots, `up, Those(open)`next
      ensures Valid() && KeptUp(up0, up) && KeptUp(old(up), up) && uvi != null && uvi in up && up[uvi] == cell
      ensures forall u | u in Those(open) :: u in old(Those(open)) || fresh(u)
    {
      hide FramesOk, CellsOk, Clear, NotHeader;
      if Scopes.IsLocal(d) {
        RegisterFree(Scopes.Index(d));
        CellsSize();
        ghost var before := up;
        uvi := CaptureUpvalue(base + Scopes.Index(d));
        KeptUpTrans(up0, before, up);
      } else {
        uvi := running.upvalues[Scopes.Index(d)];
        KeptUpSelf(up);
        KeptKnown(running.upvalues, up0, up, Scopes.Index(d));
      }
    }

    /** OP_RETURN of a called function: back to the caller, whose registers are what they were
        but for the d - 1 results, which land from base[-3] of the frame that ends on; they come from
        register a on, where 255 stands for base[-1]. Variables of that frame live on in their
        upvalues. emitReturn always writes 2 to D, for one result. */
    method Return(a: Reg, d: Half) returns (ip: int)
      requires Valid() && |frames| > 1 && 3 <= base - stack <= |mem| && mem[base - stack - 3] != Plain(Nil)
      requires base - stack + (if a == 0xff then -1 else a) + (if d == 0 then 0xffff else d - 1) <= |mem|
      modifies `base, `frames, `used, `mem, `cs, `openUpvalues, `open, `slots, Those(open)`location, Those(open)`closed
      ensures Valid() && frames == old(frames)[..|old(frames)| - 1] && base == stack + old(frames)[|old(frames)| - 2]
      ensures old(mem)[old(base) - stack - 2] == Ip(ip)
      ensures d == 2 ==> mem == old(mem)[old(base) - stack - 3 :=
          old(mem)[old(base) - stack + (if a == 0xff then -1 else a)]]
      ensures |mem| == |old(mem)| && forall j: nat | j < |mem| && d >= 1 && !(-3 <= j - (old(base) - stack) < d - 4) ::
          mem[j] == old(mem)[j]
      ensures forall j: nat | d >= 1 && -3 <= j - (old(base) - stack) < d - 4 ::
          mem[j] == old(mem)[j + 3 + (if a == 0xff then -1 else a)]
      ensures 1 <= d <= 3 ==> KeptButFor(old(cs), cs, old(base) - stack - 3, d - 1)
      ensures forall j | 0 <= j < |slots| :: slots[j] < old(base) - stack - 1
    {
      hide FramesOk, CellsOk, Clear, NotHeader, Moved, KeptButFor, KeptBelow;
      var count: nat, ra, oldBase := Cast16(d - 1), Cast8(a + 1) - 1, base;
      assert ra == (if a == 0xff then -1 else a) && count == (if d == 0 then 0xffff else d - 1);
      CellsSize();
      ghost var cs0, mem0 := cs, mem;
      ip := DecFrame();
      CloseUpvalues(oldBase - 1);
      CellsSize();
      ghost var closed := cs;
      MoveResults(oldBase, ra, count);
      if count <= 2 {
        ReturnKeeps(cs0, closed, cs, oldBase - stack - 3, count);
      }
      if d == 2 {
        MovedOne(mem0, mem, oldBase - stack - 3, oldBase - stack + ra);
      }
      MovedAll(mem0, mem, oldBase - stack - 3, oldBase - stack + (if a == 0xff then -1 else a), count);
    }

    /** The value that a function halts with, in the machine that runs its code, is what the frame of
        its caller gets where the function was, and nothing else changes there. */
    method ReturnValue(i: Instr, ghost p: Program, ghost m: Machine) returns (ip: int)
      requires m.Running? && 0 <= m.ip < |p.code| && p.code[m.ip] == i
      requires i.op == Bytecode.Return && i.a != NO_REG && i.d == 2
      requires Valid() && |frames| > 1 && 3 <= base - stack <= |mem| && mem[base - stack - 3] != Plain(Nil)
      requires base - stack + i.a < |mem| && mem[base - stack + i.a] == Plain(m.regs[i.a])
      modifies `base, `frames, `used, `mem, `cs, `openUpvalues, `open, `slots, Those(open)`location, Those(open)`closed
      ensures Valid() && frames == old(frames)[..|old(frames)| - 1] && base == stack + old(frames)[|old(frames)| - 2]
      ensures old(mem)[old(base) - stack - 2] == Ip(ip)
      ensures Step(p, m).Halted? && mem == old(mem)[old(base) - stack - 3 := Plain(Step(p, m).v)]
    {
      hide FramesOk, CellsOk, Clear;
      ip := Return(i.a, i.d);
    }

    /** The loop of OP_RETURN. */
    method MoveResults(oldBase: int, ra: int, count: nat)
      requires Valid() && base + 2 <= oldBase && 3 <= oldBase - stack
      requires -1 <= ra && oldBase - stack + ra + count <= |mem| == |cs.slot|
      modifies `mem, `cs
      ensures Valid() && Moved(old(mem), mem, oldBase - stack - 3, oldBase - stack + ra, count)
      ensures KeptButFor(old(cs), cs, oldBase - stack - 3, count)
    {
      hide FramesOk, CellsOk, Clear, NotHeader;
      hide Moved, KeptButFor, Written;
      ghost var to, cs0 := oldBase - stack - 3, cs;
      MovedNone(mem, to, oldBase - stack + ra, cs);
      var i := 0;
      while i < count
        invariant i <= count && Valid() && |mem| == |cs.slot| == |old(mem)| && cs.slot == cs0.slot
        invariant Moved(old(mem), mem, to, oldBase - stack + ra, i) && KeptButFor(cs0, cs, to, i)
      {
        RegisterFree(oldBase - 3 + i - base);
        MovedStep(old(mem), mem, to, oldBase - stack + ra, i);
        WrittenKeeps(cs0, cs, to, i, mem[oldBase + ra + i - stack]);
        WrittenSlots(cs, to + i, mem[oldBase + ra + i - stack]);
        WriteSlot(oldBase - 3 + i, mem[oldBase + ra + i - stack]);
        i := i + 1;
      }
    }

    /** Every local that a descriptor names is in the stack. */
    predicate Capturable(uv: seq<nat>, base: int)
      reads `stack, `mem
    {
      forall i | 0 <= i < |uv| :: Scopes.IsLocal(uv[i]) ==> InStack(base + Scopes.Index(uv[i]))
    }

    lemma RegisterFree(r: int)
      requires FramesOk() && -1 <= r
      ensures NotHeader(frames, base + r - stack)
    {
      AboveHeaders(code, mem, frames, base + r - stack);
    }
  }

  /** count values were copied down, and nothing else changed. */
  ghost predicate Moved(mem: seq<Slot>, mem': seq<Slot>, to: int, from: int, count: nat) {
    && |mem'| == |mem| && 0 <= to && 0 <= from && to + count <= |mem| && from + count <= |mem|
    && (forall j | to <= j < to + count :: mem'[j] == mem[j - to + from])
    && forall i | 0 <= i < |mem| && !(to <= i < to + count) :: mem'[i] == mem[i]
  }

  lemma MovedNone(mem: seq<Slot>, to: int, from: int, cs: Cells)
    requires 0 <= to <= |mem| && 0 <= from <= |mem|
    ensures Moved(mem, mem, to, from, 0) && (to <= |cs.slot| ==> KeptButFor(cs, cs, to, 0))
  {
  }

  lemma WrittenSlots(cs: Cells, i: nat, v: Slot)
    requires i < |cs.slot|
    ensures Written(cs, i, v).slot == cs.slot
  {
  }

  lemma MovedStep(mem: seq<Slot>, mem': seq<Slot>, to: int, from: int, i: nat)
    requires Moved(mem, mem', to, from, i) && to + 2 <= from && from + i < |mem|
    ensures Moved(mem, mem'[to + i := mem'[from + i]], to, from, i + 1)
  {
  }

  /** Every variable but those of count slots has the value that it had. */
  ghost predicate KeptButFor(cs: Cells, cs': Cells, to: int, count: nat) {
    && 0 <= to && to + count <= |cs.slot|
    && forall c | c in cs.val && c !in cs.slot[to..to + count] :: c in cs'.val && cs'.val[c] == cs.val[c]
  }

  lemma ReturnKeeps(cs: Cells, closed: Cells, cs': Cells, to: int, count: nat)
    requires KeptBelow(cs, closed, to + 2) && count <= 2
    requires KeptButFor(closed, cs', to, count) && to + count <= |cs.slot|
    ensures KeptButFor(cs, cs', to, count)
  {
    assert forall j | to <= j < to + count :: cs.slot[j] == closed.slot[j];
    assert cs.slot[to..to + count] == closed.slot[to..to + count];
  }

  lemma MovedAll(mem: seq<Slot>, mem': seq<Slot>, to: int, from: int, count: nat)
    requires Moved(mem, mem', to, from, count)
    ensures |mem'| == |mem| && 0 <= to && 0 <= from && to + count <= |mem| && from + count <= |mem|
    ensures forall j: nat | j < |mem| && !(to <= j < to + count) :: mem'[j] == mem[j]
    ensures forall j: nat | to <= j < to + count :: mem'[j] == mem[from + (j - to)]
  {
  }

  lemma MovedOne(mem: seq<Slot>, mem': seq<Slot>, to: int, from: int)
    requires Moved(mem, mem', to, from, 1)
    ensures 0 <= to < |mem| && 0 <= from < |mem| && mem' == mem[to := mem[from]]
  {
    assert mem'[to] == mem[to - to + from];
  }

  lemma WrittenKeeps(cs: Cells, cs': Cells, to: int, i: nat, v: Slot)
    requires KeptButFor(cs, cs', to, i) && cs'.slot == cs.slot && to + i < |cs.slot|
    ensures KeptButFor(cs, Written(cs', to + i, v), to, i + 1)
  {
    assert cs.slot[to..to + i + 1] == cs.slot[to..to + i] + [cs.slot[to + i]];
  }

  ghost predicate Known(us: seq<Upvalue?>, up: map<Upvalue, nat>) {
    forall i {:trigger us[i]} | 0 <= i < |us| :: us[i] != null && us[i] in up
  }

  ghost function CellsOf(us: seq<Upvalue?>, up: map<Upvalue, nat>): (r: seq<nat>)
    requires Known(us, up)
    ensures |r| == |us| && forall i | 0 <= i < |us| :: r[i] == up[us[i]]
  {
    seq(|us|, i requires 0 <= i < |us| && us[i] != null && us[i] in up => up[us[i]])
  }

  /** The variables in the registers of a frame. */
  ghost function SlotCells(slot: seq<nat>, base: int): int -> nat {
    r => if 0 <= base + r < |slot| then slot[base + r] else 0
  }

  ghost predicate KeptUp(up: map<Upvalue, nat>, up': map<Upvalue, nat>) {
    up.Keys <= up'.Keys && forall u | u in up :: up'[u] == up[u]
  }

  lemma KeptUpSelf(up: map<Upvalue, nat>)
    ensures KeptUp(up, up)
  {
  }

  lemma KeptUpTrans(a: map<Upvalue, nat>, b: map<Upvalue, nat>, c: map<Upvalue, nat>)
    requires KeptUp(a, b) && KeptUp(b, c)
    ensures KeptUp(a, c)
  {
  }

  lemma KeptKnown(us: seq<Upvalue?>, up: map<Upvalue, nat>, up': map<Upvalue, nat>, i: nat)
    requires Known(us, up) && KeptUp(up, up') && i < |us|
    ensures us[i] != null && us[i] in up' && up'[us[i]] == CellsOf(us, up)[i]
  {
    var u: Upvalue := us[i];
    assert u in up.Keys;
  }

  ghost predicate Holds(us: seq<Upvalue?>, up: map<Upvalue, nat>, cells: seq<nat>, j: int) {
    0 <= j < |us| && j < |cells| && us[j] != null && us[j] in up && up[us[j]] == cells[j]
  }

  lemma HoldsAll(us: seq<Upvalue?>, up: map<Upvalue, nat>, cells: seq<nat>)
    requires |us| == |cells| && forall j {:trigger Holds(us, up, cells, j)} | 0 <= j < |us| :: Holds(us, up, cells, j)
    ensures Known(us, up) && CellsOf(us, up) == cells
  {
    forall i | 0 <= i < |us| ensures us[i] != null && us[i] in up && up[us[i]] == cells[i] {
      assert Holds(us, up, cells, i);
    }
  }

  ghost function Nexts(us: set<Upvalue>): map<Upvalue, Upvalue?>
    reads us`next
  {
    map u | u in us :: u.next
  }

  function NextUpvalue(open: seq<Upvalue>, i: nat): Upvalue? {
    if i + 1 < |open| then open[i + 1] else null
  }

  /** The list without its first upvalue; the others are at lower slots. */
  lemma OpenTail(stack: int, first: Upvalue?, open: seq<Upvalue>, slots: seq<nat>)
    requires OpenOk(stack, first, open, slots) && open != []
    ensures OpenOk(stack, open[0].next, open[1..], slots[1..])
    ensures Those(open) == Those(open[1..]) + {open[0]} && open[0] !in Those(open[1..])
    ensures forall u | u in Those(open[1..]) :: u.location.At? && u.location.addr - stack < slots[0]
  {
    var rest, below := open[1..], slots[1..];
    assert OpenAt(stack, open, slots, 0);
    assert Those(open) == Those(rest) + {open[0]} by {
      hide OpenOk, OpenAt;
      assert open == [open[0]] + rest;
    }
    forall i | 0 <= i < |rest|
      ensures OpenAt(stack, rest, below, i) && rest[i].location.At? && rest[i].location.addr < stack + slots[0] {
      assert OpenAt(stack, open, slots, i + 1);
    }
  }

  /** Closing u leaves the other upvalues with their variables. */
  lemma OthersKept(cs: Cells, stack: int, open: set<Upvalue>, rest: set<Upvalue>, up: map<Upvalue, nat>,
                   u: Upvalue, i: nat, mem: seq<Slot>)
    requires UpvaluesOk(cs, stack, open, up) && SlotsOk(cs, mem)
    requires open == rest + {u} && i < |cs.slot| && cs.slot[i] in cs.val
    requires forall x | x in rest :: x.location.At? && x.location.addr - stack < i
    ensures forall x {:trigger UpvalueOk(Detached(cs, i, u), stack, rest, up, x)} | x in up && x != u ::
        UpvalueOk(Detached(cs, i, u), stack, rest, up, x)
  {
    assert SlotOk(cs, mem, i);
    forall x | x in up && x != u ensures UpvalueOk(Detached(cs, i, u), stack, rest, up, x) {
      assert UpvalueOk(cs, stack, open, up, x);
      assert NumberOk(cs, up[x]);
    }
  }

  lemma MovedOut(cs: Cells, stack: int, rest: set<Upvalue>, up: map<Upvalue, nat>, u: Upvalue, i: nat, mem: seq<Slot>)
    requires SlotsOk(cs, mem) && i < |cs.slot| && cs.slot[i] in cs.val && u in up && up[u] == cs.slot[i] && u !in rest
    requires u.location == Own && u.closed == mem[i]
    requires forall x {:trigger UpvalueOk(Detached(cs, i, u), stack, rest, up, x)} | x in up && x != u ::
        UpvalueOk(Detached(cs, i, u), stack, rest, up, x)
    ensures UpvaluesOk(Detached(cs, i, u), stack, rest, up)
  {
    assert SlotOk(cs, mem, i);
    assert NumberOk(cs, cs.next) && NumberOk(cs, cs.slot[i]);
    assert UpvalueOk(Detached(cs, i, u), stack, rest, up, u);
  }

  ghost predicate RelocatedAt(stack: int, open: seq<Upvalue>, slots: seq<nat>, j: nat, delta: int, k: nat)
    requires j < |open| == |slots|
    reads Those(open)`location, Those(open)`next
  {
    && open[j] in Those(open) && open[j].location == At(stack + slots[j] + (if j < k then delta else 0))
    && open[j].next == NextUpvalue(open, j)
  }

  lemma RelocatedNone(stack: int, first: Upvalue?, open: seq<Upvalue>, slots: seq<nat>, delta: int)
    requires OpenOk(stack, first, open, slots)
    ensures forall j {:trigger RelocatedAt(stack, open, slots, j, delta, 0)} | 0 <= j < |open| ::
      RelocatedAt(stack, open, slots, j, delta, 0)
    ensures |open| == |slots| && first == (if open == [] then null else open[0]) && Descending(slots)
  {
    forall j | 0 <= j < |open| ensures RelocatedAt(stack, open, slots, j, delta, 0) {
      assert OpenAt(stack, open, slots, j);
    }
  }

  /** No upvalue is in the list twice. */
  lemma OpenDistinct(stack: int, open: seq<Upvalue>, slots: seq<nat>)
    requires |open| == |slots| && Descending(slots)
    requires forall j {:trigger RelocatedAt(stack, open, slots, j, 0, 0)} | 0 <= j < |open| ::
      RelocatedAt(stack, open, slots, j, 0, 0)
    ensures forall i, j | 0 <= i < j < |open| :: open[i] != open[j]
  {
    forall i, j | 0 <= i < j < |open| ensures open[i] != open[j] {
      assert RelocatedAt(stack, open, slots, i, 0, 0) && RelocatedAt(stack, open, slots, j, 0, 0);
    }
  }

  lemma RelocatedAll(stack: int, first: Upvalue?, open: seq<Upvalue>, slots: seq<nat>, delta: int)
    requires |open| == |slots| && first == (if open == [] then null else open[0]) && Descending(slots)
    requires forall j {:trigger RelocatedAt(stack, open, slots, j, delta, |open|)} | 0 <= j < |open| ::
      RelocatedAt(stack, open, slots, j, delta, |open|)
    ensures OpenOk(stack + delta, first, open, slots)
  {
    var moved := stack + delta;
    forall j | 0 <= j < |open| ensures OpenAt(moved, open, slots, j) {
      assert RelocatedAt(stack, open, slots, j, delta, |open|);
    }
  }

  lemma GrownUpvalues(cs: Cells, cs': Cells, mem: seq<Slot>, stack: int, open: set<Upvalue>, up: map<Upvalue, nat>)
    requires SlotsOk(cs, mem) && UpvaluesOk(cs, stack, open, up) && cs.slot <= cs'.slot
    requires forall c | c in cs.val :: c in cs'.val && cs'.val[c] == cs.val[c]
    requires forall c | c in cs.home && c < cs.next :: c in cs'.home && cs'.home[c] == cs.home[c]
    ensures forall u {:trigger UpvalueOk(cs', stack, open, up, u)} | u in up :: UpvalueOk(cs', stack, open, up, u)
  {
    forall u | u in up ensures UpvalueOk(cs', stack, open, up, u) {
      assert UpvalueOk(cs, stack, open, up, u);
      assert NumberOk(cs, up[u]);
    }
  }

  /** The cells of the open upvalues are those of their slots. */
  lemma OpenCells(cs: Cells, stack: int, first: Upvalue?, open: seq<Upvalue>, slots: seq<nat>, up: map<Upvalue, nat>)
    requires OpenOk(stack, first, open, slots) && Those(open) <= up.Keys
    requires forall u {:trigger UpvalueOk(cs, stack, Those(open), up, u)} | u in up ::
      UpvalueOk(cs, stack, Those(open), up, u)
    ensures forall j {:trigger OpenCell(cs, open, slots, up, j)} | 0 <= j < |open| :: OpenCell(cs, open, slots, up, j)
  {
    forall j | 0 <= j < |open| ensures OpenCell(cs, open, slots, up, j) {
      assert OpenAt(stack, open, slots, j);
      assert UpvalueOk(cs, stack, Those(open), up, open[j]);
    }
  }

  ghost predicate OpenCell(cs: Cells, open: seq<Upvalue>, slots: seq<nat>, up: map<Upvalue, nat>, j: int) {
    0 <= j < |open| && j < |slots| && open[j] in up && slots[j] < |cs.slot| && up[open[j]] == cs.slot[slots[j]]
    && up[open[j]] in cs.val && up[open[j]] in cs.home
  }

  lemma UpvaluesMoved(cs: Cells, stack: int, moved: int, first: Upvalue?, open: seq<Upvalue>, slots: seq<nat>,
                      up: map<Upvalue, nat>)
    requires OpenOk(moved, first, open, slots)
    requires forall j {:trigger OpenCell(cs, open, slots, up, j)} | 0 <= j < |open| :: OpenCell(cs, open, slots, up, j)
    requires forall u {:trigger UpvalueOk(cs, stack, Those(open), up, u)} | u in up && u !in Those(open) ::
      UpvalueOk(cs, stack, Those(open), up, u)
    ensures UpvaluesOk(cs, moved, Those(open), up)
  {
    forall u | u in up ensures UpvalueOk(cs, moved, Those(open), up, u) {
      if u in Those(open) {
        var j :| 0 <= j < |open| && open[j] == u;
        assert OpenAt(moved, open, slots, j) && OpenCell(cs, open, slots, up, j);
      } else {
        assert UpvalueOk(cs, stack, Those(open), up, u);
      }
    }
  }

  lemma RoomyGrow(frames: seq<int>, used: seq<nat>, size: nat, size': nat)
    requires Roomy(frames, used, size) && size <= size'
    ensures Roomy(frames, used, size')
  {
  }

  /** No open upvalue is where the header of a frame goes whose base is above i by one. */
  ghost predicate HeaderFree(slots: seq<nat>, i: int) {
    forall j | 0 <= j < |slots| :: slots[j] != i - 1 && slots[j] != i - 2
  }

  lemma ClearPush(frames: seq<int>, slots: seq<nat>, base: int)
    requires Clear(frames, slots) && HeaderFree(slots, base - 1)
    ensures Clear(frames + [base], slots)
  {
  }

  lemma RoomyPush(frames: seq<int>, used: seq<nat>, size: nat, base: int, stackUsed: nat)
    requires Roomy(frames, used, size) && base + stackUsed + 1 < size
    ensures Roomy(frames + [base], used + [stackUsed], size)
  {
  }

  lemma KeptSelf(cs: Cells, i: int)
    ensures KeptBelow(cs, cs, i)
  {
  }

  lemma LastFrame(code: int -> Instr, mem: seq<Slot>, frames: seq<int>)
    requires Framed(code, mem, frames) && |frames| > 1
    ensures FrameAt(code, mem, frames, |frames| - 1)
  {
  }

  /** Slot i is base[-2] of a frame. */
  ghost predicate IsLink(frames: seq<int>, i: int) { exists k :: 1 <= k < |frames| && i == frames[k] - 2 }

  /** What has been visited, coming down to slot i from the top. */
  ghost predicate Visited(frames: seq<int>, visited: seq<int>, i: int, top: int) {
    && (forall j | i < j < top && 1 <= j :: j in visited <==> !IsLink(frames, j))
    && forall j | j in visited :: 0 <= j && i < j < top && !IsLink(frames, j)
  }

  ghost predicate BelowNext(frames: seq<int>, k: int, i: int) { 0 <= k && (k + 1 < |frames| ==> i < frames[k + 1] - 2) }

  lemma BelowDown(frames: seq<int>, k: int, i: int, j: int)
    requires BelowNext(frames, k, i) && j <= i
    ensures BelowNext(frames, k, j)
  {
  }

  lemma VisitedNone(frames: seq<int>, top: int)
    ensures Visited(frames, [], top - 1, top) && (frames != [] ==> BelowNext(frames, |frames| - 1, top - 1))
  {
  }

  lemma VisitedAll(frames: seq<int>, visited: seq<int>, i: int, top: int)
    requires Visited(frames, visited, i, top) && i <= 0
    ensures forall j | 1 <= j < top :: j in visited <==> !IsLink(frames, j)
    ensures forall j | j in visited :: 0 <= j < top && !IsLink(frames, j)
  {
  }

  lemma VisitedOne(frames: seq<int>, visited: seq<int>, i: int, top: int)
    requires Visited(frames, visited, i, top) && 0 <= i < top && !IsLink(frames, i)
    ensures Visited(frames, visited + [i], i - 1, top)
  {
  }

  lemma LastBase(code: int -> Instr, mem: seq<Slot>, frames: seq<int>)
    requires Framed(code, mem, frames)
    ensures frames != [] && frames[|frames| - 1] >= 0
  {
    assert FrameAt(code, mem, frames, |frames| - 1);
  }

  /** Only the base of the bottom frame is below 3. */
  lemma Bottom(code: int -> Instr, mem: seq<Slot>, frames: seq<int>, k: nat)
    requires Framed(code, mem, frames) && k < |frames|
    ensures if k == 0 then frames[k] == 0 else frames[k] >= 3
  {
    assert FrameAt(code, mem, frames, k);
  }

  /** Between the base of a frame and the header of the next one there is no link. */
  lemma NoLink(code: int -> Instr, mem: seq<Slot>, frames: seq<int>, k: nat, i: int)
    requires Framed(code, mem, frames) && k < |frames| && frames[k] - 1 <= i && BelowNext(frames, k, i)
    ensures !IsLink(frames, i)
  {
    forall j | 1 <= j < |frames| ensures i != frames[j] - 2 {
      if j <= k {
        FramesAscend(code, mem, frames, j, k);
      } else {
        FramesAscend(code, mem, frames, k + 1, j);
      }
    }
  }

  /** The header of frame k: the link is passed over, base[-3] is visited. */
  lemma VisitedLink(code: int -> Instr, mem: seq<Slot>, frames: seq<int>, visited: seq<int>, k: int, top: int)
    requires Framed(code, mem, frames) && 1 <= k < |frames| && frames[k] - 2 < top
    requires Visited(frames, visited, frames[k] - 2, top)
    ensures FrameAt(code, mem, frames, k) && Visited(frames, visited + [frames[k] - 3], frames[k] - 4, top)
    ensures BelowNext(frames, k - 1, frames[k] - 4)
  {
    assert FrameAt(code, mem, frames, k);
    assert IsLink(frames, frames[k] - 2);
    assert Visited(frames, visited, frames[k] - 3, top);
    NoLink(code, mem, frames, k - 1, frames[k] - 3);
    VisitedOne(frames, visited, frames[k] - 3, top);
  }

  lemma ClearTail(frames: seq<int>, slots: seq<nat>)
    requires Clear(frames, slots) && slots != []
    ensures Clear(frames, slots[1..])
  {
  }

  /** OpenOk, with the links given by a map. */
  ghost predicate OpenIn(stack: int, first: Upvalue?, open: seq<Upvalue>, slots: seq<nat>, nexts: map<Upvalue,
                         Upvalue?>)
    reads Those(open)`location
  {
    && |open| == |slots| && first == (if open == [] then null else open[0]) && Descending(slots)
    && forall i {:trigger open[i]} | 0 <= i < |open| ::
        open[i] in Those(open) && open[i].location == At(stack + slots[i]) &&
        open[i] in nexts && nexts[open[i]] == NextUpvalue(open, i)
  }

  lemma OpenByNexts(stack: int, first: Upvalue?, open: seq<Upvalue>, slots: seq<nat>)
    requires OpenOk(stack, first, open, slots)
    ensures OpenIn(stack, first, open, slots, Nexts(Those(open)))
  {
    forall i | 0 <= i < |open|
      ensures open[i] in Those(open) && open[i].location == At(stack + slots[i]) && open[i].next == NextUpvalue(open, i) {
      assert OpenAt(stack, open, slots, i);
    }
  }

  lemma DescendingInsert(slots: seq<nat>, k: nat, i: nat)
    requires Descending(slots) && k <= |slots|
    requires (forall j | 0 <= j < k :: slots[j] > i) && (k < |slots| ==> slots[k] < i)
    ensures Descending(InsertAt<nat>(slots, k, i))
  {
    var slots' := InsertAt<nat>(slots, k, i);
    forall x, y | 0 <= x < y < |slots'| ensures slots'[x] > slots'[y] {
    }
  }

  function InsertAt<T>(s: seq<T>, k: nat, x: T): (r: seq<T>)
    requires k <= |s|
    ensures |r| == |s| + 1 && r[k] == x
    ensures forall j {:trigger r[j]} | 0 <= j < |r| && j != k :: r[j] == s[if j < k then j else j - 1]
  {
    s[..k] + [x] + s[k..]
  }

  ghost predicate Relinked(u: Upvalue, nexts: map<Upvalue, Upvalue?>, before: Upvalue?, after: Upvalue)
    reads u`next
  {
    u in nexts && u.next == if u == before then after else nexts[u]
  }

  lemma Inserted(stack: int, first: Upvalue?, first': Upvalue?, open: seq<Upvalue>, slots: seq<nat>,
                 nexts: map<Upvalue, Upvalue?>,
                 k: nat, ret: Upvalue, i: nat)
    requires OpenIn(stack, first, open, slots, nexts) && k <= |open| && ret.location == At(stack + i)
    requires ret.next == (if k < |open| then open[k] else null) && first' == (if k == 0 then ret else first)
    requires var before := if k > 0 then open[k - 1] else null;
      forall u {:trigger Relinked(u, nexts, before, ret)} | u in Those(open) :: Relinked(u, nexts, before, ret)
    requires (forall j | 0 <= j < k :: slots[j] > i) && (k < |open| ==> slots[k] < i)
    ensures OpenOk(stack, first', InsertAt(open, k, ret), InsertAt<nat>(slots, k, i))
  {
    hide Descending, InsertAt, Those, OpenAt;
    var open', slots' := InsertAt(open, k, ret), InsertAt<nat>(slots, k, i);
    forall j: nat | j < |open'| ensures OpenAt(stack, open', slots', j) {
      InsertedOne(stack, first, open, slots, nexts, k, ret, i, j);
    }
    DescendingInsert(slots, k, i);
  }

  lemma InsertedOne(stack: int, first: Upvalue?, open: seq<Upvalue>, slots: seq<nat>, nexts: map<Upvalue, Upvalue?>,
                    k: nat, ret: Upvalue, i: nat, j: nat)
    requires OpenIn(stack, first, open, slots, nexts) && k <= |open| && ret.location == At(stack + i) && j <= |open|
    requires ret.next == (if k < |open| then open[k] else null)
    requires var before := if k > 0 then open[k - 1] else null;
      forall u {:trigger Relinked(u, nexts, before, ret)} | u in Those(open) :: Relinked(u, nexts, before, ret)
    ensures OpenAt(stack, InsertAt(open, k, ret), InsertAt<nat>(slots, k, i), j)
  {
    hide Descending, InsertAt, Those, OpenIn;
    var open' := InsertAt(open, k, ret);
    InThose(open', j);
    assert |open| == |slots| by { OpenInSize(stack, first, open, slots, nexts); }
    if j != k {
      InsertedAt(stack, first, open, slots, nexts, k, ret, if j < k then j else j - 1);
    }
  }

  lemma OpenInSize(stack: int, first: Upvalue?, open: seq<Upvalue>, slots: seq<nat>, nexts: map<Upvalue, Upvalue?>)
    requires OpenIn(stack, first, open, slots, nexts)
    ensures |open| == |slots|
  {
  }

  lemma InsertedAt(stack: int, first: Upvalue?, open: seq<Upvalue>, slots: seq<nat>, nexts: map<Upvalue, Upvalue?>,
                   k: nat, ret: Upvalue, j: nat)
    requires OpenIn(stack, first, open, slots, nexts) && k <= |open| && j < |open|
    requires var before := if k > 0 then open[k - 1] else null;
      forall u {:trigger Relinked(u, nexts, before, ret)} | u in Those(open) :: Relinked(u, nexts, before, ret)
    ensures open[j].location == At(stack + slots[j]) && open[j].next == if j == k - 1 then ret else NextUpvalue(open, j)
  {
    hide Those;
    InThose(open, j);
    assert Relinked(open[j], nexts, if k > 0 then open[k - 1] else null, ret);
    if k > 0 && j != k - 1 {
      assert open[k - 1].location == At(stack + slots[k - 1]);
      assert slots[j] != slots[k - 1];
    }
  }

  lemma CaptureUpvalues(cs: Cells, stack: int, those: set<Upvalue>, up: map<Upvalue, nat>, ret: Upvalue, i: nat)
    requires UpvaluesOk(cs, stack, those, up) && ret !in up && ret.location == At(stack + i)
    requires i < |cs.slot| && cs.slot[i] in cs.val && cs.slot[i] in cs.home
    ensures UpvaluesOk(cs, stack, those + {ret}, up[ret := cs.slot[i]])
  {
    var up', those' := up[ret := cs.slot[i]], those + {ret};
    forall u | u in up' ensures UpvalueOk(cs, stack, those', up', u) {
      if u != ret {
        assert UpvalueOk(cs, stack, those, up, u);
      }
    }
  }

  lemma ClearInsert(frames: seq<int>, slots: seq<nat>, k: nat, i: nat)
    requires Clear(frames, slots) && k <= |slots| && NotHeader(frames, i)
    ensures Clear(frames, InsertAt<nat>(slots, k, i))
  {
  }

  lemma InsertThose(open: seq<Upvalue>, k: nat, ret: Upvalue)
    requires k <= |open|
    ensures Those(InsertAt(open, k, ret)) == Those(open) + {ret}
  {
    assert open == open[..k] + open[k..];
  }

  lemma OwnWritten(cs: Cells, mem: seq<Slot>, c: nat, u: Upvalue, v: Slot)
    requires SlotsOk(cs, mem) && c in cs.val && c in cs.home && cs.home[c] == InUpvalue(u)
    ensures SlotsOk(cs.(val := cs.val[c := v]), mem)
  {
    var cs' := cs.(val := cs.val[c := v]);
    forall j: nat ensures SlotOk(cs', mem, j) {
      assert SlotOk(cs, mem, j);
    }
    forall d: nat ensures NumberOk(cs', d) {
      assert NumberOk(cs, d);
    }
  }

  lemma SlotNotOwn(cs: Cells, mem: seq<Slot>, i: nat, u: Upvalue, c: nat)
    requires SlotsOk(cs, mem) && i < |mem| && c in cs.home && cs.home[c] == InUpvalue(u)
    ensures cs.slot[i] != c
  {
    assert SlotOk(cs, mem, i);
  }
}
