/** The compiler of src/parse.c: one object whose methods patch the code array in place and
    keep their jump lists in it.  Every method is proved against the function of CodeGen.dfy
    that says what it computes. */
module Compiler {
  import opened Bytecode
  import opened Machine
  import opened Source
  import opened CodeGen
  import opened Positions
  import opened Shape
  import opened ExprShape
  import opened ExprRuns
  import opened StmtShape
  import opened Threads
  import Errors

  /** expressionDescription: a kind, and the heads of its two lists. */
  datatype Exp = Exp(kind: Kind, trueJump: int, falseJump: int)

  /** One fails when the other does, with the same message. */
  predicate Alike<A, B>(r: Result<A>, f: Result<B>) { if r.Ok? then f.Ok? else f.Err? && f.msg == r.msg }

  /** Jumps of an outer list are open, and are not in this one. */
  lemma OuterOpen(a: seq<Instr>, list: seq<nat>, outer: multiset<nat>)
    requires Tidy(a, multiset(list) + outer)
    ensures AllOpen(a, list) && WfCode(a)
    ensures forall j: nat {:trigger Open(a, j)} | j in outer :: Open(a, j) && j !in list
  {
    var lists := multiset(list) + outer;
    ListIsOpen(a, list, lists);
    forall j: nat | j in outer ensures Open(a, j) && j !in list {
      assert lists[j] == if Open(a, j) then 1 else 0;
      assert j in list ==> multiset(list)[j] >= 1;
    }
  }

  /** One turn of jump_patch_value, on both codes. */
  lemma PatchStep(c: seq<Instr>, a: seq<Instr>, at: int, rest: seq<nat>, vt: nat, r: Reg, ot: nat, valued: bool)
    requires rest != [] && Threaded(c, a) && Chain(c, at, rest) && WfCode(a) && AllOpen(a, rest)
    requires vt !in rest && ot !in rest && (valued ==> !CodeGen.NoValue(a, rest))
    ensures at == rest[0] && PatchOne(c, at, vt, r, ot).Ok? == PatchOne(a, at, vt, r, ot).Ok?
    ensures PatchOne(a, at, vt, r, ot).Ok? ==>
              var c', a' := PatchOne(c, at, vt, r, ot).value, PatchOne(a, at, vt, r, ot).value;
              && Threaded(c', a') && Chain(c', Next(c, at), rest[1..]) && WfCode(a') && AllOpen(a', rest[1..])
              && (valued ==> !CodeGen.NoValue(a', rest[1..]))
              && (forall j: nat {:trigger SameAt(c, c', j)} | Open(a, j) && j != at :: SameAt(c, c', j) && Open(a', j))
    ensures valued ==> PatchTest(c, at, r).1
  {
    var pc, tail := rest[0], rest[1..];
    assert Open(a, pc);
    PatchOneAlike(c, a, pc, vt, r, ot);
    TestAlike(c, a, pc);
    if PatchOne(a, pc, vt, r, ot).Ok? {
      var c', a' := PatchOne(c, pc, vt, r, ot).value, PatchOne(a, pc, vt, r, ot).value;
      PatchOneShape(a, pc, vt, r, ot);
      forall j | j in tail ensures Open(a, j) && j != pc && j < |c| && c[j] == c'[j] && Open(a', j) {
        assert j in rest;
      }
      ChainSame(c, c', Next(c, at), tail);
      if valued {
        StillValued(a, a', tail, pc, vt, r, ot);
      }
    }
  }

  /** A value in a register that jumps lead to is a local. */
  predicate Movable(st: State, d: Desc) {
    (d.kind.LocalK? || d.kind.NonRelocK?) && HasJump(d) ==> d.kind.r < st.actVar && st.nextReg != 0
  }

  class Compiler {
    var code: seq<Instr>
    var consts: seq<Value>
    var nextReg: Reg
    var actVar: Reg
    var maxReg: Reg
    var pendingJumpList: int
    var pendingBreakList: int
    var pendingContinueList: int
    var inLoop: bool

    /** The state with its lists as sequences. */
    ghost var st: State

    ghost predicate Rep()
      reads this
    {
      && Threaded(code, st.code) && Chain(code, pendingJumpList, st.pending)
      && consts == st.consts && nextReg == st.nextReg && actVar == st.actVar && maxReg == st.maxReg
    }

    // ----- jump lists -----

    /** jump_patch_test_reg. */
    method PatchTestReg(pc: nat, r: Reg) returns (isTest: bool)
      requires pc < |code| && |code| > 1
      modifies `code
      ensures (code, isTest) == PatchTest(old(code), pc, r)
    {
      var ip := if pc >= 1 then pc - 1 else pc;
      var i := code[ip];
      if i.op.CopyJumpIf? {
        if r == NO_REG || r == i.d {
          code := code[ip := i.(op := JumpIf(i.op.cond), a := 0)];
        } else {
          code := code[ip := i.(a := r)];
        }
        return true;
      } else if i.a == NO_REG {
        if r == NO_REG {
          code := code[ip := InstrAJ(Jump, code[pc].a, 0)];
        } else {
          code := code[ip := i.(a := r)];
          if r >= code[ip + 1].a {
            code := code[ip + 1 := code[ip + 1].(a := Cast8(r + 1))];
          }
        }
        return true;
      }
      return false;
    }

    /** jump_patch_instruction. */
    method PatchInstruction(src: nat, dest: int) returns (res: Result<()>)
      requires src < |code| && dest != NO_JUMP && dest >= 0
      modifies `code
      ensures res.Ok? == Near(src, dest)
      ensures res.Ok? ==> code == old(code)[src := JumpTo(old(code)[src], src, dest)]
      ensures res.Err? ==> res.msg == TOO_FAR && code == old(code)
    {
      var offset := dest - (src + 1) + JUMP_BIAS;
      if offset < 0 || offset > MAX_D {
        return Err(TOO_FAR);
      }
      code := code[src := code[src].(d := offset)];
      return Ok(());
    }

    /** jump_patch_value: the assertion on the destination never fails. */
    method PatchValue(head: int, valueTarget: nat, r: Reg, otherTarget: int, ghost list: seq<nat>)
        returns (res: Result<()>)
      requires Threaded(code, st.code) && Chain(code, head, list) && WfCode(st.code) && AllOpen(st.code, list)
      requires valueTarget !in list && otherTarget >= NO_JUMP && (otherTarget >= 0 ==> otherTarget !in list)
      requires otherTarget == NO_JUMP ==> !CodeGen.NoValue(st.code, list)
      modifies `code, `st
      ensures var ot := if otherTarget == NO_JUMP then valueTarget else otherTarget;
        var r := PatchList(old(st.code), list, valueTarget, r, ot);
        && Alike(res, r)
        && (res.Ok? ==> st == old(st).(code := r.value) && Threaded(code, st.code))
      ensures res.Ok? ==> forall j: nat {:trigger SameAt(old(code), code, j)} | Open(old(st.code), j) && j !in list ::
                SameAt(old(code), code, j)
    {
      var at := head;
      ghost var rest := list;
      ghost var ot: nat := if otherTarget == NO_JUMP then valueTarget else otherTarget;
      while at != NO_JUMP
        invariant Threaded(code, st.code) && Chain(code, at, rest) && WfCode(st.code) && AllOpen(st.code, rest)
        invariant valueTarget !in rest && ot !in rest
        invariant otherTarget == NO_JUMP ==> !CodeGen.NoValue(st.code, rest)
        invariant PatchList(old(st.code), list, valueTarget, r, ot) == PatchList(st.code, rest, valueTarget, r, ot)
        invariant st == old(st).(code := st.code) && |code| == |old(code)|
        invariant forall j | j in rest :: j in list
        invariant forall j: nat {:trigger SameAt(old(code), code, j)} | Open(old(st.code), j) && j !in list ::
            SameAt(old(code), code, j) && Open(st.code, j)
        decreases |rest|
      {
        ghost var a, c, pc := st.code, code, rest[0];
        var next := Next(code, at);
        TestAlike(c, a, pc);
        PatchStep(c, a, at, rest, valueTarget, r, ot, otherTarget == NO_JUMP);
        var isTest := PatchTestReg(at, r);
        var _ :- PatchInstruction(at, if isTest then valueTarget else otherTarget);
        st := st.(code := PatchOne(a, pc, valueTarget, r, ot).value);
        at := next;
        rest := rest[1..];
        forall j: nat | Open(old(st.code), j) && j !in list ensures SameAt(old(code), code, j) && Open(st.code, j) {
          assert SameAt(old(code), c, j) && Open(a, j);
          assert SameAt(c, code, j);
        }
      }
      return Ok(());
    }

    /** jump_append: a new head for the first list, with the second behind it. */
    method JumpAppend(head1: int, head2: int, ghost l1: seq<nat>, ghost l2: seq<nat>) returns (res: Result<int>)
      requires Threaded(code, st.code) && Chain(code, head1, l1) && Chain(code, head2, l2) && AllOpen(st.code, l1 + l2)
      modifies `code
      ensures Alike(res, Append(l1, l2))
      ensures res.Ok? ==> Append(l1, l2).value == l1 + l2 && Threaded(code, st.code) && Chain(code, res.value, l1 + l2)
      ensures forall j: nat {:trigger SameAt(old(code), code, j)} | j < |code| && j !in l1 :: SameAt(old(code), code, j)
    {
      if head2 == NO_JUMP {
        assert l1 + l2 == l1;
        return Ok(head1);
      }
      if head1 == NO_JUMP {
        assert l1 + l2 == l2;
        return Ok(head2);
      }
      var list := head1;
      ghost var i: nat := 0;
      ChainFrom(code, head1, l1, 0);
      while Next(code, list) != NO_JUMP
        invariant code == old(code) && i < |l1| && list == l1[i] < |code|
        decreases |l1| - i
      {
        ChainFrom(code, head1, l1, i);
        list := Next(code, list);
        i := i + 1;
        ChainFrom(code, head1, l1, i);
      }
      ChainFrom(code, head1, l1, i);
      assert l1[..i + 1] == l1;
      forall i, j | 0 <= i < |l1| && 0 <= j < |l2| ensures l1[i] != l2[j] {
        assert (l1 + l2)[i] == l1[i] && (l1 + l2)[|l1| + j] == l2[j];
      }
      forall i, j | 0 <= i < j < |l1| ensures l1[i] != l1[j] {
        assert (l1 + l2)[i] == l1[i] && (l1 + l2)[j] == l1[j];
      }
      assert (l1 + l2)[i] == list;
      if Near(list, head2) {
        LinkThreaded(code, st.code, list, head2);
        LinkChain(code, head1, l1, head2, l2);
      }
      var _ :- PatchInstruction(list, head2);
      return Ok(head1);
    }

    /** jump_novalue. */
    method JumpNoValue(head: int, ghost list: seq<nat>) returns (b: bool)
      requires Threaded(code, st.code) && Chain(code, head, list) && WfCode(st.code) && AllOpen(st.code, list)
      ensures b == CodeGen.NoValue(st.code, list)
    {
      NoValueAlike(code, st.code, list);
      var at := head;
      ghost var rest := list;
      while at != NO_JUMP
        invariant Chain(code, at, rest)
        invariant CodeGen.NoValue(code, list) == CodeGen.NoValue(code, rest)
        decreases |rest|
      {
        var i := code[if at >= 1 then at - 1 else at];
        if !(i.op.CopyJumpIf? || i.a == NO_REG) {
          return true;
        }
        at := Next(code, at);
        rest := rest[1..];
      }
      return false;
    }

    /** emitBytecode: the pending jumps lead to the new instruction. */
    method EmitBytecode(i: Instr, ghost outer: multiset<nat>) returns (res: Result<nat>)
      requires Rep() && Tidy(st.code, multiset(st.pending) + outer)
      modifies `code, `pendingJumpList, `st
      ensures Alike(res, Emit(old(st), i))
      ensures res.Ok? ==> Emit(old(st), i) == Ok(st) && Rep() && Same(old(code), code, outer)
      ensures res.Ok? ==> res.value == |old(st).code| == |code| - 1 && code[res.value] == i
    {
      OuterOpen(st.code, st.pending, outer);
      PendingOpen(st, outer);
      var _ :- PatchValue(pendingJumpList, |code|, NO_REG, |code|, st.pending);
      pendingJumpList := NO_JUMP;
      EmitThreaded(code, st.code, i);
      ghost var c := code;
      forall j: nat | j in outer ensures SameAt(old(code), c + [i], j) {
        assert Open(old(st).code, j);
        assert SameAt(old(code), c, j);
      }
      code := code + [i];
      st := st.(code := st.code + [i], pending := []);
      return Ok(|code| - 1);
    }

    /** _emit_jump for OP_JUMP. */
    method EmitJump(ghost outer: multiset<nat>) returns (res: Result<int>)
      requires Rep() && Tidy(st.code, multiset(st.pending) + outer)
      modifies `code, `pendingJumpList, `st
      ensures Alike(res, CodeGen.EmitJump(old(st)))
      ensures res.Ok? ==>
                && CodeGen.EmitJump(old(st)).value.0 == st && Rep() && Same(old(code), code, outer)
                && Chain(code, res.value, CodeGen.EmitJump(old(st)).value.1)
    {
      var pjl := pendingJumpList;
      ghost var a0, c0, pending, len: nat := st.code, code, st.pending, |code|;
      ghost var others := multiset(pending) + outer;
      OuterOpen(a0, pending, outer);
      pendingJumpList := NO_JUMP;
      st := st.(pending := []);
      assert multiset(st.pending) + others == others;
      var i := InstrAJ(Jump, nextReg, Cast16(NO_JUMP));
      var emitted := EmitBytecode(i, others);
      var j := emitted.value;
      ghost var c1 := code;
      ChainKept(c0, code, pjl, pending, others);
      NewJumpOpen(a0, i, pending);
      assert Chain(code, j, [len]);
      var list :- JumpAppend(j, pjl, [len], pending);
      forall j: nat | j in outer ensures SameAt(c0, code, j) {
        assert j in others && Open(a0, j);
        assert SameAt(c0, c1, j) && SameAt(c1, code, j);
      }
      return Ok(list);
    }

    /** jump_to_here. */
    method JumpToHere(head: int, ghost list: seq<nat>, ghost outer: multiset<nat>) returns (res: Result<()>)
      requires Rep() && Chain(code, head, list) && Tidy(st.code, multiset(st.pending) + (multiset(list) + outer))
      modifies `code, `pendingJumpList, `st
      ensures Alike(res, ToHere(old(st), list))
      ensures res.Ok? ==> ToHere(old(st), list) == Ok(st) && Rep() && Same(old(code), code, outer)
    {
      ghost var pending := st.pending;
      assert multiset(pending + list) + outer == multiset(pending) + (multiset(list) + outer);
      OuterOpen(st.code, pending + list, outer);
      var p :- JumpAppend(pendingJumpList, head, pending, list);
      pendingJumpList := p;
      st := st.(pending := pending + list);
      forall j: nat | j in outer ensures SameAt(old(code), code, j) {
        assert Open(st.code, j) && j !in pending + list;
      }
      return Ok(());
    }

    // ----- registers and constants -----

    /** regFree: its assertions never fail. */
    method RegFree(r: Reg)
      requires Rep() && (r != NO_REG ==> nextReg != 0 && (r >= actVar ==> r == nextReg - 1))
      modifies `nextReg, `st
      ensures Rep() && st == CodeGen.RegFree(old(st), r)
    {
      if r == NO_REG {
        return;
      }
      assert nextReg != 0;
      if r >= actVar {
        nextReg := nextReg - 1;
        assert r == nextReg;
      }
      st := CodeGen.RegFree(st, r);
    }

    method ExprFree(e: Exp, ghost d: Desc)
      requires Rep() && e.kind == d.kind
      requires e.kind.NonRelocK? && e.kind.r != NO_REG ==>
        nextReg != 0 && (e.kind.r >= actVar ==> e.kind.r == nextReg - 1)
      modifies `nextReg, `st
      ensures Rep() && st == CodeGen.ExprFree(old(st), d)
    {
      if e.kind.NonRelocK? {
        RegFree(e.kind.r);
      }
    }

    /** regReserve of one register, with regBump. */
    method RegReserve()
      requires Rep()
      modifies `nextReg, `maxReg, `st
      ensures Rep() && st == CodeGen.RegReserve(old(st))
    {
      var sz := Cast8(nextReg + 1);
      if sz > maxReg {
        maxReg := sz;
      }
      nextReg := sz;
      st := CodeGen.RegReserve(st);
    }

    method AddConstant(v: Value) returns (i: nat)
      requires Rep()
      modifies `consts, `st
      ensures Rep() && (st, i) == AddConst(old(st), v)
    {
      i := Find(consts, v);
      if i == |consts| {
        consts := consts + [v];
      }
      st := AddConst(st, v).0;
    }

    method MakeConstant(v: Value) returns (res: Result<Half>)
      requires Rep()
      modifies `consts, `st
      ensures Alike(res, MakeConst(old(st), v))
      ensures res.Ok? ==> Rep() && MakeConst(old(st), v) == Ok((st, res.value))
    {
      var i := AddConstant(v);
      if i > 0xffff {
        return Err(TOO_MANY_CONSTANTS);
      }
      return Ok(i);
    }

    // ----- expressions -----

    ghost predicate Is(e: Exp, d: Desc)
      reads this
    {
      e.kind == d.kind && Chain(code, e.trueJump, d.tj) && Chain(code, e.falseJump, d.fj)
    }

    /** The function r of CodeGen has been carried out, and outer lists are as they were. */
    ghost predicate Did(r: Result<(State, Desc)>, e: Exp, c0: seq<Instr>, outer: multiset<nat>)
      reads this
    {
      r.Ok? && st == r.value.0 && Rep() && Is(e, r.value.1) && Same(c0, code, outer)
    }

    /** ExprHasJump. */
    lemma HasJumpHeads(e: Exp, d: Desc, outer: multiset<nat>, upvals: nat)
      requires Is(e, d) && Described(st, d, outer, upvals)
      ensures (e.trueJump != e.falseJump) == HasJump(d)
    {
      ChainHead(code, e.trueJump, d.tj);
      ChainHead(code, e.falseJump, d.fj);
      if d.tj != [] && d.fj != [] {
        var lists := Lists(st, d) + outer;
        var j := d.tj[0];
        assert multiset(d.tj)[j] >= 1;
        assert d.fj[0] == j ==> multiset(d.fj)[j] >= 1;
        assert lists[j] <= 1;
      }
    }

    lemma Regrouped(d: Desc, outer: multiset<nat>, upvals: nat)
      requires Described(st, d, outer, upvals)
      ensures Tidy(st.code, multiset(st.pending) + (OwnOf(d) + outer))
    {
      assert multiset(st.pending) + (OwnOf(d) + outer) == Lists(st, d) + outer;
    }

    lemma IsKept(e: Exp, d: Desc, c0: seq<Instr>, outer: multiset<nat>)
      requires e.kind == d.kind && Chain(c0, e.trueJump, d.tj) && Chain(c0, e.falseJump, d.fj)
      requires Same(c0, code, OwnOf(d) + outer)
      ensures Is(e, d) && Same(c0, code, outer)
    {
      ChainKept(c0, code, e.trueJump, d.tj, OwnOf(d) + outer);
      ChainKept(c0, code, e.falseJump, d.fj, OwnOf(d) + outer);
      SameSub(c0, code, OwnOf(d) + outer, outer);
    }

    /** exprDischarge. */
    method ExprDischarge(e: Exp, ghost d: Desc, ghost outer: multiset<nat>, ghost upvals: nat)
        returns (res: Result<Exp>)
      requires Rep() && Is(e, d) && Described(st, d, outer, upvals)
      modifies `code, `pendingJumpList, `st
      ensures Alike(res, Discharge(old(st), d))
      ensures res.Ok? ==> Did(Discharge(old(st), d), res.value, old(code), outer)
      ensures res.Ok? ==> res.value == e.(kind := res.value.kind)
    {
      hide Emit, Described;
      Regrouped(d, outer, upvals);
      SameRefl(code, st.code, multiset(st.pending) + (OwnOf(d) + outer), outer);
      ghost var c0 := code;
      match e.kind {
        case UpvalK(k) =>
          var pos :- EmitBytecode(Instr(GetUpval, 0, k), OwnOf(d) + outer);
          IsKept(e, d, c0, outer);
          return Ok(e.(kind := RelocK(pos)));
        case GlobalK(k) =>
          var pos :- EmitBytecode(Instr(GetGlobal, 0, k), OwnOf(d) + outer);
          IsKept(e, d, c0, outer);
          return Ok(e.(kind := RelocK(pos)));
        case LocalK(r) =>
          return Ok(e.(kind := NonRelocK(r)));
        case _ =>
          return Ok(e);
      }
    }

    /** The switch of exprToRegNoBranch. */
    method PlaceInReg(e: Exp, r: Reg, ghost d: Desc, ghost outer: multiset<nat>, ghost upvals: nat)
        returns (res: Result<Exp>)
      requires Rep() && Is(e, d) && Described(st, d, outer, upvals)
      requires !d.kind.LocalK? && !d.kind.GlobalK? && !d.kind.UpvalK?
      modifies `code, `consts, `pendingJumpList, `st
      ensures Alike(res, Place(old(st), d.kind, r))
      ensures res.Ok? ==> Place(old(st), d.kind, r) == Ok(st) && Rep() && Is(res.value, d.(kind := NonRelocK(r)))
                          && Same(old(code), code, outer)
      ensures res.Ok? ==> res.value == e.(kind := res.value.kind)
    {
      hide Emit, AddConst, Described;
      Regrouped(d, outer, upvals);
      SameRefl(code, st.code, multiset(st.pending) + (OwnOf(d) + outer), outer);
      ghost var c0 := code;
      match e.kind {
        case PrimK(p) =>
          var _ :- EmitBytecode(Instr(Primitive, r, Cast16(p)), OwnOf(d) + outer);
          IsKept(e, d, c0, outer);
        case TextK(s) =>
          var i :- MakeConstant(Str(s));
          var _ :- EmitBytecode(Instr(ConstNum, r, i), OwnOf(d) + outer);
          IsKept(e, d, c0, outer);
        case NumK(n) =>
          var i :- MakeConstant(Num(n));
          var _ :- EmitBytecode(Instr(ConstNum, r, i), OwnOf(d) + outer);
          IsKept(e, d, c0, outer);
        case RelocK(pos) =>
          RelocAt(d, outer, upvals);
          PutThreaded(code, st.code, pos, code[pos].(a := r));
          code := code[pos := code[pos].(a := r)];
          st := st.(code := Put(st.code, pos, CodeGen.At(st.code, pos).(a := r)));
          PutSame(c0, pos, code[pos], old(st).code, OwnOf(d) + outer);
          IsKept(e, d, c0, outer);
          ChainNone(pendingJumpList, old(st).pending, c0);
        case NonRelocK(r') =>
          if r' != r {
            var _ :- EmitBytecode(Instr(Mov, r, r'), OwnOf(d) + outer);
            IsKept(e, d, c0, outer);
          }
      }
      return Ok(e.(kind := NonRelocK(r)));
    }

    lemma ChainNone(head: int, list: seq<nat>, c0: seq<Instr>)
      requires Chain(c0, head, list) && list == []
      ensures Chain(code, head, [])
    {
    }

    /** The relocatable instruction is the last one, and no jump is pending. */
    lemma RelocAt(d: Desc, outer: multiset<nat>, upvals: nat)
      requires Rep() && Described(st, d, outer, upvals) && d.kind.RelocK?
      ensures d.kind.pos == |code| - 1 && code[d.kind.pos] == st.code[d.kind.pos] && st.pending == []
      ensures IsValueOp(code[d.kind.pos].op) && !Open(st.code, d.kind.pos)
      ensures Tidy(st.code, OwnOf(d) + outer)
    {
      assert OwnOf(d) + outer == Lists(st, d) + outer;
      assert ThreadAt(code, st.code, d.kind.pos);
    }

    /** exprToRegNoBranch. */
    method ExprToRegNoBranch(e: Exp, r: Reg, ghost d: Desc, ghost outer: multiset<nat>, ghost upvals: nat)
        returns (res: Result<Exp>)
      requires Rep() && Is(e, d) && Described(st, d, outer, upvals)
      modifies `code, `consts, `pendingJumpList, `st
      ensures Alike(res, ToRegNoBranch(old(st), d, r))
      ensures res.Ok? ==> Did(ToRegNoBranch(old(st), d, r), res.value, old(code), outer)
      ensures res.Ok? ==> res.value == e.(kind := res.value.kind)
    {
      hide Emit, Described, Discharge, Place;
      ghost var st0 := st;
      var e1 :- ExprDischarge(e, d, outer, upvals);
      DischargeShape(st0, d, outer, upvals);
      ghost var d1, c1 := Discharge(st0, d).value.1, code;
      var e2 :- PlaceInReg(e1, r, d1, outer, upvals);
      SameTrans(old(code), c1, code, outer);
      return Ok(e2);
    }

    /** The two loads in exprToReg, and where they are. */
    method EmitLoads(r: Reg, ghost own: multiset<nat>) returns (res: Result<(nat, nat)>)
      requires Rep() && Sound(st, |st.code|, multiset(st.pending) + own) && st.code != [] && r < NO_REG
      modifies `code, `pendingJumpList, `st
      ensures Alike(res, Loads(old(st), r))
      ensures res.Ok? ==> Loads(old(st), r) == Ok(st) && Rep() && Same(old(code), code, own)
                          && |code| >= 3 && res.value == (|code| - 3, |code| - 1)
    {
      hide Emit, CodeGen.EmitJump, Tidy, InRange, Bounded;
      ghost var st0, c0 := st, code;
      var over :- EmitJump(own);
      EmitJumpShape(st0, own);
      ghost var list, lists := CodeGen.EmitJump(st0).value.1, multiset(CodeGen.EmitJump(st0).value.1) + own;
      ghost var c1, a1 := code, st.code;
      LoadsTidy(st.code, r, nextReg, lists);
      assert multiset(st.pending) + lists == lists;
      EmitOk(st, Instr(Primitive, r, 2));
      var f := EmitBytecode(Instr(Primitive, r, 2), lists);
      ghost var c2 := code;
      EmitOk(st, InstrAJ(Jump, nextReg, 1));
      var j := EmitBytecode(InstrAJ(Jump, nextReg, 1), lists);
      ghost var c3 := code;
      EmitOk(st, Instr(Primitive, r, 1));
      var t := EmitBytecode(Instr(Primitive, r, 1), lists);
      SameTrans(c1, c2, c3, lists);
      SameTrans(c1, c3, code, lists);
      ChainKept(c1, code, over, list, lists);
      ghost var c4 := code;
      var here := JumpToHere(over, list, own);
      SameSub(c1, c4, lists, own);
      SameTrans(c0, c1, c4, own);
      SameTrans(c0, c4, code, own);
      return Ok((f.value, t.value));
    }

    /** The first half of resolving jumps in exprToReg: where those without a value go. */
    method OtherTargets(e: Exp, r: Reg, ghost d: Desc, ghost outer: multiset<nat>, ghost upvals: nat)
        returns (res: Result<(int, int)>)
      requires Rep() && Is(e, d) && Described(st, d, outer, upvals)
      requires d.kind == NonRelocK(r) && HasJump(d) && r < maxReg
      modifies `code, `pendingJumpList, `st
      ensures var noValue := CodeGen.NoValue(old(st).code, d.tj) || CodeGen.NoValue(old(st).code, d.fj);
        && (if noValue then Alike(res, Loads(old(st), r)) else res.Ok?)
        && (res.Ok? ==>
              && Rep() && Is(e, d) && Same(old(code), code, outer)
              && (if noValue then
                  Loads(old(st), r) == Ok(st) && |st.code| >= 3 && res.value == (|st.code| - 3, |st.code| - 1)
                  else st == old(st) && res.value == (NO_JUMP, NO_JUMP))
              && Tidy(st.code, multiset(d.fj) + (multiset(d.tj) + (multiset(st.pending) + outer)))
              && !Open(st.code, res.value.0) && !Open(st.code, res.value.1))
    {
      hide Loads, Described, CodeGen.NoValue, Tidy, Sound, AllOpen, WfCode, Same, Threaded;
      ghost var c0 := code;
      RepLen();
      ListsOpen(d, outer, upvals);
      var noValue := JumpNoValue(e.trueJump, d.tj);
      if !noValue {
        noValue := JumpNoValue(e.falseJump, d.fj);
      }
      if noValue {
        DescribedParts(st, d, outer, upvals);
        HasOpen(st.code, d, Lists(st, d) + outer) by { DescribedTidy(st, d, outer, upvals); }
        LoadsShape'(d, r, outer, upvals);
        var loads :- EmitLoads(r, OwnOf(d) + outer);
        IsKept(e, d, c0, outer);
        RepLen();
        return Ok(loads);
      }
      SameRefl(c0, st.code, multiset(st.pending) + (OwnOf(d) + outer), outer);
      return Ok((NO_JUMP, NO_JUMP));
    }

    /** The patching of both lists in exprToReg. */
    method ResolveJumps(e: Exp, r: Reg, ghost d: Desc, ghost outer: multiset<nat>, ghost upvals: nat)
        returns (res: Result<()>)
      requires Rep() && Is(e, d) && Described(st, d, outer, upvals)
      requires d.kind == NonRelocK(r) && HasJump(d) && r < maxReg
      modifies `code, `pendingJumpList, `st
      ensures Alike(res, Resolve(old(st), d, r))
      ensures res.Ok? ==> Resolve(old(st), d, r) == Ok(st) && Rep() && Same(old(code), code, outer)
    {
      hide Loads, PatchBoth, Resolve, Described, CodeGen.NoValue, Tidy, Same, Threaded;
      ghost var st0, c0 := st, code;
      ghost var noValue := CodeGen.NoValue(st0.code, d.tj) || CodeGen.NoValue(st0.code, d.fj);
      if noValue {
        ResolveNeedsLoads(st, d, r);
      }
      DescribedParts(st, d, outer, upvals);
      var targets :- OtherTargets(e, r, d, outer, upvals);
      ghost var c1 := code;
      RepLen();
      ResolveIs(st0, d, r, noValue, st);
      res := PatchLists(e, r, targets.0, targets.1, d, multiset(st.pending) + outer);
      if res.Ok? {
        SameSub(c1, code, multiset(st.pending) + outer, outer);
        SameTrans(c0, c1, code, outer);
        ChainKept(c1, code, pendingJumpList, st.pending, multiset(st.pending) + outer);
      }
    }

    lemma RepLen()
      requires Rep()
      ensures |code| == |st.code|
    {
    }

    lemma ListsOpen(d: Desc, outer: multiset<nat>, upvals: nat)
      requires Described(st, d, outer, upvals)
      ensures AllOpen(st.code, d.tj) && AllOpen(st.code, d.fj) && WfCode(st.code) && !Open(st.code, |st.code|)
      ensures Tidy(st.code, multiset(st.pending) + (OwnOf(d) + outer))
      ensures Tidy(st.code, multiset(d.fj) + (multiset(d.tj) + (multiset(st.pending) + outer)))
      ensures d.kind.NonRelocK? ==> d.kind.r < NO_REG
    {
      var lists := Lists(st, d) + outer;
      Regrouped(d, outer, upvals);
      assert multiset(d.fj) + (multiset(d.tj) + (multiset(st.pending) + outer)) == lists;
      ListIsOpen(st.code, d.tj, lists);
      ListIsOpen(st.code, d.fj, lists);
    }

    lemma LoadsShape'(d: Desc, r: Reg, outer: multiset<nat>, upvals: nat)
      requires Described(st, d, outer, upvals) && d.kind == NonRelocK(r) && HasJump(d) && r < st.maxReg
      ensures Loads(st, r).Ok? ==>
                var st1 := Loads(st, r).value;
                && |st1.code| >= 3
                && Tidy(st1.code, multiset(d.fj) + (multiset(d.tj) + (multiset(st1.pending) + outer)))
                && !Open(st1.code, |st1.code| - 3) && !Open(st1.code, |st1.code| - 1)
    {
      hide Loads, Tidy, Described;
      if Loads(st, r).Ok? {
        LoadsShape(st, d, r, outer, upvals);
        var st1 := Loads(st, r).value;
        SoundTidy(st1, |st1.code|, Lists(st1, d) + outer);
        assert multiset(d.fj) + (multiset(d.tj) + (multiset(st1.pending) + outer)) == Lists(st1, d) + outer;
      }
    }

    /** The false list, then the true list, to the end of the code. */
    method PatchLists(e: Exp, r: Reg, jumpFalse: int, jumpTrue: int, ghost d: Desc, ghost outer: multiset<nat>)
        returns (res: Result<()>)
      requires Threaded(code, st.code) && Chain(code, e.trueJump, d.tj) && Chain(code, e.falseJump, d.fj)
      requires Tidy(st.code, multiset(d.fj) + (multiset(d.tj) + outer)) && r != NO_REG
      requires NO_JUMP <= jumpFalse <= |code| && NO_JUMP <= jumpTrue <= |code|
      requires !Open(st.code, jumpFalse) && !Open(st.code, jumpTrue)
      requires jumpFalse == NO_JUMP || jumpTrue == NO_JUMP ==>
                 && !CodeGen.NoValue(st.code, d.tj) && !CodeGen.NoValue(st.code, d.fj)
                 && jumpFalse == NO_JUMP && jumpTrue == NO_JUMP
      modifies `code, `st
      ensures var end: nat := |old(code)|;
        var r := PatchBoth(old(st.code), d, end, r, if jumpFalse == NO_JUMP then end else jumpFalse,
            if jumpTrue == NO_JUMP then end else jumpTrue);
        && Alike(res, r)
        && (res.Ok? ==> st == old(st).(code := r.value) && Threaded(code, st.code) && Same(old(code), code, outer))
    {
      hide PatchList, CodeGen.NoValue;
      ghost var c0, a0, lists := code, st.code, multiset(d.tj) + outer;
      var end := |code|;
      ghost var f: nat := if jumpFalse == NO_JUMP then end else jumpFalse;
      OuterOpen(a0, d.fj, lists);
      ListIsOpen(a0, d.tj, multiset(d.fj) + lists);
      assert !Open(a0, end);
      var _ :- PatchValue(e.falseJump, end, r, jumpFalse, d.fj);
      ghost var c1, a1 := code, st.code;
      PatchListTidy(a0, d.fj, end, r, f, multiset(d.fj) + lists);
      assert multiset(d.fj) + lists - multiset(d.fj) == lists;
      PatchListKept(a0, d.fj, end, r, f);
      PatchListCloses(a0, d.fj, end, r, f);
      SameOthers(c0, c1, a0, d.fj, lists);
      ChainKept(c0, c1, e.trueJump, d.tj, lists);
      OuterOpen(a1, d.tj, outer);
      NoValueKept(a0, a1, d.tj);
      var _ :- PatchValue(e.trueJump, end, r, jumpTrue, d.tj);
      SameOthers(c1, code, a1, d.tj, outer);
      SameSub(c0, c1, lists, outer);
      SameTrans(c0, c1, code, outer);
      return Ok(());
    }

    /** exprToReg. */
    method ExprToReg(e: Exp, r: Reg, ghost d: Desc, ghost outer: multiset<nat>, ghost upvals: nat)
        returns (res: Result<Exp>)
      requires Rep() && Is(e, d) && Described(st, d, outer, upvals) && r < NO_REG && r < maxReg
      modifies `code, `consts, `pendingJumpList, `st
      ensures Alike(res, ToReg(old(st), d, r))
      ensures res.Ok? ==> Did(ToReg(old(st), d, r), res.value, old(code), outer)
    {
      hide Emit, Described, ToRegNoBranch, Resolve;
      ghost var st0, c0 := st, code;
      var e1 :- ExprToRegNoBranch(e, r, d, outer, upvals);
      ToRegNoBranchShape(st0, d, r, outer, upvals);
      ghost var d1, c1 := ToRegNoBranch(st0, d, r).value.1, code;
      HasJumpHeads(e1, d1, outer, upvals);
      if e1.trueJump != e1.falseJump {
        var _ :- ResolveJumps(e1, r, d1, outer, upvals);
        SameTrans(c0, c1, code, outer);
      }
      return Ok(Exp(NonRelocK(r), NO_JUMP, NO_JUMP));
    }

    /** exprNextReg. */
    method ExprNextReg(e: Exp, ghost d: Desc, ghost outer: multiset<nat>, ghost upvals: nat) returns (res: Result<Exp>)
      requires Rep() && Is(e, d) && Described(st, d, outer, upvals) && nextReg <= 253
      requires d.kind.LocalK? || d.kind.NonRelocK? ==> d.kind.r < actVar && nextReg != 0
      modifies `code, `consts, `nextReg, `maxReg, `pendingJumpList, `st
      ensures Alike(res, NextReg(old(st), d))
      ensures res.Ok? ==> Did(NextReg(old(st), d), res.value, old(code), outer)
    {
      hide Emit, Described, Discharge, ToReg;
      ghost var st0, c0 := st, code;
      var e1 :- ExprDischarge(e, d, outer, upvals);
      DischargeShape(st0, d, outer, upvals);
      ghost var d1, c1 := Discharge(st0, d).value.1, code;
      ExprFree(e1, d1);
      RegReserve();
      ReserveShape(Discharge(st0, d).value.0, d1, outer, upvals);
      assert st == CodeGen.RegReserve(Discharge(st0, d).value.0);
      var e2 :- ExprToReg(e1, nextReg - 1, d1, outer, upvals);
      SameTrans(c0, c1, code, outer);
      return Ok(e2);
    }

    /** exprAnyReg. */
    method ExprAnyReg(e: Exp, ghost d: Desc, ghost outer: multiset<nat>, ghost upvals: nat) returns (res: Result<Exp>)
      requires Rep() && Is(e, d) && Described(st, d, outer, upvals) && Movable(st, d)
      requires nextReg <= 253 || (d.kind.NonRelocK? && !HasJump(d))
      modifies `code, `consts, `nextReg, `maxReg, `pendingJumpList, `st
      ensures Alike(res, AnyReg(old(st), d))
      ensures res.Ok? ==> Did(AnyReg(old(st), d), res.value, old(code), outer)
    {
      hide Emit, Described, Discharge, ToReg, NextReg;
      ghost var st0, c0 := st, code;
      var e1 :- ExprDischarge(e, d, outer, upvals);
      DischargeShape(st0, d, outer, upvals);
      ghost var d1, c1 := Discharge(st0, d).value.1, code;
      if d.kind.NonRelocK? {
        DischargeHere(st0, d);
      }
      HasJumpHeads(e1, d1, outer, upvals);
      if e1.kind.NonRelocK? {
        if e1.trueJump == e1.falseJump {
          return Ok(e1);
        }
        if e1.kind.r >= actVar {
          assert false;
        }
      }
      var e2 :- ExprNextReg(e1, d1, outer, upvals);
      SameTrans(c0, c1, code, outer);
      return Ok(e2);
    }

    /** expr_toval. */
    method ExprToVal(e: Exp, ghost d: Desc, ghost outer: multiset<nat>, ghost upvals: nat) returns (res: Result<Exp>)
      requires Rep() && Is(e, d) && Described(st, d, outer, upvals) && Movable(st, d)
      requires nextReg <= 253 || (d.kind.NonRelocK? && !HasJump(d))
      modifies `code, `consts, `nextReg, `maxReg, `pendingJumpList, `st
      ensures Alike(res, ToVal(old(st), d))
      ensures res.Ok? ==> Did(ToVal(old(st), d), res.value, old(code), outer)
    {
      hide Emit, Described, Discharge, AnyReg;
      HasJumpHeads(e, d, outer, upvals);
      if e.trueJump != e.falseJump {
        res := ExprAnyReg(e, d, outer, upvals);
      } else {
        res := ExprDischarge(e, d, outer, upvals);
      }
    }

    // ----- branches -----

    /** emit_branch. */
    method EmitBranch(e: Exp, cond: bool, ghost d: Desc, ghost outer: multiset<nat>, ghost upvals: nat)
        returns (res: Result<int>)
      requires Rep() && Is(e, d) && Described(st, d, outer, upvals) && nextReg <= 253
      requires !d.kind.LocalK? && !d.kind.GlobalK? && !d.kind.UpvalK?
      requires d.kind.NonRelocK? ==> d.kind.r < actVar && nextReg != 0
      modifies `code, `consts, `nextReg, `maxReg, `pendingJumpList, `st
      ensures Alike(res, Branch(old(st), d, cond))
      ensures res.Ok? ==>
                && Branch(old(st), d, cond).value.0 == st && Rep() && Same(old(code), code, outer)
                && Chain(code, res.value, Branch(old(st), d, cond).value.1)
                && Chain(code, e.trueJump, d.tj) && Chain(code, e.falseJump, d.fj)
    {
      hide Emit, CodeGen.EmitJump, CodeGen.BranchOperand, Described, Tidy, Branch, CodeGen.ExprFree;
      ghost var st0, c0 := st, code;
      BranchCases(st, d, cond);
      if e.kind.RelocK? {
        RelocAt(d, outer, upvals);
        if code[e.kind.pos].op == Not {
          res := BranchOnNot(e, cond, d, outer, upvals);
          return;
        }
      }
      var e1 :- BranchOperand(e, d, outer, upvals);
      BranchOperandShape(st0, d, outer, upvals);
      BranchOperandActVar(st0, d);
      ghost var d1, c1 := CodeGen.BranchOperand(st0, d).value.1, code;
      var pc :- EmitTest(e1, cond, d1, outer, upvals);
      ExprFree(e1, d1);
      SameTrans(c0, c1, code, outer);
      return Ok(pc);
    }

    /** An OP_NOT that was to be tested becomes the test. */
    method BranchOnNot(e: Exp, cond: bool, ghost d: Desc, ghost outer: multiset<nat>, ghost upvals: nat)
        returns (res: Result<int>)
      requires Rep() && Is(e, d) && Described(st, d, outer, upvals)
      requires e.kind.RelocK? && CodeGen.At(st.code, e.kind.pos).op == Not
      modifies `code, `pendingJumpList, `st
      ensures var i := CodeGen.At(old(st).code, d.kind.pos);
        var r := CodeGen.EmitJump(old(st).(code := Put(old(st).code, d.kind.pos, Instr(JumpIf(!cond), 0, i.d))));
        && Alike(res, r)
        && (res.Ok? ==> r.value.0 == st && Rep() && Same(old(code), code, outer) && Chain(code, res.value, r.value.1))
      ensures res.Ok? ==> Chain(code, e.trueJump, d.tj) && Chain(code, e.falseJump, d.fj)
    {
      hide Emit, CodeGen.EmitJump, Described, Tidy;
      ghost var st0, c0, own := st, code, OwnOf(d) + outer;
      RelocAt(d, outer, upvals);
      var pos := e.kind.pos;
      var test := Instr(JumpIf(!cond), 0, code[pos].d);
      NotTidy(st, d, cond, outer, upvals);
      PutThreaded(code, st.code, pos, test);
      code := code[pos := test];
      st := st.(code := Put(st.code, pos, test));
      PutSame(c0, pos, test, st0.code, own);
      ChainNone(pendingJumpList, st0.pending, c0);
      ghost var c1 := code;
      assert multiset(st.pending) + own == own;
      res := EmitJump(own);
      if res.Ok? {
        SameTrans(c0, c1, code, own);
        IsKept(e, d, c0, outer);
      }
    }

    /** A test without destination, and its jump. */
    method EmitTest(e: Exp, cond: bool, ghost d: Desc, ghost outer: multiset<nat>, ghost upvals: nat)
        returns (res: Result<int>)
      requires Rep() && Is(e, d) && Described(st, d, outer, upvals) && d.kind.NonRelocK?
      modifies `code, `pendingJumpList, `st
      ensures var t := Emit(old(st), Instr(CopyJumpIf(cond), NO_REG, d.kind.r));
        && (t.Err? ==> res == Err(t.msg))
        && (t.Ok? ==>
              && Alike(res, CodeGen.EmitJump(t.value))
              && (res.Ok? ==>
                    && CodeGen.EmitJump(t.value).value.0 == st && Rep() && Same(old(code), code, outer)
                    && Chain(code, res.value, CodeGen.EmitJump(t.value).value.1)
                    && st == old(st).(code := st.code, pending := [])))
      ensures res.Ok? ==> Chain(code, e.trueJump, d.tj) && Chain(code, e.falseJump, d.fj)
    {
      hide Emit, CodeGen.EmitJump, Described, Tidy;
      ghost var st0, c0, own := st, code, OwnOf(d) + outer;
      Regrouped(d, outer, upvals);
      var test := Instr(CopyJumpIf(cond), NO_REG, e.kind.r);
      var _ :- EmitBytecode(test, own);
      ghost var c1 := code;
      TestTidy(st0, d, test, outer, upvals);
      EmitKeepsRegs(st0, test);
      assert multiset(st.pending) + own == own;
      ghost var st1 := st;
      res := EmitJump(own);
      if res.Ok? {
        EmitJumpKeepsRegs(st1);
        SameTrans(c0, c1, code, own);
        IsKept(e, d, c0, outer);
      }
    }

    /** The operand of a test goes to a register, its jumps stay. */
    method BranchOperand(e: Exp, ghost d: Desc, ghost outer: multiset<nat>, ghost upvals: nat)
        returns (res: Result<Exp>)
      requires Rep() && Is(e, d) && Described(st, d, outer, upvals) && nextReg <= 253
      modifies `code, `consts, `nextReg, `maxReg, `pendingJumpList, `st
      ensures Alike(res, CodeGen.BranchOperand(old(st), d))
      ensures res.Ok? ==> Did(CodeGen.BranchOperand(old(st), d), res.value, old(code), outer)
      ensures res.Ok? ==> res.value == e.(kind := res.value.kind) && res.value.kind.NonRelocK?
      ensures res.Ok? ==> OwnOf(CodeGen.BranchOperand(old(st), d).value.1) == OwnOf(d)
    {
      hide Emit, Described, Discharge, Place;
      Regrouped(d, outer, upvals);
      SameRefl(code, st.code, multiset(st.pending) + (OwnOf(d) + outer), outer);
      if e.kind.NonRelocK? {
        return Ok(e);
      }
      ReserveShape(st, d, outer, upvals);
      RegReserve();
      ghost var st1 := st;
      var e1 :- ExprToRegNoBranch(e, nextReg - 1, d, outer, upvals);
      ToRegNoBranchLists(st1, d, st1.nextReg - 1);
      return Ok(e1);
    }

    /** jump_append among other lists. */
    method AppendAmong(head1: int, head2: int, ghost l1: seq<nat>, ghost l2: seq<nat>, ghost outer: multiset<nat>)
        returns (res: Result<int>)
      requires Threaded(code, st.code) && Chain(code, head1, l1) && Chain(code, head2, l2)
      requires Tidy(st.code, multiset(l1 + l2) + outer)
      modifies `code
      ensures Alike(res, Append(l1, l2))
      ensures res.Ok? ==> Append(l1, l2) == Ok(l1 + l2) && Threaded(code, st.code) && Chain(code, res.value, l1 + l2)
                          && Same(old(code), code, outer)
    {
      OuterOpen(st.code, l1 + l2, outer);
      res := JumpAppend(head1, head2, l1, l2);
      if res.Ok? {
        forall j: nat | j in outer ensures SameAt(old(code), code, j) {
          assert Open(st.code, j) && j !in l1 + l2;
        }
      }
    }

    /** emit_branch_true (truth) and emit_branch_false: the list by which control leaves. */
    method EmitBranchOn(e: Exp, truth: bool, ghost d: Desc, ghost outer: multiset<nat>, ghost upvals: nat)
        returns (res: Result<int>)
      requires Rep() && Is(e, d) && Described(st, d, outer, upvals) && nextReg <= 253
      requires d.kind.LocalK? || d.kind.NonRelocK? ==> d.kind.r < actVar && nextReg != 0
      modifies `code, `consts, `nextReg, `maxReg, `pendingJumpList, `st
      ensures Alike(res, BranchOn(old(st), d, truth))
      ensures res.Ok? ==>
                && BranchOn(old(st), d, truth).value.0 == st && Rep() && Same(old(code), code, outer)
                && Chain(code, res.value, BranchOn(old(st), d, truth).value.1)
    {
      hide Emit, Discharge, Branch, Described, Tidy, Grows, Sound, Same;
      hide Threaded, Fetchable, KindOk, Stop, Within, Next, RegsOk, Lists;
      hide Later, Kept, Quiet, Is, Open;
      ghost var st0, c0 := st, code;
      var e1 :- ExprDischarge(e, d, outer, upvals);
      DischargeShape(st0, d, outer, upvals);
      ghost var st1, d1, c1 := st, Discharge(st0, d).value.1, code;
      var pc :- EmitBranch(e1, !truth, d1, outer, upvals);
      BranchShape(st1, d1, !truth, outer, upvals);
      ghost var list, c2 := Branch(st1, d1, !truth).value.1, code;
      ghost var stay, away := if truth then d1.tj else d1.fj, if truth then d1.fj else d1.tj;
      ghost var lists := multiset(list) + (multiset(d1.tj) + multiset(d1.fj) + outer);
      SoundTidy(st, |st.code|, lists);
      assert lists == multiset(away + list) + (multiset(stay) + outer);
      assert lists == multiset(st.pending) + (multiset(stay) + (multiset(away + list) + outer));
      var leave :- AppendAmong(if truth then e1.falseJump else e1.trueJump, pc, away, list, multiset(stay) + outer);
      ghost var c3 := code;
      ChainKept(c2, c3, if truth then e1.trueJump else e1.falseJump, stay, multiset(stay) + outer);
      var _ := JumpToHere(if truth then e1.trueJump else e1.falseJump, stay, multiset(away + list) + outer);
      ChainKept(c3, code, leave, away + list, multiset(away + list) + outer);
      SameSub(c2, c3, multiset(stay) + outer, outer);
      SameSub(c3, code, multiset(away + list) + outer, outer);
      SameTrans(c2, c3, code, outer);
      SameTrans(c1, c2, code, outer);
      SameTrans(c0, c1, code, outer);
      return Ok(leave);
    }

    // ----- operators -----

    /** What emit_arith and emit_comp do instead of regFree. */
    method Release(e: Exp, ghost d: Desc)
      requires Rep() && e.kind == d.kind
      modifies `nextReg, `st
      ensures Rep() && st == CodeGen.Release(old(st), d)
    {
      if e.kind.NonRelocK? && e.kind.r >= actVar {
        nextReg := Cast8(nextReg - 1);
        st := st.(nextReg := nextReg);
      }
    }

    /** expr_toval and exprAnyReg. */
    method Operand(e: Exp, ghost d: Desc, ghost outer: multiset<nat>, ghost upvals: nat) returns (res: Result<Exp>)
      requires Rep() && Is(e, d) && Described(st, d, outer, upvals) && Usable(st, d)
      requires nextReg <= 253 && (d.kind.LocalK? || d.kind.NonRelocK? ==> nextReg != 0)
      modifies `code, `consts, `nextReg, `maxReg, `pendingJumpList, `st
      ensures Alike(res, CodeGen.Operand(old(st), d))
      ensures res.Ok? ==> Did(CodeGen.Operand(old(st), d), res.value, old(code), outer)
    {
      hide Emit, Described, AnyReg, ToVal, Grows;
      ghost var st0, c0 := st, code;
      var e1 :- ExprToVal(e, d, outer, upvals);
      ToValShape(st0, d, outer, upvals, 0);
      ghost var d1, c1 := ToVal(st0, d).value.1, code;
      DescribedRegs(st, d1, outer, upvals);
      var e2 :- ExprAnyReg(e1, d1, outer, upvals);
      SameTrans(c0, c1, code, outer);
      return Ok(e2);
    }

    /** The left operand is in its register already: expr_toval and exprAnyReg leave it there. */
    method LeftOperand(e: Exp, ghost d: Desc, ghost outer: multiset<nat>, ghost upvals: nat) returns (r: Reg)
      requires Rep() && Is(e, d) && d.kind.NonRelocK? && !HasJump(d)
      ensures r == RegOf(d) && CodeGen.Operand(st, d) == Ok((st, d))
    {
      HereStays(st, d);
      assert e.trueJump == e.falseJump;
      r := e.kind.r;
    }

    /** emit_comp. */
    method EmitComp(op: CompOp, e1: Exp, e2: Exp, ghost d1: Desc, ghost d2: Desc, ghost outer: multiset<nat>,
                    ghost upvals: nat)
        returns (res: Result<Exp>)
      requires Rep() && Is(e1, d1) && Is(e2, d2) && Described(st, d2, outer, upvals) && LeftOk(st, d1) && nextReg <= 253
      requires d2.kind.LocalK? || d2.kind.NonRelocK? ==> d2.kind.r < actVar && nextReg != 0
      modifies `code, `consts, `nextReg, `maxReg, `pendingJumpList, `st
      ensures Alike(res, CodeGen.EmitComp(old(st), op, d1, d2))
      ensures res.Ok? ==> Did(CodeGen.EmitComp(old(st), op, d1, d2), res.value, old(code), outer)
    {
      hide Emit, Described, CodeGen.Operand, Grows, CodeGen.EmitComp;
      ghost var st0, c0 := st, code;
      CompCases(st, op, d1, d2);
      var rb := LeftOperand(e1, d1, outer, upvals);
      var f2 :- Operand(e2, d2, outer, upvals);
      OperandShape(st0, d2, outer, upvals, 0);
      ghost var st1, g2, c1 := st, CodeGen.Operand(st0, d2).value.1, code;
      Release(e1, d1);
      Release(f2, g2);
      ReleasedTidy(st1, g2, st, outer, upvals);
      var pos :- EmitBytecode(InstrABC(Comp(op), 0, rb, f2.kind.r), outer);
      SameTrans(c0, c1, code, outer);
      return Ok(Exp(RelocK(pos), NO_JUMP, NO_JUMP));
    }

    /** emit_arith: the right operand comes first, and a small constant stays one. */
    method EmitArith(op: ArithOp, e1: Exp, e2: Exp, ghost d1: Desc, ghost d2: Desc, ghost outer: multiset<nat>,
                     ghost upvals: nat)
        returns (res: Result<Exp>)
      requires Rep() && Is(e1, d1) && Is(e2, d2) && Described(st, d2, outer, upvals) && LeftOk(st, d1) && nextReg <= 253
      requires d2.kind.LocalK? || d2.kind.NonRelocK? ==> d2.kind.r < actVar && nextReg != 0
      modifies `code, `consts, `nextReg, `maxReg, `pendingJumpList, `st
      ensures Alike(res, CodeGen.EmitArith(old(st), op, d1, d2))
      ensures res.Ok? ==> Did(CodeGen.EmitArith(old(st), op, d1, d2), res.value, old(code), outer)
    {
      hide Emit, Described, CodeGen.ArithOperand, Grows, CodeGen.EmitArith;
      ghost var st0, c0 := st, code;
      ArithCases(st, op, d1, d2);
      var right :- ArithOperand(e2, d2, outer, upvals);
      var (f2, vk, rc) := right;
      ArithOperandShape(st0, d2, outer, upvals, 0);
      ghost var o, c1 := CodeGen.ArithOperand(st0, d2).value, code;
      var rb := LeftOperand(Exp(e1.kind, NO_JUMP, NO_JUMP), d1, outer, upvals);
      Release(e1, d1);
      Release(f2, o.d);
      ReleasedTidy(o.st, o.d, st, outer, upvals);
      var pos :- EmitBytecode(InstrABC(if vk then ArithVK(op) else ArithVV(op), 0, rb, rc), outer);
      SameTrans(c0, c1, code, outer);
      return Ok(Exp(RelocK(pos), NO_JUMP, NO_JUMP));
    }

    method ArithOperand(e: Exp, ghost d: Desc, ghost outer: multiset<nat>, ghost upvals: nat)
        returns (res: Result<(Exp, bool, Reg)>)
      requires Rep() && Is(e, d) && Described(st, d, outer, upvals) && Usable(st, d)
      requires nextReg <= 253 && (d.kind.LocalK? || d.kind.NonRelocK? ==> nextReg != 0)
      modifies `code, `consts, `nextReg, `maxReg, `pendingJumpList, `st
      ensures Alike(res, CodeGen.ArithOperand(old(st), d))
      ensures res.Ok? ==>
                var o := CodeGen.ArithOperand(old(st), d).value;
                && st == o.st && Rep() && Is(res.value.0, o.d) && Same(old(code), code, outer)
                && res.value.1 == o.vk && res.value.2 == o.rc
    {
      hide Emit, Described, AnyReg, ToVal, Grows;
      ghost var st0, c0 := st, code;
      var e1 :- ExprToVal(e, d, outer, upvals);
      ToValShape(st0, d, outer, upvals, 0);
      ghost var d1, c1 := ToVal(st0, d).value.1, code;
      DescribedRegs(st, d1, outer, upvals);
      if e1.kind.NumK? || e1.kind.TextK? {
        var v := if e1.kind.NumK? then Num(e1.kind.n) else Str(e1.kind.s);
        AddConstShape(st, d1, v, outer, upvals);
        var i := AddConstant(v);
        if i <= 0xff {
          return Ok((e1, true, i));
        }
      }
      var e2 :- ExprAnyReg(e1, d1, outer, upvals);
      SameTrans(c0, c1, code, outer);
      return Ok((e2, false, if e2.kind.NonRelocK? then e2.kind.r else 0));
    }

    /** The operator case of `unary`; exprInit takes the position as a uint16_t. */
    method EmitUnary(op: Op, e: Exp, ghost d: Desc, ghost outer: multiset<nat>, ghost upvals: nat)
        returns (res: Result<Exp>)
      requires Rep() && Is(e, d) && Described(st, d, outer, upvals) && nextReg <= 253 && Usable(st, d)
      requires d.kind.LocalK? || d.kind.NonRelocK? ==> nextReg != 0
      modifies `code, `consts, `nextReg, `maxReg, `pendingJumpList, `st
      ensures Alike(res, CodeGen.EmitUnary(old(st), op, d))
      ensures res.Ok? ==> Did(CodeGen.EmitUnary(old(st), op, d), res.value, old(code), outer)
    {
      hide Emit, Described, AnyReg, Grows;
      ghost var st0, c0 := st, code;
      var e1 :- ExprAnyReg(e, d, outer, upvals);
      AnyRegShape(st0, d, outer, upvals, 0);
      ghost var st1, d1, c1 := st, AnyReg(st0, d).value.1, code;
      DescribedRegs(st, d1, outer, upvals);
      ExprFree(e1, d1);
      ReleasedTidy(st1, d1, st, outer, upvals);
      var pos :- EmitBytecode(Instr(op, 0, e1.kind.r), outer);
      SameTrans(c0, c1, code, outer);
      return Ok(Exp(RelocK(Cast16(pos)), NO_JUMP, NO_JUMP));
    }

    // ----- whole expressions -----

    /** What `binary` finds when it starts on e. */
    ghost predicate Ready(e: Expr, locals: nat, outer: multiset<nat>, upvals: nat)
      reads this
    {
      && Rep() && Sound(st, |st.code|, multiset(st.pending) + outer)
      && WfExpr(e, locals, upvals) && locals <= actVar
      && locals <= nextReg && Level(st) + Need(e) <= 254 && Short(st, e)
    }

    /** `binary`, on the tree it parses. */
    method Binary(e: Expr, ghost locals: nat, ghost outer: multiset<nat>, ghost upvals: nat) returns (res: Result<Exp>)
      requires Ready(e, locals, outer, upvals)
      modifies `code, `consts, `nextReg, `maxReg, `pendingJumpList, `st
      ensures Alike(res, Compile(old(st), e))
      ensures res.Ok? ==> Did(Compile(old(st), e), res.value, old(code), outer)
      decreases e, 1
    {
      hide Described, Grows, Sound, CodeGen.EmitUnary, CodeGen.EmitArith, CodeGen.EmitComp, AnyReg, BranchOn, Discharge;
      OuterSame(outer);
      match e {
        case Prim(p) => return Ok(Exp(PrimK(p), NO_JUMP, NO_JUMP));
        case Number(n) => return Ok(Exp(NumK(n), NO_JUMP, NO_JUMP));
        case Text(s) => return Ok(Exp(TextK(s), NO_JUMP, NO_JUMP));
        case Local(x) => return Ok(Exp(LocalK(x), NO_JUMP, NO_JUMP));
        case Upval(u) => return Ok(Exp(UpvalK(u), NO_JUMP, NO_JUMP));
        case Global(name) =>
          var k :- MakeConstant(Str(name));
          return Ok(Exp(GlobalK(k), NO_JUMP, NO_JUMP));
        case Minus(e1) => res := Unary(Negate, e, e1, locals, outer, upvals);
        case Bang(e1) => res := Unary(Not, e, e1, locals, outer, upvals);
        case Arith(_, l, r) => res := Operator(e, l, r, locals, outer, upvals);
        case Compare(_, l, r) => res := Operator(e, l, r, locals, outer, upvals);
        case And(l, r) => res := Connective(l, r, true, locals, outer, upvals);
        case Or(l, r) => res := Connective(l, r, false, locals, outer, upvals);
      }
    }

    lemma OuterSame(outer: multiset<nat>)
      requires Rep() && Sound(st, |st.code|, multiset(st.pending) + outer)
      ensures Same(code, code, outer)
    {
      SameRefl(code, st.code, multiset(st.pending) + outer, outer);
    }

    /** `unary`. */
    method Unary(op: Op, ghost e: Expr, e1: Expr, ghost locals: nat, ghost outer: multiset<nat>, ghost upvals: nat)
        returns (res: Result<Exp>)
      requires Ready(e, locals, outer, upvals) && ((op == Negate && e == Minus(e1)) || (op == Not && e == Bang(e1)))
      modifies `code, `consts, `nextReg, `maxReg, `pendingJumpList, `st
      ensures Alike(res, Compile(old(st), e))
      ensures res.Ok? ==> Did(Compile(old(st), e), res.value, old(code), outer)
      decreases e1, 2
    {
      hide Described, Grows, Sound, CodeGen.EmitUnary, Short;
      ghost var st0, c0 := st, code;
      ShortUnary(st, e, e1);
      var x1 :- Binary(e1, locals, outer, upvals);
      CompiledHere(st0, e1, locals, outer, upvals);
      ghost var d1, c1 := Compile(st0, e1).value.1, code;
      var x :- EmitUnary(op, x1, d1, outer, upvals);
      SameTrans(c0, c1, code, outer);
      return Ok(x);
    }

    /** The operands of an operator, and then emit_arith or emit_comp. */
    method Operator(e: Expr, l: Expr, r: Expr, ghost locals: nat, ghost outer: multiset<nat>, ghost upvals: nat)
        returns (res: Result<Exp>)
      requires Ready(e, locals, outer, upvals) && (e.Arith? || e.Compare?) && e.l == l && e.r == r
      modifies `code, `consts, `nextReg, `maxReg, `pendingJumpList, `st
      ensures Alike(res, Compile(old(st), e))
      ensures res.Ok? ==> Did(Compile(old(st), e), res.value, old(code), outer)
      decreases e, 0
    {
      hide Described, Grows, Sound, CodeGen.EmitArith, CodeGen.EmitComp, AnyReg, Short, Compile, Rep, Is;
      ghost var st0, c0 := st, code;
      ReadyRegs(e, locals, outer, upvals);
      ShortOperator(st, e, l, r);
      OperatorCases(st, e, l, r);
      var x1 :- Binary(l, locals, outer, upvals);
      CompiledHere(st0, l, locals, outer, upvals);
      ghost var st1, d1, c1 := st, Compile(st0, l).value.1, code;
      RepRegs();
      var y1 :- ExprAnyReg(x1, d1, outer, upvals);
      RepRegs();
      CompiledLeft(st0, st1, d1, locals, outer, upvals);
      ghost var st2, e1, c2 := st, AnyReg(st1, d1).value.1, code;
      SoundRegsOf(st2, |st2.code|, multiset(st2.pending) + outer);
      NoHeads(y1, e1);
      var x2 :- Binary(r, locals, outer, upvals);
      CompiledHere(st2, r, locals, outer, upvals);
      ghost var st3, d2, c3 := st, Compile(st2, r).value.1, code;
      SameTrans(c0, c1, c2, outer);
      SameTrans(c0, c2, c3, outer);
      HeadlessIs(y1, e1);
      RepRegs();
      if e.Arith? {
        res := EmitArith(e.aop, y1, x2, e1, d2, outer, upvals);
      } else {
        res := EmitComp(e.cop, y1, x2, e1, d2, outer, upvals);
      }
      if res.Ok? {
        SameTrans(c0, c3, code, outer);
      }
    }

    lemma ReadyRegs(e: Expr, locals: nat, outer: multiset<nat>, upvals: nat)
      requires Ready(e, locals, outer, upvals)
      ensures RegsOk(st) && actVar == st.actVar && nextReg == st.nextReg
    {
      SoundRegsOf(st, |st.code|, multiset(st.pending) + outer);
    }

    lemma NoHeads(x: Exp, d: Desc)
      requires Is(x, d) && !HasJump(d)
      ensures x.kind == d.kind && x.trueJump == NO_JUMP && x.falseJump == NO_JUMP
    {
    }

    lemma HeadlessIs(x: Exp, d: Desc)
      requires x.kind == d.kind && x.trueJump == NO_JUMP && x.falseJump == NO_JUMP && !HasJump(d)
      ensures Is(x, d)
    {
    }

    /** and (truth), or: the jumps of the left operand join those of the right one. */
    method Connective(l: Expr, r: Expr, truth: bool, ghost locals: nat, ghost outer: multiset<nat>, ghost upvals: nat)
        returns (res: Result<Exp>)
      requires Ready(if truth then And(l, r) else Or(l, r), locals, outer, upvals)
      modifies `code, `consts, `nextReg, `maxReg, `pendingJumpList, `st
      ensures var r := Compile(old(st), if truth then And(l, r) else Or(l, r));
        Alike(res, r) && (res.Ok? ==> Did(r, res.value, old(code), outer))
      decreases if truth then And(l, r) else Or(l, r), 0
    {
      hide Described, Grows, Sound, BranchOn, Discharge, Short, Compile, Rep, Is, Same;
      ghost var st0, c0 := st, code;
      ReadyRegs(if truth then And(l, r) else Or(l, r), locals, outer, upvals);
      ShortConnective(st, l, r, truth);
      ConnectiveCases(st, l, r, truth);
      var x1 :- Binary(l, locals, outer, upvals);
      CompiledHere(st0, l, locals, outer, upvals);
      ghost var st1, d1, c1 := st, Compile(st0, l).value.1, code;
      RepRegs();
      var leave :- EmitBranchOn(x1, truth, d1, outer, upvals);
      BranchOnShape(st1, d1, truth, outer, upvals);
      ghost var st2, list, c2 := st, BranchOn(st1, d1, truth).value.1, code;
      GrowsActVar(st1, Stop(st1, d1), st2, NO_REG);
      RepRegs();
      ghost var inner := multiset(list) + outer;
      var x2 :- Binary(r, locals, inner, upvals);
      CompiledHere(st2, r, locals, inner, upvals);
      ghost var d2, c3 := Compile(st2, r).value.1, code;
      ChainKept(c2, c3, leave, list, inner);
      SameSub(c2, c3, inner, outer);
      SameTrans(c0, c1, c2, outer);
      SameTrans(c0, c2, c3, outer);
      res := JoinLeave(x2, leave, truth, d2, list, outer, upvals);
      if res.Ok? {
        SameTrans(c0, c3, code, outer);
      }
    }

    lemma RepRegs()
      requires Rep()
      ensures actVar == st.actVar && nextReg == st.nextReg
    {
    }

    /** The end of emit_binop for and/or. */
    method JoinLeave(x: Exp, leave: int, truth: bool, ghost d: Desc, ghost list: seq<nat>,
                     ghost outer: multiset<nat>, ghost upvals: nat)
        returns (res: Result<Exp>)
      requires Rep() && Is(x, d) && Described(st, d, multiset(list) + outer, upvals) && Chain(code, leave, list)
      modifies `code, `pendingJumpList, `st
      ensures var r := Discharge(old(st), d);
        && (r.Err? ==> res == Err(r.msg))
        && (r.Ok? ==>
              var (st', e) := r.value;
              var a := Append(if truth then e.fj else e.tj, list);
              && Alike(res, a)
              && (res.Ok? ==>
                  Did(Ok((st', if truth then e.(fj := a.value) else e.(tj := a.value))), res.value, old(code), outer)))
    {
      hide Described, Grows, Discharge, Same, Threaded, Tidy, Bounded;
      ghost var st0, c0, inner := st, code, multiset(list) + outer;
      var y :- ExprDischarge(x, d, inner, upvals);
      DischargeShape(st0, d, inner, upvals);
      ghost var e, c1 := Discharge(st0, d).value.1, code;
      ChainKept(c0, c1, leave, list, inner);
      SameSub(c0, c1, inner, outer);
      ghost var own, other := if truth then e.fj else e.tj, if truth then e.tj else e.fj;
      ghost var others := multiset(st.pending) + (multiset(other) + outer);
      JoinTidy(st, e, truth, list, outer, upvals);
      var joined :- AppendAmong(if truth then y.falseJump else y.trueJump, leave, own, list, others);
      ChainKept(c1, code, pendingJumpList, st.pending, others);
      SameSub(c1, code, others, multiset(other) + outer);
      ChainKept(c1, code, if truth then y.trueJump else y.falseJump, other, multiset(other) + outer);
      SameSub(c1, code, multiset(other) + outer, outer);
      SameTrans(c0, c1, code, outer);
      return Ok(if truth then y.(falseJump := joined) else y.(trueJump := joined));
    }

    // ----- statements without control flow -----

    /** The state with r as the result has been reached, and outer lists are as they were. */
    ghost predicate DidStmt(r: Result<State>, c0: seq<Instr>, outer: multiset<nat>)
      reads this
    {
      r == Ok(st) && Rep() && Same(c0, code, outer)
    }

    /** expressionStatement. */
    method ExpressionStatement(e: Expr, ghost outer: multiset<nat>, ghost upvals: nat) returns (res: Result<()>)
      requires Ready(e, actVar, outer, upvals) && nextReg == actVar
      modifies `code, `consts, `nextReg, `maxReg, `pendingJumpList, `st
      ensures Alike(res, Evaluate(old(st), e)) && (res.Ok? ==> DidStmt(Evaluate(old(st), e), old(code), outer))
    {
      hide Described, Grows, Sound, Compile, AnyReg, Short, Is, Same;
      ghost var st0, c0 := st, code;
      ReadyRegs(e, actVar, outer, upvals);
      var x :- Binary(e, actVar, outer, upvals);
      CompiledHere(st0, e, st0.actVar, outer, upvals);
      ghost var d, c1 := Compile(st0, e).value.1, code;
      var _ :- ExprAnyReg(x, d, outer, upvals);
      SameTrans(c0, c1, code, outer);
      return Ok(());
    }

    /** emit_store to a local. */
    method StoreLocal(x: Reg, e: Expr, ghost outer: multiset<nat>, ghost upvals: nat) returns (res: Result<()>)
      requires Ready(e, actVar, outer, upvals) && nextReg == actVar && x < actVar
      modifies `code, `consts, `nextReg, `maxReg, `pendingJumpList, `st
      ensures Alike(res, CodeGen.StoreLocal(old(st), x, e))
      ensures res.Ok? ==> DidStmt(CodeGen.StoreLocal(old(st), x, e), old(code), outer)
    {
      hide Described, Grows, Sound, Compile, ToReg, Short, Is, Same;
      ghost var st0, c0 := st, code;
      ReadyRegs(e, actVar, outer, upvals);
      var v :- Binary(e, actVar, outer, upvals);
      CompiledHere(st0, e, st0.actVar, outer, upvals);
      ghost var d, c1 := Compile(st0, e).value.1, code;
      DescribedRegs(st, d, outer, upvals);
      CompiledNext(st0, e, outer, upvals);
      var _ :- ExprToReg(v, x, d, outer, upvals);
      SameTrans(c0, c1, code, outer);
      return Ok(());
    }

    /** An instruction with an effect follows the value of e in a register. */
    method EmitEffect(op: Op, a: Reg, k: Half, v: Exp, ghost d: Desc, ghost outer: multiset<nat>, ghost upvals: nat)
        returns (res: Result<()>)
      requires Rep() && Is(v, d) && Described(st, d, outer, upvals) && !HasJump(d)
      modifies `code, `pendingJumpList, `st
      ensures var r := Emit(old(st), Instr(op, a, k));
        Alike(res, r) && (res.Ok? ==> DidStmt(r, old(code), outer))
    {
      hide Described, Emit, Same, Tidy;
      ReleasedTidy(st, d, st, outer, upvals);
      var _ :- EmitBytecode(Instr(op, a, k), outer);
      return Ok(());
    }

    /** emit_store to an upvalue. */
    method StoreUpvalue(u: Reg, e: Expr, ghost outer: multiset<nat>, ghost upvals: nat) returns (res: Result<()>)
      requires Ready(e, actVar, outer, upvals) && nextReg == actVar
      modifies `code, `consts, `nextReg, `maxReg, `pendingJumpList, `st
      ensures Alike(res, CodeGen.StoreUpvalue(old(st), u, e))
      ensures res.Ok? ==> DidStmt(CodeGen.StoreUpvalue(old(st), u, e), old(code), outer)
    {
      hide Described, Grows, Sound, Compile, CodeGen.Operand, Emit, Short, Is, Same;
      ghost var st0, c0 := st, code;
      ReadyRegs(e, actVar, outer, upvals);
      var x :- Binary(e, actVar, outer, upvals);
      CompiledHere(st0, e, st0.actVar, outer, upvals);
      ghost var st1, d, c1 := st, Compile(st0, e).value.1, code;
      var y :- Operand(x, d, outer, upvals);
      OperandShape(st1, d, outer, upvals, 0);
      ghost var d2, c2 := CodeGen.Operand(st1, d).value.1, code;
      HereKind(y, d2);
      var _ :- EmitEffect(SetUpval, u, y.kind.r, y, d2, outer, upvals);
      SameTrans(c1, c2, code, outer);
      SameTrans(c0, c1, code, outer);
      return Ok(());
    }

    lemma HereKind(x: Exp, d: Desc)
      requires Is(x, d)
      ensures x.kind == d.kind
    {
    }

    /** emit_store to a global. */
    method StoreGlobal(name: string, e: Expr, ghost outer: multiset<nat>, ghost upvals: nat) returns (res: Result<()>)
      requires Named(st, name).Ok? ==> Short(Named(st, name).value.0, e)
      requires Rep() && Sound(st, |st.code|, multiset(st.pending) + outer) && nextReg == actVar
      requires WfExpr(e, actVar, upvals) && actVar + Need(e) <= 254
      modifies `code, `consts, `nextReg, `maxReg, `pendingJumpList, `st
      ensures Alike(res, CodeGen.StoreGlobal(old(st), name, e))
      ensures res.Ok? ==> DidStmt(CodeGen.StoreGlobal(old(st), name, e), old(code), outer)
    {
      hide Described, Grows, Sound, Compile, AnyReg, Emit, Short, Is, Same;
      ghost var c0 := code;
      var k :- GlobalName(name, outer);
      ghost var st0 := st;
      var x :- Binary(e, actVar, outer, upvals);
      CompiledHere(st0, e, st0.actVar, outer, upvals);
      ghost var st1, d, c1 := st, Compile(st0, e).value.1, code;
      var y :- ExprAnyReg(x, d, outer, upvals);
      AnyRegShape(st1, d, outer, upvals, 0);
      ghost var d2, c2 := AnyReg(st1, d).value.1, code;
      HereKind(y, d2);
      var _ :- EmitEffect(SetGlobal, y.kind.r, k, y, d2, outer, upvals);
      SameTrans(c1, c2, code, outer);
      SameTrans(c0, c1, code, outer);
      return Ok(());
    }

    /** The name of a global becomes a constant. */
    method GlobalName(name: string, ghost outer: multiset<nat>) returns (res: Result<Half>)
      requires Rep() && Sound(st, |st.code|, multiset(st.pending) + outer)
      modifies `consts, `st
      ensures Alike(res, MakeConst(old(st), Str(name)))
      ensures res.Ok? ==>
                && MakeConst(old(st), Str(name)) == Ok((st, res.value)) && Named(old(st), name).Ok?
                && Named(old(st), name).value.0 == st && Rep() && Sound(st, |st.code|, multiset(st.pending) + outer)
                && st == old(st).(consts := st.consts) && RegsOk(st)
    {
      AddConstReady(st, Str(name), outer);
      res := MakeConstant(Str(name));
    }

    /** emitDefine of a global. */
    method DefineGlobal(name: string, e: Expr, ghost outer: multiset<nat>, ghost upvals: nat) returns (res: Result<()>)
      requires Named(st, name).Ok? ==> Short(Named(st, name).value.0, e)
      requires Rep() && Sound(st, |st.code|, multiset(st.pending) + outer) && nextReg == actVar
      requires WfExpr(e, actVar, upvals) && actVar + Need(e) <= 254
      modifies `code, `consts, `nextReg, `maxReg, `pendingJumpList, `st
      ensures Alike(res, DeclareGlobal(old(st), name, e))
      ensures res.Ok? ==> DidStmt(DeclareGlobal(old(st), name, e), old(code), outer)
    {
      hide Described, Grows, Sound, Compile, NextReg, AnyReg, Emit, Short, Is, Same;
      ghost var c0 := code;
      var k :- GlobalName(name, outer);
      ghost var st0 := st;
      var x :- Binary(e, actVar, outer, upvals);
      CompiledHere(st0, e, st0.actVar, outer, upvals);
      ghost var st1, d, c1 := st, Compile(st0, e).value.1, code;
      var y :- ExprNextReg(x, d, outer, upvals);
      NextRegShape(st1, d, outer, upvals, 0);
      ghost var d2, c2 := NextReg(st1, d).value.1, code;
      HereStays(st, d2);
      HereKind(y, d2);
      var _ :- EmitEffect(Op.DefineGlobal, y.kind.r, k, y, d2, outer, upvals);
      SameTrans(c1, c2, code, outer);
      SameTrans(c0, c1, code, outer);
      return Ok(());
    }

    /** varDeclaration in a scope, with emitDefine. */
    method DeclareLocal(e: Expr, ghost outer: multiset<nat>, ghost upvals: nat) returns (res: Result<()>)
      requires Rep() && Sound(st, |st.code|, multiset(st.pending) + outer) && nextReg == actVar <= 252
      requires WfExpr(e, actVar, upvals) && actVar + 1 + Need(e) <= 254 && Short(Declaring(st), e)
      modifies `code, `consts, `nextReg, `actVar, `maxReg, `pendingJumpList, `st
      ensures Alike(res, CodeGen.DeclareLocal(old(st), e))
      ensures res.Ok? ==> DidStmt(CodeGen.DeclareLocal(old(st), e), old(code), outer)
    {
      hide Described, Grows, Sound, Compile, NextReg, ToReg, Short, Is, Same;
      ghost var st', c0 := st, code;
      var x := actVar;
      DeclaringSound(st, outer);
      actVar := actVar + 1;
      st := Declaring(st);
      ghost var st0 := st;
      var y :- Binary(e, x, outer, upvals);
      CompiledHere(st0, e, st'.actVar, outer, upvals);
      ghost var st1, d, c1 := st, Compile(st0, e).value.1, code;
      RepRegs();
      var z :- ExprNextReg(y, d, outer, upvals);
      CompilableDeclaring(st', e, outer, upvals);
      InitializerShape(st', e, outer, upvals);
      ghost var st2, d2, c2 := st, NextReg(st1, d).value.1, code;
      RepRegs();
      var _ :- MoveDown(z, x, d2, outer, upvals);
      SameTrans(c1, c2, code, outer);
      SameTrans(c0, c1, code, outer);
      return Ok(());
    }

    /** emitDefine of a local: the temporary is freed and moved to its register. */
    method MoveDown(z: Exp, x: Reg, ghost d: Desc, ghost outer: multiset<nat>, ghost upvals: nat)
        returns (res: Result<Exp>)
      requires Rep() && Is(z, d) && Described(st, d, outer, upvals) && x < maxReg && x < NO_REG
      requires 0 < nextReg && actVar <= nextReg && d == Desc(NonRelocK(nextReg - 1), [], [])
      modifies `code, `consts, `nextReg, `maxReg, `pendingJumpList, `st
      ensures var r := ToReg(CodeGen.ExprFree(old(st), d), d, x);
        Alike(res, r) && (res.Ok? ==> Did(r, res.value, old(code), outer))
    {
      hide Described, ToReg, Same;
      NoHeads(z, d);
      ghost var st0 := st;
      ExprFree(z, d);
      HeadlessIs(z, d);
      FreeShape(st0, d, outer, upvals);
      res := ExprToReg(z, x, d, outer, upvals);
    }

    /** emitReturn. */
    method EmitReturn(e: Exp, ghost d: Desc, ghost outer: multiset<nat>, ghost upvals: nat) returns (res: Result<()>)
      requires Rep() && Is(e, d) && Described(st, d, outer, upvals) && nextReg <= 253 && Usable(st, d)
      requires d.kind.LocalK? || d.kind.NonRelocK? ==> nextReg != 0
      modifies `code, `consts, `nextReg, `maxReg, `pendingJumpList, `st
      ensures Alike(res, CodeGen.EmitReturn(old(st), d))
      ensures res.Ok? ==> DidStmt(CodeGen.EmitReturn(old(st), d), old(code), outer)
    {
      hide Described, Grows, Sound, AnyReg, Emit, Is, Same;
      ghost var st0, c0 := st, code;
      var x :- ExprAnyReg(e, d, outer, upvals);
      AnyRegShape(st0, d, outer, upvals, 0);
      ghost var d1, c1 := AnyReg(st0, d).value.1, code;
      HereKind(x, d1);
      var _ :- EmitEffect(Return, x.kind.r, 2, x, d1, outer, upvals);
      SameTrans(c0, c1, code, outer);
      return Ok(());
    }

    /** returnStatement. */
    method ReturnStatement(e: Expr, ghost outer: multiset<nat>, ghost upvals: nat) returns (res: Result<()>)
      requires Ready(e, actVar, outer, upvals) && nextReg == actVar
      modifies `code, `consts, `nextReg, `maxReg, `pendingJumpList, `st
      ensures Alike(res, ReturnWith(old(st), e))
      ensures res.Ok? ==> DidStmt(ReturnWith(old(st), e), old(code), outer)
    {
      hide Described, Grows, Sound, Compile, CodeGen.EmitReturn, Short, Is, Same;
      ghost var st0, c0 := st, code;
      ReadyRegs(e, actVar, outer, upvals);
      var x :- Binary(e, actVar, outer, upvals);
      CompiledHere(st0, e, st0.actVar, outer, upvals);
      ghost var d, c1 := Compile(st0, e).value.1, code;
      var _ :- EmitReturn(x, d, outer, upvals);
      SameTrans(c0, c1, code, outer);
      return Ok(());
    }

    /** What a statement without control flow finds. */
    ghost predicate SimpleStart(s: Stmt, outer: multiset<nat>, upvals: nat)
      reads this
    {
      && Rep() && Sound(st, |st.code|, multiset(st.pending) + outer) && nextReg == actVar
      && WfStmt(s, actVar, upvals) && Fits(s, actVar) && ShortStmt(st, Loops([], [], false), s)
    }

    method SimpleStatement(s: Stmt, ghost outer: multiset<nat>, ghost upvals: nat) returns (res: Result<()>)
      requires SimpleStart(s, outer, upvals) && IsSimple(s)
      modifies `code, `consts, `nextReg, `actVar, `maxReg, `pendingJumpList, `st
      ensures Alike(res, CompileSimple(old(st), s))
      ensures res.Ok? ==> DidStmt(CompileSimple(old(st), s), old(code), outer)
    {
      hide Sound, Short, Same, Evaluate, CodeGen.StoreLocal;
      hide CodeGen.StoreUpvalue, CodeGen.StoreGlobal, DeclareGlobal, CodeGen.DeclareLocal, ReturnWith;
      SoundRegsOf(st, |st.code|, multiset(st.pending) + outer);
      OuterSame(outer);
      match s {
        case VarLocal(e) => res := DeclareLocal(e, outer, upvals);
        case VarGlobal(name, e) => res := DefineGlobal(name, e, outer, upvals);
        case SetLocal(x, e) => res := StoreLocal(x, e, outer, upvals);
        case SetUpvalue(u, e) => res := StoreUpvalue(u, e, outer, upvals);
        case SetGlobalVar(name, e) => res := StoreGlobal(name, e, outer, upvals);
        case Do(e) => res := ExpressionStatement(e, outer, upvals);
        case ReturnValue(e) => res := ReturnStatement(e, outer, upvals);
        case Skip => res := Ok(());
      }
    }

    // ----- control flow -----

    ghost predicate LoopRep(ls: Loops)
      reads this
    {
      && Chain(code, pendingBreakList, ls.breaks) && Chain(code, pendingContinueList, ls.conts)
      && inLoop == ls.inLoop
    }

    lemma LoopKept(ls: Loops, c0: seq<Instr>, others: multiset<nat>)
      requires Chain(c0, pendingBreakList, ls.breaks) && Chain(c0, pendingContinueList, ls.conts) && inLoop == ls.inLoop
      requires Same(c0, code, LoopJumps(ls) + others)
      ensures LoopRep(ls) && Same(c0, code, others)
    {
      ChainKept(c0, code, pendingBreakList, ls.breaks, LoopJumps(ls) + others);
      ChainKept(c0, code, pendingContinueList, ls.conts, LoopJumps(ls) + others);
      SameSub(c0, code, LoopJumps(ls) + others, others);
    }

    /** The function of CodeGen with result r has been carried out, on the code, on the lists of
        the innermost loop, and on the list with this head. */
    ghost predicate DidList(r: Result<(State, seq<nat>)>, head: int, c0: seq<Instr>, outer: multiset<nat>)
      reads this
    {
      r.Ok? && st == r.value.0 && Rep() && Chain(code, head, r.value.1) && Same(c0, code, outer)
    }

    /** expressionCondition. */
    method ExpressionCondition(c: Expr, ghost outer: multiset<nat>, ghost upvals: nat) returns (res: Result<int>)
      requires Ready(c, actVar, outer, upvals) && nextReg == actVar
      modifies `code, `consts, `nextReg, `maxReg, `pendingJumpList, `st
      ensures Alike(res, Condition(old(st), c))
      ensures res.Ok? ==> DidList(Condition(old(st), c), res.value, old(code), outer)
    {
      hide Described, Grows, Sound, Compile, BranchOn, Short, Same, Rep;
      ghost var st0, c0 := st, code;
      ReadyRegs(c, actVar, outer, upvals);
      var x :- Binary(c, actVar, outer, upvals);
      CompiledHere(st0, c, st0.actVar, outer, upvals);
      ghost var d, c1 := Compile(st0, c).value.1, code;
      RepRegs();
      JudgedShape(st, d, outer, upvals);
      if x.kind == PrimK(0) {
        x := x.(kind := PrimK(2));
      }
      var flist :- EmitBranchOn(x, true, Judged(d), outer, upvals);
      SameTrans(c0, c1, code, outer);
      return Ok(flist);
    }

    /** jump_patch. */
    method JumpPatch(head: int, target: nat, ghost list: seq<nat>, ghost outer: multiset<nat>) returns (res: Result<()>)
      requires Rep() && Chain(code, head, list) && Tidy(st.code, multiset(st.pending) + (multiset(list) + outer))
      requires target <= |code| && !Open(st.code, target)
      modifies `code, `pendingJumpList, `st
      ensures var r := PatchTo(old(st), list, target);
        Alike(res, r) && (res.Ok? ==> DidStmt(r, old(code), outer))
    {
      if target == |code| {
        res := JumpToHere(head, list, outer);
        return;
      }
      ghost var st0, c0, others := st, code, multiset(st.pending) + outer;
      assert multiset(st.pending) + (multiset(list) + outer) == multiset(list) + others;
      OuterOpen(st.code, list, others);
      var _ :- PatchValue(head, target, NO_REG, target, list);
      SameOthers(c0, code, st0.code, list, others);
      ChainKept(c0, code, pendingJumpList, st.pending, others);
      SameSub(c0, code, others, outer);
      return Ok(());
    }

    /** The end of every statement. */
    method EndOfStatement()
      requires Rep()
      modifies `nextReg, `st
      ensures Rep() && st == EndStatement(old(st))
    {
      nextReg := actVar;
      st := EndStatement(st);
    }

    /** What a statement finds. */
    ghost predicate Start(s: Stmt, ls: Loops, outer: multiset<nat>, upvals: nat)
      reads this
    {
      && Rep() && LoopRep(ls) && Between(st, ls, outer)
      && WfStmt(s, st.actVar, upvals) && Fits(s, st.actVar) && ShortStmt(st, ls, s)
    }

    ghost predicate DidLoops(r: Result<(State, Loops)>, c0: seq<Instr>, outer: multiset<nat>)
      reads this
    {
      r.Ok? && st == r.value.0 && Rep() && LoopRep(r.value.1) && Same(c0, code, outer)
    }

    /** statement and declaration, on the tree they parse. */
    method Statement(s: Stmt, ghost ls: Loops, ghost outer: multiset<nat>, ghost upvals: nat) returns (res: Result<()>)
      requires Start(s, ls, outer, upvals)
      modifies this
      ensures Alike(res, CompileStmt(old(st), ls, s))
      ensures res.Ok? ==> DidLoops(CompileStmt(old(st), ls, s), old(code), outer)
      decreases s, 1
    {
      hide Sound, Extends, CompileStmt, CompileSimple, Short, Same;
      match s {
        case Seq(s1, s2) => res := Sequence(s1, s2, ls, outer, upvals);
        case Block(body) => res := BlockStatement(body, ls, outer, upvals);
        case If(c, yes) => res := IfStatement(c, yes, ls, outer, upvals);
        case IfElse(c, yes, no) => res := IfElseStatement(c, yes, no, ls, outer, upvals);
        case While(c, body) => res := WhileStatement(c, body, ls, outer, upvals);
        case Break => res := BreakStatement(ls, outer, upvals);
        case Continue => res := ContinueStatement(ls, outer, upvals);
        case _ => res := PlainStatement(s, ls, outer, upvals);
      }
    }

    method PlainStatement(s: Stmt, ghost ls: Loops, ghost outer: multiset<nat>, ghost upvals: nat)
        returns (res: Result<()>)
      requires Start(s, ls, outer, upvals) && IsSimple(s)
      modifies `code, `consts, `nextReg, `actVar, `maxReg, `pendingJumpList, `st
      ensures Alike(res, CompileStmt(old(st), ls, s))
      ensures res.Ok? ==> DidLoops(CompileStmt(old(st), ls, s), old(code), outer)
    {
      hide Sound, Extends, CompileSimple, Short, Same, Rep;
      ghost var c0 := code;
      RepRegs();
      ShortSimple(st, ls, s);
      var _ :- SimpleStatement(s, LoopJumps(ls) + outer, upvals);
      LoopKept(ls, c0, outer);
      EndOfStatement();
      return Ok(());
    }

    method Sequence(s1: Stmt, s2: Stmt, ghost ls: Loops, ghost outer: multiset<nat>, ghost upvals: nat)
        returns (res: Result<()>)
      requires Start(Seq(s1, s2), ls, outer, upvals)
      modifies this
      ensures Alike(res, CompileStmt(old(st), ls, Seq(s1, s2)))
      ensures res.Ok? ==> DidLoops(CompileStmt(old(st), ls, Seq(s1, s2)), old(code), outer)
      decreases Seq(s1, s2), 0
    {
      hide Between, Extends, Same, CompileStmt;
      SeqCases(st, ls, s1, s2);
      ghost var st0, c0 := st, code;
      var _ :- Statement(s1, ls, outer, upvals);
      CompileStmtShape(st0, ls, s1, outer, upvals);
      ghost var ls1, c1 := CompileStmt(st0, ls, s1).value.1, code;
      res := Statement(s2, ls1, outer, upvals);
      if res.Ok? {
        SameTrans(c0, c1, code, outer);
      }
    }

    /** A block, with endScope. */
    method BlockStatement(body: Stmt, ghost ls: Loops, ghost outer: multiset<nat>, ghost upvals: nat)
        returns (res: Result<()>)
      requires Start(Block(body), ls, outer, upvals)
      modifies this
      ensures Alike(res, CompileStmt(old(st), ls, Block(body)))
      ensures res.Ok? ==> DidLoops(CompileStmt(old(st), ls, Block(body)), old(code), outer)
      decreases Block(body), 0
    {
      hide Between, Extends, Same, Compile, Chain, CompileSimple, Safe, LoopEnd, Else, ReturnWith, ToHere, ThreadAt;
      hide Cast8, Short;
      var n := actVar;
      var _ :- Statement(body, ls, outer, upvals);
      actVar := n;
      st := st.(actVar := n);
      EndOfStatement();
      return Ok(());
    }

    /** The condition and the first branch of ifStatement; what comes back is the list of the
        jumps that found the condition false. */
    method ThenPart(c: Expr, yes: Stmt, ghost ls: Loops, ghost outer: multiset<nat>, ghost upvals: nat)
        returns (res: Result<int>)
      requires Rep() && LoopRep(ls) && Between(st, ls, outer)
      requires WfExpr(c, st.actVar, upvals) && st.actVar + Need(c) <= 254 && Short(st, c)
      requires WfStmt(yes, st.actVar, upvals) && Fits(yes, st.actVar) && Decls(yes) == 0
      requires Condition(st, c).Ok? ==> ShortStmt(Condition(st, c).value.0, ls, yes)
      modifies this
      ensures var r1 := Condition(old(st), c);
        && (r1.Err? ==> res == Err(r1.msg))
        && (r1.Ok? ==>
              var r2 := CompileStmt(r1.value.0, ls, yes);
              && Alike(res, r2)
              && (res.Ok? ==>
                    && DidLoops(r2, old(code), outer) && Chain(code, res.value, r1.value.1)
                    && Between(st, r2.value.1, multiset(r1.value.1) + outer)
                    && st.actVar == old(st).actVar && st.code != []
                    && r2.value.1.inLoop == ls.inLoop))
      decreases yes, 2
    {
      hide Sound, Extends, Same, CompileStmt, Condition, Short, Rep, ShortStmt;
      ghost var st0, c0 := st, code;
      RepRegs();
      var flist :- ExpressionCondition(c, LoopJumps(ls) + outer, upvals);
      ConditionDone(st0, ls, c, outer, upvals);
      LoopKept(ls, c0, outer);
      ghost var st1, list, c1 := st, Condition(st0, c).value.1, code;
      ghost var inner := multiset(list) + outer;
      var _ :- Statement(yes, ls, inner, upvals);
      CompileStmtShape(st1, ls, yes, inner, upvals);
      ExtendsLen(st1, st);
      ChainKept(c1, code, flist, list, inner);
      SameSub(c1, code, inner, outer);
      SameTrans(c0, c1, code, outer);
      return Ok(flist);
    }

    /** ifStatement without else. */
    method IfStatement(c: Expr, yes: Stmt, ghost ls: Loops, ghost outer: multiset<nat>, ghost upvals: nat)
        returns (res: Result<()>)
      requires Start(If(c, yes), ls, outer, upvals)
      modifies this
      ensures Alike(res, CompileStmt(old(st), ls, If(c, yes)))
      ensures res.Ok? ==> DidLoops(CompileStmt(old(st), ls, If(c, yes)), old(code), outer)
      decreases If(c, yes), 0
    {
      hide Sound, Extends, Same, CompileStmt, Condition, ToHere, Short, Rep;
      IfCases(st, ls, c, yes);
      ghost var st0, c0 := st, code;
      var flist :- ThenPart(c, yes, ls, outer, upvals);
      ghost var st1, list := Condition(st0, c).value.0, Condition(st0, c).value.1;
      ghost var ls2, c2 := CompileStmt(st1, ls, yes).value.1, code;
      Regroup(st.pending, list, ls2, outer);
      SoundTidy(st, |st.code|, multiset(st.pending) + (LoopJumps(ls2) + (multiset(list) + outer)));
      var _ :- JumpToHere(flist, list, LoopJumps(ls2) + outer);
      LoopKept(ls2, c2, outer);
      EndOfStatement();
      SameTrans(c0, c2, code, outer);
      return Ok(());
    }

    /** The part of ifStatement between the branches. */
    method ElseBranch(flist: int, ghost list: seq<nat>, ghost outer: multiset<nat>) returns (res: Result<int>)
      requires Rep() && Sound(st, |st.code|, multiset(st.pending) + (multiset(list) + outer))
      requires st.code != [] && Chain(code, flist, list)
      modifies `code, `pendingJumpList, `st
      ensures Alike(res, Else(old(st), list))
      ensures res.Ok? ==> DidList(Else(old(st), list), res.value, old(code), outer)
    {
      hide CodeGen.EmitJump, Same, Tidy, InRange, Bounded;
      ghost var st0, c0, others := st, code, multiset(list) + outer;
      var escape :- EmitJump(others);
      LeaveShape(st0, others);
      ghost var jumps, c1 := CodeGen.EmitJump(st0).value.1, code;
      ChainKept(c0, c1, flist, list, others);
      SameSub(c0, c1, others, outer);
      assert multiset(jumps) + others == multiset(st.pending) + (multiset(list) + (multiset(jumps) + outer));
      var _ := JumpToHere(flist, list, multiset(jumps) + outer);
      ChainKept(c1, code, escape, jumps, multiset(jumps) + outer);
      SameSub(c1, code, multiset(jumps) + outer, outer);
      SameTrans(c0, c1, code, outer);
      return Ok(escape);
    }

    /** ifStatement with else. */
    method IfElseStatement(c: Expr, yes: Stmt, no: Stmt, ghost ls: Loops, ghost outer: multiset<nat>, ghost upvals: nat)
        returns (res: Result<()>)
      requires Start(IfElse(c, yes, no), ls, outer, upvals)
      modifies this
      ensures Alike(res, CompileStmt(old(st), ls, IfElse(c, yes, no)))
      ensures res.Ok? ==> DidLoops(CompileStmt(old(st), ls, IfElse(c, yes, no)), old(code), outer)
      decreases IfElse(c, yes, no), 0
    {
      hide Sound, Extends, Same, CompileStmt, Condition, ToHere, Else, Short, ShortStmt, Rep;
      IfElseCases(st, ls, c, yes, no);
      ShortIfElse(st, ls, c, yes, no);
      ghost var st0, c0 := st, code;
      var flist :- ThenPart(c, yes, ls, outer, upvals);
      ghost var st1, list := Condition(st0, c).value.0, Condition(st0, c).value.1;
      ghost var st2, ls2, c2 := st, CompileStmt(st1, ls, yes).value.1, code;
      Regroup(st.pending, list, ls2, outer);
      var escape :- ElseBranch(flist, list, LoopJumps(ls2) + outer);
      ElseShape(st2, list, LoopJumps(ls2) + outer);
      LoopKept(ls2, c2, outer);
      SameTrans(c0, c2, code, outer);
      ghost var jumps, c4 := Else(st2, list).value.1, code;
      Regroup(st.pending, jumps, ls2, outer);
      res := ElsePart(escape, no, jumps, ls2, outer, upvals);
      if res.Ok? {
        SameTrans(c0, c4, code, outer);
      }
    }

    /** The else branch itself, and the end of the statement. */
    method ElsePart(escape: int, no: Stmt, ghost jumps: seq<nat>, ghost ls: Loops, ghost outer: multiset<nat>,
                    ghost upvals: nat)
        returns (res: Result<()>)
      requires Start(no, ls, multiset(jumps) + outer, upvals) && Chain(code, escape, jumps)
      modifies this
      ensures var r := CompileStmt(old(st), ls, no);
        && (r.Err? ==> res == Err(r.msg))
        && (r.Ok? ==>
              var h := ToHere(r.value.0, jumps);
              && Alike(res, h)
              && (res.Ok? ==> DidLoops(Ok((EndStatement(h.value), r.value.1)), old(code), outer)))
      decreases no, 2
    {
      hide Sound, Extends, Same, CompileStmt, ToHere, Rep, ShortStmt;
      ghost var st0, c0, inner := st, code, multiset(jumps) + outer;
      var _ :- Statement(no, ls, inner, upvals);
      CompileStmtShape(st0, ls, no, inner, upvals);
      ghost var ls1, c1 := CompileStmt(st0, ls, no).value.1, code;
      ChainKept(c0, c1, escape, jumps, inner);
      SameSub(c0, c1, inner, outer);
      Regroup(st.pending, jumps, ls1, outer);
      SoundTidy(st, |st.code|, multiset(st.pending) + (LoopJumps(ls1) + inner));
      var _ :- JumpToHere(escape, jumps, LoopJumps(ls1) + outer);
      LoopKept(ls1, c1, outer);
      EndOfStatement();
      SameTrans(c0, c1, code, outer);
      return Ok(());
    }

    /** emit_jump and jump_append in breakStatement and continueStatement. */
    method LeaveBy(head: int, ghost list: seq<nat>, ghost outer: multiset<nat>) returns (res: Result<int>)
      requires Rep() && Sound(st, |st.code|, multiset(st.pending) + (multiset(list) + outer))
      requires st.code != [] && Chain(code, head, list)
      modifies `code, `pendingJumpList, `st
      ensures Alike(res, Leave(old(st), list))
      ensures res.Ok? ==> DidList(Leave(old(st), list), res.value, old(code), outer)
    {
      hide CodeGen.EmitJump, Same, Tidy, InRange, Bounded;
      ghost var st0, c0, others := st, code, multiset(list) + outer;
      var j :- EmitJump(others);
      LeaveShape(st0, others);
      ghost var jumps, c1 := CodeGen.EmitJump(st0).value.1, code;
      ChainKept(c0, c1, head, list, others);
      SameSub(c0, c1, others, outer);
      assert multiset(jumps) + others == multiset(jumps + list) + outer;
      var l :- AppendAmong(j, head, jumps, list, outer);
      ChainNone(pendingJumpList, st.pending, c1);
      SameTrans(c0, c1, code, outer);
      return Ok(l);
    }

    method BreakStatement(ghost ls: Loops, ghost outer: multiset<nat>, ghost upvals: nat) returns (res: Result<()>)
      requires Start(Break, ls, outer, upvals)
      modifies this
      ensures Alike(res, CompileStmt(old(st), ls, Break))
      ensures res.Ok? ==> DidLoops(CompileStmt(old(st), ls, Break), old(code), outer)
    {
      hide Sound, Same, Leave;
      if !inLoop {
        return Err(NOT_IN_LOOP);
      }
      ghost var c0, others := code, multiset(ls.conts) + outer;
      assert LoopJumps(ls) + outer == multiset(ls.breaks) + others;
      var l :- LeaveBy(pendingBreakList, ls.breaks, others);
      ChainKept(c0, code, pendingContinueList, ls.conts, others);
      SameSub(c0, code, others, outer);
      pendingBreakList := l;
      EndOfStatement();
      return Ok(());
    }

    method ContinueStatement(ghost ls: Loops, ghost outer: multiset<nat>, ghost upvals: nat) returns (res: Result<()>)
      requires Start(Continue, ls, outer, upvals)
      modifies this
      ensures Alike(res, CompileStmt(old(st), ls, Continue))
      ensures res.Ok? ==> DidLoops(CompileStmt(old(st), ls, Continue), old(code), outer)
    {
      hide Sound, Same, Leave;
      if !inLoop {
        return Err(NOT_IN_LOOP);
      }
      ghost var c0, others := code, multiset(ls.breaks) + outer;
      assert LoopJumps(ls) + outer == multiset(ls.conts) + others;
      var l :- LeaveBy(pendingContinueList, ls.conts, others);
      ChainKept(c0, code, pendingBreakList, ls.breaks, others);
      SameSub(c0, code, others, outer);
      pendingContinueList := l;
      EndOfStatement();
      return Ok(());
    }

    /** The end of whileStatement: the jump back, and then the breaks come here. */
    method CloseLoop(start: nat, ghost ls: Loops, ghost outer: multiset<nat>) returns (res: Result<()>)
      requires Rep() && LoopRep(ls) && Sound(st, |st.code|, multiset(st.pending) + (LoopJumps(ls) + outer))
      requires start < |st.code| && !Open(st.code, start)
      modifies `code, `pendingJumpList, `pendingContinueList, `st
      ensures Alike(res, LoopEnd(old(st), ls, start))
      ensures res.Ok? ==> DidStmt(LoopEnd(old(st), ls, start), old(code), outer)
    {
      hide CodeGen.EmitJump, Same, Tidy, InRange, Bounded, Sound, Extends, PatchTo, LoopEnd;
      ghost var st0, c0 := st, code;
      ghost var others := multiset(ls.breaks) + outer;
      LoopEndCases(st, ls, start);
      SoundTidy(st, |st.code|, multiset(st.pending) + (LoopJumps(ls) + outer));
      var j :- EmitJump(LoopJumps(ls) + outer);
      LeaveShape(st0, LoopJumps(ls) + outer);
      ghost var st1, jumps, c1 := st, CodeGen.EmitJump(st0).value.1, code;
      LoopKept(ls, c0, outer);
      StillClosed(st0, st1, start);
      ghost var conts := ls.conts + jumps;
      assert multiset(jumps) + (LoopJumps(ls) + outer) == multiset(conts) + others;
      SoundTidy(st, |st.code|, multiset(conts) + others);
      pendingContinueList :- AppendAmong(pendingContinueList, j, ls.conts, jumps, others);
      ghost var c2 := code;
      ChainNone(pendingJumpList, st.pending, c1);
      ChainKept(c1, c2, pendingBreakList, ls.breaks, others);
      assert multiset(st.pending) + (multiset(conts) + others) == multiset(conts) + others;
      var _ :- JumpPatch(pendingContinueList, start, conts, others);
      PatchBackShape(st1, conts, start, others);
      ghost var c3 := code;
      ChainKept(c2, c3, pendingBreakList, ls.breaks, others);
      SameTrans(c1, c2, c3, others);
      SameSub(c1, c3, others, outer);
      SoundTidy(st, |st.code|, others);
      assert multiset(st.pending) + (multiset(ls.breaks) + outer) == others;
      var _ := JumpToHere(pendingBreakList, ls.breaks, outer);
      SameTrans(c0, c1, c3, outer);
      SameTrans(c0, c3, code, outer);
      return Ok(());
    }

    /** whileStatement. */
    method WhileStatement(c: Expr, body: Stmt, ghost ls: Loops, ghost outer: multiset<nat>, ghost upvals: nat)
        returns (res: Result<()>)
      requires Start(While(c, body), ls, outer, upvals)
      modifies this
      ensures Alike(res, CompileStmt(old(st), ls, While(c, body)))
      ensures res.Ok? ==> DidLoops(CompileStmt(old(st), ls, While(c, body)), old(code), outer)
      decreases While(c, body), 0
    {
      hide Sound, Extends, Same, CompileStmt, Condition, LoopEnd, Short, Threaded;
      WhileCases(st, ls, c, body);
      ghost var st0, c0, others := st, code, LoopJumps(ls) + outer;
      RepRegs();
      RepLen();
      var inSurroundingLoop := inLoop;
      inLoop := true;
      var loopStart := |code|;
      var outerContinues := pendingContinueList;
      pendingContinueList := NO_JUMP;
      var outerBreaks := pendingBreakList;
      var flist :- ExpressionCondition(c, others, upvals);
      ConditionDone(st0, ls, c, outer, upvals);
      pendingBreakList := flist;
      ghost var st1, list, c1 := st, Condition(st0, c).value.1, code;
      ghost var ls1 := Loops(list, [], true);
      var _ :- Statement(body, ls1, others, upvals);
      CompileStmtShape(st1, ls1, body, others, upvals);
      ghost var st2, ls2, c2 := st, CompileStmt(st1, ls1, body).value.1, code;
      StillClosed(st1, st2, |st0.code|);
      var _ :- CloseLoop(loopStart, ls2, others);
      pendingContinueList := outerContinues;
      pendingBreakList := outerBreaks;
      inLoop := inSurroundingLoop;
      SameTrans(c0, c1, c2, others);
      SameTrans(c0, c2, code, others);
      LoopKept(ls, c0, outer);
      EndOfStatement();
      return Ok(());
    }

    // ----- whole functions -----

    /** initCompiler, with the parameters in the first registers. */
    constructor (params: Reg)
      ensures Rep() && st == InitialState(params) && LoopRep(Loops([], [], false))
    {
      code, consts := [], [];
      nextReg, actVar, maxReg := params, params, params;
      pendingJumpList, pendingBreakList, pendingContinueList := NO_JUMP, NO_JUMP, NO_JUMP;
      inLoop := false;
      st := InitialState(params);
    }

    /** endCompiler of a function that is not an initializer. */
    method EndCompiler(ghost upvals: nat) returns (res: Result<()>)
      requires Rep() && Sound(st, |st.code|, multiset(st.pending) + multiset{}) && nextReg == 0
      modifies `code, `consts, `nextReg, `maxReg, `pendingJumpList, `st
      ensures Alike(res, Finish(old(st)))
      ensures res.Ok? ==> Finish(old(st)) == Ok(st) && Rep()
    {
      hide Sound, CodeGen.EmitReturn;
      ChainHead(code, pendingJumpList, st.pending);
      if |code| > 0 {
        assert ThreadAt(code, st.code, |code| - 1);
      }
      if |code| == 0 || pendingJumpList != NO_JUMP || code[|code| - 1].op != Return {
        NothingShape(st, upvals);
        res := EmitReturn(Exp(PrimK(0), NO_JUMP, NO_JUMP), Nothing(), multiset{}, upvals);
        return;
      }
      return Ok(());
    }

    /** The compilation of a whole function: what remains in the array is the code that the
        function CompileBody describes, with no link left in it. */
    method FunctionBody(body: Stmt, ghost params: Reg, ghost upvals: nat) returns (res: Result<()>)
      requires Rep() && st == InitialState(params) && LoopRep(Loops([], [], false))
      requires BodyOk(params, body, upvals)
      modifies this
      ensures Alike(res, CompileBody(params, body))
      ensures res.Ok? ==>
                var f := CompileBody(params, body).value;
                code == f.code && consts == f.consts && maxReg == f.maxReg
      ensures res.Ok? ==> !Errors.Stray(body, false)
      ensures res.Err? ==> Errors.Reason(res.msg, body)
    {
      hide CompileStmt, Finish, Extends, Short, ShortStmt, Sound, Errors.Stray, Errors.Reason;
      ghost var ls0 := Loops([], [], false);
      Errors.CompileErrors(params, body);
      BodyStart(params);
      BodyCases(params, body);
      var _ :- Statement(body, ls0, multiset{}, upvals);
      CompileStmtShape(InitialState(params), ls0, body, multiset{}, upvals);
      assert LoopJumps(ls0) + multiset{} == multiset{};
      LowerScope(st, 0, multiset{});
      actVar := 0;
      st := st.(actVar := 0);
      EndOfStatement();
      ghost var st2 := st;
      var _ :- EndCompiler(upvals);
      FinishShape(st2, upvals);
      NothingThreaded();
      return Ok(());
    }

    lemma NothingThreaded()
      requires Rep() && Sound(st, |st.code|, multiset{})
      ensures code == st.code
    {
      forall i | 0 <= i < |code| ensures code[i] == st.code[i] {
        var none: multiset<nat> := multiset{};
        assert none[i] == if Open(st.code, i) then 1 else 0;
        assert ThreadAt(code, st.code, i);
      }
    }
  }

  lemma BodyStart(params: Reg)
    requires params <= 253
    ensures Between(InitialState(params), Loops([], [], false), multiset{})
  {
    var st := InitialState(params);
    assert multiset(st.pending) + (LoopJumps(Loops([], [], false)) + multiset{}) == multiset{};
    forall j: nat ensures multiset{}[j] == if Open(st.code, j) then 1 else 0 {
    }
  }

  lemma BodyCases(params: Reg, body: Stmt)
    ensures var r := CompileStmt(InitialState(params), Loops([], [], false), body);
      && (r.Err? ==> CompileBody(params, body) == Err(r.msg))
      && (r.Ok? ==> CompileBody(params, body) == Finish(EndStatement(r.value.0.(actVar := 0))))
  {
    hide CompileStmt, Finish;
  }

  lemma LoopEndCases(st: State, ls: Loops, start: nat)
    ensures var r := LoopEnd(st, ls, start);
      var r1 := CodeGen.EmitJump(st);
      && (r1.Err? ==> r == Err(r1.msg))
      && (r1.Ok? ==>
            var r2 := Append(ls.conts, r1.value.1);
            && (r2.Err? ==> r == Err(r2.msg))
            && (r2.Ok? ==>
                  var r3 := PatchTo(r1.value.0, r2.value, start);
                  && (r3.Err? ==> r == Err(r3.msg))
                  && (r3.Ok? ==> r == ToHere(r3.value, ls.breaks))))
  {
    hide CodeGen.EmitJump, PatchTo, ToHere;
  }

  lemma WhileCases(st: State, ls: Loops, c: Expr, body: Stmt)
    ensures var r := CompileStmt(st, ls, While(c, body));
      var r1 := Condition(st, c);
      && (r1.Err? ==> r == Err(r1.msg))
      && (r1.Ok? ==>
            var r2 := CompileStmt(r1.value.0, Loops(r1.value.1, [], true), body);
            && (r2.Err? ==> r == Err(r2.msg))
            && (r2.Ok? ==>
                  var r3 := LoopEnd(r2.value.0, r2.value.1, |st.code|);
                  && Alike(r, r3)
                  && (r.Ok? ==> r == Ok((EndStatement(r3.value), ls)))))
  {
    hide Condition, LoopEnd;
  }

  lemma ExtendsLen(st: State, st': State)
    requires Extends(st, st')
    ensures |st.code| <= |st'.code|
  {
  }

  lemma ShortSimple(st: State, ls: Loops, s: Stmt)
    requires ShortStmt(st, ls, s) && IsSimple(s)
    ensures ShortStmt(st, Loops([], [], false), s)
  {
  }

  lemma SeqCases(st: State, ls: Loops, s1: Stmt, s2: Stmt)
    ensures var c := CompileStmt(st, ls, Seq(s1, s2));
      var c1 := CompileStmt(st, ls, s1);
      && (c1.Err? ==> c == Err(c1.msg))
      && (c1.Ok? ==> c == CompileStmt(c1.value.0, c1.value.1, s2))
  {
  }

  lemma IfCases(st: State, ls: Loops, c: Expr, yes: Stmt)
    ensures var r := CompileStmt(st, ls, If(c, yes));
      var r1 := Condition(st, c);
      && (r1.Err? ==> r == Err(r1.msg))
      && (r1.Ok? ==>
            var r2 := CompileStmt(r1.value.0, ls, yes);
            && (r2.Err? ==> r == Err(r2.msg))
            && (r2.Ok? ==>
                  var r3 := ToHere(r2.value.0, r1.value.1);
                  && Alike(r, r3)
                  && (r.Ok? ==> r == Ok((EndStatement(r3.value), r2.value.1)))))
  {
    hide Condition, ToHere;
  }

  lemma IfElseCases(st: State, ls: Loops, c: Expr, yes: Stmt, no: Stmt)
    ensures var r := CompileStmt(st, ls, IfElse(c, yes, no));
      var r1 := Condition(st, c);
      && (r1.Err? ==> r == Err(r1.msg))
      && (r1.Ok? ==>
            var r2 := CompileStmt(r1.value.0, ls, yes);
            && (r2.Err? ==> r == Err(r2.msg))
            && (r2.Ok? ==>
                  var r3 := Else(r2.value.0, r1.value.1);
                  && (r3.Err? ==> r == Err(r3.msg))
                  && (r3.Ok? ==>
                        var r4 := CompileStmt(r3.value.0, r2.value.1, no);
                        && (r4.Err? ==> r == Err(r4.msg))
                        && (r4.Ok? ==>
                              var r5 := ToHere(r4.value.0, r3.value.1);
                              && Alike(r, r5)
                              && (r.Ok? ==> r == Ok((EndStatement(r5.value), r4.value.1)))))))
  {
    hide Condition, ToHere, Else;
  }

  /** What the condition of a statement leaves behind. */
  lemma ConditionDone(st: State, ls: Loops, c: Expr, outer: multiset<nat>, upvals: nat)
    requires Between(st, ls, outer) && Condition(st, c).Ok?
    requires WfExpr(c, st.actVar, upvals) && st.actVar + Need(c) <= 254
    requires Short(st, c)
    ensures var (st1, list) := Condition(st, c).value;
      && Between(st1, ls, multiset(list) + outer) && st1.actVar == st.actVar && st1.code != []
      && Between(st1, Loops(list, [], true), LoopJumps(ls) + outer)
      && |st.code| < |st1.code| && !Open(st1.code, |st.code|)
  {
    hide Condition, Sound, Extends, Short;
    ReadyCondition(st, ls, c, outer, upvals);
    ConditionShape(st, c, LoopJumps(ls) + outer, upvals);
    var (st1, list) := Condition(st, c).value;
    Regroup(st1.pending, list, ls, outer);
    assert LoopJumps(Loops(list, [], true)) == multiset(list);
  }

  lemma JoinTidy(st: State, e: Desc, truth: bool, list: seq<nat>, outer: multiset<nat>, upvals: nat)
    requires Described(st, e, multiset(list) + outer, upvals)
    ensures var own, other := if truth then e.fj else e.tj, if truth then e.tj else e.fj;
      Tidy(st.code, multiset(own + list) + (multiset(st.pending) + (multiset(other) + outer)))
  {
    hide Tidy, Described;
    var own, other := if truth then e.fj else e.tj, if truth then e.tj else e.fj;
    DescribedTidy(st, e, multiset(list) + outer, upvals);
    assert Lists(st, e) + (multiset(list) + outer) ==
        multiset(own + list) + (multiset(st.pending) + (multiset(other) + outer));
  }

  /** The steps of an operator, with what becomes of their errors. */
  lemma OperatorCases(st: State, e: Expr, l: Expr, r: Expr)
    requires (e.Arith? || e.Compare?) && e.l == l && e.r == r
    ensures var c1 := Compile(st, l);
      && (c1.Err? ==> Compile(st, e) == Err(c1.msg))
      && (c1.Ok? ==>
            var c2 := AnyReg(c1.value.0, c1.value.1);
            && (c2.Err? ==> Compile(st, e) == Err(c2.msg))
            && (c2.Ok? ==>
                  var c3 := Compile(c2.value.0, r);
                  && (c3.Err? ==> Compile(st, e) == Err(c3.msg))
                  && (c3.Ok? ==>
                        Compile(st, e) == if e.Arith? then CodeGen.EmitArith(c3.value.0, e.aop, c2.value.1, c3.value.1)
                                          else CodeGen.EmitComp(c3.value.0, e.cop, c2.value.1, c3.value.1))))
  {
    hide AnyReg, CodeGen.EmitArith, CodeGen.EmitComp;
  }

  /** The steps of and/or, with what becomes of their errors. */
  lemma ConnectiveCases(st: State, l: Expr, r: Expr, truth: bool)
    ensures var c := Compile(st, if truth then And(l, r) else Or(l, r));
      var c1 := Compile(st, l);
      && (c1.Err? ==> c == Err(c1.msg))
      && (c1.Ok? ==>
            var c2 := BranchOn(c1.value.0, c1.value.1, truth);
            && (c2.Err? ==> c == Err(c2.msg))
            && (c2.Ok? ==>
                  var c3 := Compile(c2.value.0, r);
                  && (c3.Err? ==> c == Err(c3.msg))
                  && (c3.Ok? ==>
                        var c4 := Discharge(c3.value.0, c3.value.1);
                        && (c4.Err? ==> c == Err(c4.msg))
                        && (c4.Ok? ==>
                              var (st4, e) := c4.value;
                              var a := Append(if truth then e.fj else e.tj, c2.value.1);
                              && Alike(c, a)
                              && (a.Ok? ==>
                                  c.value == (st4, if truth then e.(fj := a.value) else e.(tj := a.value)))))))
  {
    hide BranchOn, Discharge, Append;
    if truth {
    } else {
    }
  }

  lemma CompilableDeclaring(st: State, e: Expr, outer: multiset<nat>, upvals: nat)
    requires Sound(st, |st.code|, multiset(st.pending) + outer) && st.nextReg == st.actVar <= 252
    requires WfExpr(e, st.actVar, upvals) && st.actVar + 1 + Need(e) <= 254 && Short(Declaring(st), e)
    requires Compile(Declaring(st), e).Ok?
    ensures Compilable(Declaring(st), e, st.actVar, outer, upvals)
  {
    hide Sound, Compile, Short;
    DeclaringSound(st, outer);
  }

  /** The registers of the locals exist. */
  lemma CompiledNext(st: State, e: Expr, outer: multiset<nat>, upvals: nat)
    requires Compile(st, e).Ok? && st.nextReg == st.actVar
    requires Compiled(st, Compile(st, e).value.0, Compile(st, e).value.1, st.actVar, outer, upvals)
    ensures var st1 := Compile(st, e).value.0; st1.actVar == st.actVar <= st1.nextReg <= st1.maxReg
  {
    hide Compile, Described, Grows;
    var (st1, d1) := Compile(st, e).value;
    GrowsActVar(st, |st.code|, st1, st.nextReg);
    DescribedRegs(st1, d1, outer, upvals);
  }

  lemma ShortUnary(st: State, e: Expr, e1: Expr)
    requires (e == Minus(e1) || e == Bang(e1)) && Short(st, e)
    ensures Short(st, e1)
  {
  }

  /** What a compiled expression allows next. */
  lemma CompiledHere(st: State, e: Expr, locals: nat, outer: multiset<nat>, upvals: nat)
    requires Sound(st, |st.code|, multiset(st.pending) + outer) && Compile(st, e).Ok?
    requires WfExpr(e, locals, upvals) && locals <= st.actVar && locals <= st.nextReg
    requires Level(st) + Need(e) <= 254 && Short(st, e)
    ensures var (st1, d1) := Compile(st, e).value;
      && Compiled(st, st1, d1, locals, outer, upvals) && Described(st1, d1, outer, upvals)
      && st1.nextReg <= 253 && Usable(st1, d1) && Movable(st1, d1) && st1.actVar == st.actVar && st.maxReg <= st1.maxReg
      && (d1.kind.LocalK? || d1.kind.NonRelocK? ==> d1.kind.r < st1.actVar && st1.nextReg != 0)
  {
    hide Compile, Described, Grows;
    SoundRegsOf(st, |st.code|, multiset(st.pending) + outer);
    CompileShape(st, e, locals, outer, upvals);
    var (st1, d1) := Compile(st, e).value;
    GrowsActVar(st, |st.code|, st1, st.nextReg);
    DescribedRegs(st1, d1, outer, upvals);
  }

  lemma ReleasedTidy(st: State, d: Desc, st': State, outer: multiset<nat>, upvals: nat)
    requires Described(st, d, outer, upvals) && !HasJump(d) && st' == st.(nextReg := st'.nextReg)
    ensures Tidy(st'.code, multiset(st'.pending) + outer)
  {
    assert Lists(st, d) + outer == multiset(st'.pending) + outer;
  }

  lemma CompCases(st: State, op: CompOp, d1: Desc, d2: Desc)
    requires d1.kind.NonRelocK? && !HasJump(d1)
    ensures var o := CodeGen.Operand(st, d2);
      && (o.Err? ==> CodeGen.EmitComp(st, op, d1, d2) == Err(o.msg))
      && (o.Ok? ==>
            var (st2, e2) := o.value;
            var st3 := CodeGen.Release(CodeGen.Release(st2, d1), e2);
            var r := Emit(st3, InstrABC(Comp(op), 0, RegOf(d1), RegOf(e2)));
            CodeGen.EmitComp(st, op, d1, d2) ==
                if r.Ok? then Ok((r.value, Desc(RelocK(|st3.code|), [], []))) else Err(r.msg))
  {
    hide CodeGen.Operand, Emit;
    HereStays(st, d1);
  }

  lemma ArithCases(st: State, op: ArithOp, d1: Desc, d2: Desc)
    requires d1.kind.NonRelocK? && !HasJump(d1)
    ensures var a := CodeGen.ArithOperand(st, d2);
      && (a.Err? ==> CodeGen.EmitArith(st, op, d1, d2) == Err(a.msg))
      && (a.Ok? ==>
            var o := a.value;
            var st3 := CodeGen.Release(CodeGen.Release(o.st, d1), o.d);
            var r := Emit(st3, InstrABC(if o.vk then ArithVK(op) else ArithVV(op), 0, RegOf(d1), o.rc));
            CodeGen.EmitArith(st, op, d1, d2) ==
                if r.Ok? then Ok((r.value, Desc(RelocK(|st3.code|), [], []))) else Err(r.msg))
  {
    hide CodeGen.ArithOperand, CodeGen.Operand, Emit;
    var a := CodeGen.ArithOperand(st, d2);
    if a.Ok? {
      HereStays(a.value.st, d1);
    }
  }

  lemma EmitKeepsRegs(st: State, i: Instr)
    requires Emit(st, i).Ok?
    ensures var st' := Emit(st, i).value; st' == st.(code := st'.code, pending := [])
  {
  }

  lemma EmitJumpKeepsRegs(st: State)
    requires CodeGen.EmitJump(st).Ok?
    ensures var st' := CodeGen.EmitJump(st).value.0; st' == st.(code := st'.code, pending := [])
  {
  }

  lemma BranchOperandActVar(st: State, d: Desc)
    requires CodeGen.BranchOperand(st, d).Ok?
    ensures CodeGen.BranchOperand(st, d).value.0.actVar == st.actVar
  {
  }

  lemma ToRegNoBranchLists(st: State, d: Desc, r: Reg)
    requires ToRegNoBranch(st, d, r).Ok?
    ensures var d' := ToRegNoBranch(st, d, r).value.1; d'.tj == d.tj && d'.fj == d.fj && d'.kind == NonRelocK(r)
  {
    hide Emit, Place;
  }

  /** OP_NOT that has become a test. */
  lemma NotTidy(st: State, d: Desc, cond: bool, outer: multiset<nat>, upvals: nat)
    requires Described(st, d, outer, upvals) && d.kind.RelocK?
    requires d.kind.pos < |st.code| && st.code[d.kind.pos].op == Not
    ensures Tidy(st.code[d.kind.pos := Instr(JumpIf(!cond), 0, st.code[d.kind.pos].d)], OwnOf(d) + outer)
  {
    hide Tidy;
    assert Lists(st, d) + outer == OwnOf(d) + outer;
    SetTest(st, !cond, OwnOf(d) + outer);
  }

  /** A test without destination has been emitted. */
  lemma TestTidy(st: State, d: Desc, test: Instr, outer: multiset<nat>, upvals: nat)
    requires Described(st, d, outer, upvals) && d.kind.NonRelocK? && test.op.CopyJumpIf? && Emit(st, test).Ok?
    ensures Tidy(Emit(st, test).value.code, OwnOf(d) + outer)
  {
    hide Emit, Tidy;
    DescribedParts(st, d, outer, upvals);
    SoundEnd(st, |st.code|, multiset(st.pending) + (OwnOf(d) + outer));
    SoundTidy(st, |st.code|, multiset(st.pending) + (OwnOf(d) + outer));
    EmitShape(st, test, OwnOf(d) + outer);
    assert OwnOf(d) + outer + Opened(test, |st.code|) == OwnOf(d) + outer;
  }

  /** The two forms of emit_branch. */
  lemma BranchCases(st: State, d: Desc, cond: bool)
    ensures if d.kind.RelocK? && CodeGen.At(st.code, d.kind.pos).op == Not then
              var i := CodeGen.At(st.code, d.kind.pos);
              Branch(st, d, cond) ==
                  CodeGen.EmitJump(st.(code := Put(st.code, d.kind.pos, Instr(JumpIf(!cond), 0, i.d))))
            else
              var o := CodeGen.BranchOperand(st, d);
              && (o.Err? ==> Branch(st, d, cond) == Err(o.msg))
              && (o.Ok? ==>
                    var (st1, d1) := o.value;
                    var t := Emit(st1, Instr(CopyJumpIf(cond), NO_REG, RegOf(d1)));
                    && (t.Err? ==> Branch(st, d, cond) == Err(t.msg))
                    && (t.Ok? ==>
                          var j := CodeGen.EmitJump(t.value);
                          && (j.Err? ==> Branch(st, d, cond) == Err(j.msg))
                          && (j.Ok? ==> Branch(st, d, cond) == Ok((CodeGen.ExprFree(j.value.0, d1), j.value.1)))))
  {
    hide Emit, CodeGen.EmitJump, CodeGen.BranchOperand, CodeGen.ExprFree;
  }

  lemma DischargeHere(st: State, d: Desc)
    requires d.kind.NonRelocK?
    ensures Discharge(st, d) == Ok((st, d))
  {
  }

  lemma ResolveNeedsLoads(st: State, d: Desc, r: Reg)
    requires CodeGen.NoValue(st.code, d.tj) || CodeGen.NoValue(st.code, d.fj)
    ensures Loads(st, r).Err? ==> Resolve(st, d, r) == Err(Loads(st, r).msg)
  {
    hide Loads, PatchBoth;
  }

  lemma ResolveIs(st: State, d: Desc, r: Reg, noValue: bool, st1: State)
    requires noValue == (CodeGen.NoValue(st.code, d.tj) || CodeGen.NoValue(st.code, d.fj))
    requires if noValue then Loads(st, r) == Ok(st1) && |st1.code| >= 3 else st1 == st
    ensures var end := |st1.code|;
      var c := PatchBoth(st1.code, d, end, r, if noValue then end - 3 else end, if noValue then end - 1 else end);
      Resolve(st, d, r) == if c.Ok? then Ok(st1.(code := c.value)) else Err(c.msg)
  {
    hide Loads, PatchBoth;
  }

  lemma EmitOk(st: State, i: Instr)
    requires st.pending == []
    ensures Emit(st, i) == Ok(st.(code := st.code + [i]))
  {
  }

  /** Code stays tidy while the two loads are added. */
  lemma LoadsTidy(c: seq<Instr>, r: Reg, a: Reg, lists: multiset<nat>)
    requires Tidy(c, lists) && !EndsInTest(c) && r < NO_REG && a < NO_REG && c != []
    ensures var i1, i2, i3 := Instr(Primitive, r, 2), InstrAJ(Jump, a, 1), Instr(Primitive, r, 1);
      && Tidy(c + [i1], lists) && Tidy(c + [i1] + [i2], lists) && Tidy(c + [i1] + [i2] + [i3], lists)
  {
    var i1, i2, i3 := Instr(Primitive, r, 2), InstrAJ(Jump, a, 1), Instr(Primitive, r, 1);
    EmitTidy(c, i1, lists);
    assert lists + Opened(i1, |c|) == lists;
    EmitTidy(c + [i1], i2, lists);
    assert lists + Opened(i2, |c| + 1) == lists;
    EmitTidy(c + [i1] + [i2], i3, lists);
    assert lists + Opened(i3, |c| + 2) == lists;
  }

  /** Patching one list leaves the links of the others alone. */
  lemma SameOthers(c: seq<Instr>, c': seq<Instr>, a: seq<Instr>, list: seq<nat>, outer: multiset<nat>)
    requires Tidy(a, multiset(list) + outer)
    requires forall j: nat {:trigger SameAt(c, c', j)} | Open(a, j) && j !in list :: SameAt(c, c', j)
    ensures Same(c, c', outer)
  {
    OuterOpen(a, list, outer);
    forall j: nat | j in outer ensures SameAt(c, c', j) {
      assert Open(a, j);
    }
  }

  lemma SameRefl(c: seq<Instr>, a: seq<Instr>, lists: multiset<nat>, jumps: multiset<nat>)
    requires Tidy(a, lists) && |a| == |c| && jumps <= lists
    ensures Same(c, c, jumps)
  {
    forall j: nat | j in jumps ensures SameAt(c, c, j) {
      assert lists[j] == if Open(a, j) then 1 else 0;
    }
  }

  lemma PutSame(c0: seq<Instr>, pos: nat, i: Instr, a0: seq<Instr>, lists: multiset<nat>)
    requires Tidy(a0, lists) && |a0| == |c0| && pos < |c0| && !Open(a0, pos)
    ensures Same(c0, c0[pos := i], lists)
  {
    forall j: nat | j in lists ensures SameAt(c0, c0[pos := i], j) {
      assert lists[j] == if Open(a0, j) then 1 else 0;
    }
  }

  lemma NewJumpOpen(a: seq<Instr>, i: Instr, list: seq<nat>)
    requires AllOpen(a, list) && i.op == Jump && i.d == UNPATCHED
    ensures var len: nat := |a|; AllOpen(a + [i], [len] + list)
  {
    var len: nat := |a|;
    forall j | j in [len] + list ensures Open(a + [i], j) {
      assert j != len ==> Open(a, j);
    }
    forall x, y | 0 <= x < y < |[len] + list| ensures ([len] + list)[x] != ([len] + list)[y] {
      assert list[y - 1] in list;
      assert Open(a, list[y - 1]);
    }
  }
}
