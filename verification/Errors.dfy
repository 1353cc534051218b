/** When a function compiles, and what its errors mean (src/parse.c): bounds that can be read off the
    tree, for the code that the distances of jumps are in, and for the constants. */
module Errors {
  import opened Bytecode
  import opened Machine
  import opened Source
  import opened CodeGen

  /** Code of up to so many instructions has no distance that 16 bits cannot hold. */
  const LIMIT := 0x8000
  const MANY := 0x1_0000

  // ----- bounds -----

  /** Instructions that put the value of e into a register. */
  function Placing(e: Expr): nat { if e.And? || e.Or? then 5 else 1 }

  /** Instructions of e itself. */
  function Size(e: Expr): nat {
    match e
    case Minus(e) => Size(e) + Placing(e) + 1
    case Bang(e) => Size(e) + Placing(e) + 1
    case Arith(_, l, r) => Size(l) + Placing(l) + Size(r) + Placing(r) + 1
    case Compare(_, l, r) => Size(l) + Placing(l) + Size(r) + Placing(r) + 1
    case And(l, r) => Size(l) + 3 + Size(r) + 1
    case Or(l, r) => Size(l) + 3 + Size(r) + 1
    case _ => 0
  }

  function StmtSize(s: Stmt): nat {
    match s
    case Skip => 0
    case Seq(s1, s2) => StmtSize(s1) + StmtSize(s2)
    case Block(body) => StmtSize(body)
    case VarLocal(e) => Size(e) + Placing(e) + 1
    case VarGlobal(_, e) => Size(e) + Placing(e) + 1
    case SetLocal(_, e) => Size(e) + Placing(e)
    case SetUpvalue(_, e) => Size(e) + Placing(e) + 1
    case SetGlobalVar(_, e) => Size(e) + Placing(e) + 1
    case Do(e) => Size(e) + Placing(e)
    case If(c, yes) => Size(c) + 3 + StmtSize(yes)
    case IfElse(c, yes, no) => Size(c) + 3 + StmtSize(yes) + 1 + StmtSize(no)
    case While(c, body) => Size(c) + 3 + StmtSize(body) + 1
    case Break => 1
    case Continue => 1
    case ReturnValue(e) => Size(e) + Placing(e) + 1
  }

  /** The numbers, the strings and the names of globals in e. */
  function Constants(e: Expr): set<Value> {
    match e
    case Number(n) => {Num(n)}
    case Text(s) => {Str(s)}
    case Global(name) => {Str(name)}
    case Minus(e) => Constants(e)
    case Bang(e) => Constants(e)
    case Arith(_, l, r) => Constants(l) + Constants(r)
    case Compare(_, l, r) => Constants(l) + Constants(r)
    case And(l, r) => Constants(l) + Constants(r)
    case Or(l, r) => Constants(l) + Constants(r)
    case _ => {}
  }

  function StmtConstants(s: Stmt): set<Value> {
    match s
    case Seq(s1, s2) => StmtConstants(s1) + StmtConstants(s2)
    case Block(body) => StmtConstants(body)
    case VarLocal(e) => Constants(e)
    case VarGlobal(name, e) => {Str(name)} + Constants(e)
    case SetLocal(_, e) => Constants(e)
    case SetUpvalue(_, e) => Constants(e)
    case SetGlobalVar(name, e) => {Str(name)} + Constants(e)
    case Do(e) => Constants(e)
    case If(c, yes) => Constants(c) + StmtConstants(yes)
    case IfElse(c, yes, no) => Constants(c) + StmtConstants(yes) + StmtConstants(no)
    case While(c, body) => Constants(c) + StmtConstants(body)
    case ReturnValue(e) => Constants(e)
    case _ => {}
  }

  /** A break or continue is in no loop of s, nor around it. */
  predicate Stray(s: Stmt, inLoop: bool) {
    match s
    case Seq(s1, s2) => Stray(s1, inLoop) || Stray(s2, inLoop)
    case Block(body) => Stray(body, inLoop)
    case If(_, yes) => Stray(yes, inLoop)
    case IfElse(_, yes, no) => Stray(yes, inLoop) || Stray(no, inLoop)
    case Break => !inLoop
    case Continue => !inLoop
    case _ => false
  }

  // ----- what is kept -----

  predicate InCode(list: seq<nat>, n: nat) { forall j | j in list :: j < n }

  /** Jumps are in the code, and constants are of v, none twice. */
  ghost predicate Held(st: State, v: set<Value>) {
    && InCode(st.pending, |st.code|) && (forall c | c in st.consts :: c in v)
    && forall i, j | 0 <= i < j < |st.consts| :: st.consts[i] != st.consts[j]
  }

  predicate Lists(st: State, d: Desc) { InCode(d.tj, |st.code|) && InCode(d.fj, |st.code|) }

  /** The constant that d stands for is one of v. */
  predicate Of(d: Desc, v: set<Value>) { IsConst(d) ==> ConstOf(d) in v }

  /** An error has its reason: n instructions are too many, or the constants v are. */
  ghost predicate Fails(m: string, n: int, v: set<Value>) {
    (m == "Too much code to jump over." && n > LIMIT) || (m == "Too many constants in one chunk." && |v| > MANY)
  }

  /** From st on, n instructions at most. */
  ghost predicate Within(st: State, r: Result<State>, n: nat, v: set<Value>) {
    if r.Ok? then Held(r.value, v) && |st.code| <= |r.value.code| <= |st.code| + n else Fails(r.msg, |st.code| + n, v)
  }

  // ----- jumps -----

  /** A displacement is written exactly for distances from -0x8000 to 0x7fff. */
  lemma NearExact(src: int, dest: int)
    ensures Near(src, dest) <==> -0x8000 <= dest - (src + 1) <= 0x7fff
  {
  }

  lemma {:induction false} PatchListFails(code: seq<Instr>, list: seq<nat>, vt: nat, r: Reg, ot: nat)
    ensures var c := PatchList(code, list, vt, r, ot);
      c.Err? ==> c.msg == "Too much code to jump over." && exists j :: j in list && (!Near(j, vt) || !Near(j, ot))
    decreases list
  {
    if list != [] {
      var c := PatchOne(code, list[0], vt, r, ot);
      if c.Ok? {
        PatchListFails(c.value, list[1..], vt, r, ot);
      } else {
        assert list[0] in list;
      }
    }
  }

  lemma PatchesWithin(code: seq<Instr>, list: seq<nat>, vt: nat, r: Reg, ot: nat, n: nat, v: set<Value>)
    requires InCode(list, n) && vt <= n && ot <= n
    ensures var c := PatchList(code, list, vt, r, ot); if c.Ok? then |c.value| == |code| else Fails(c.msg, n, v)
  {
    PatchListFails(code, list, vt, r, ot);
  }

  lemma AppendWithin(l1: seq<nat>, l2: seq<nat>, n: nat, v: set<Value>)
    requires InCode(l1, n) && InCode(l2, n)
    ensures var l := Append(l1, l2); if l.Ok? then InCode(l.value, n) else Fails(l.msg, n, v)
  {
    if l1 != [] && l2 != [] {
      assert l1[|l1| - 1] in l1 && l2[0] in l2;
    }
  }

  lemma EmitWithin(st: State, i: Instr, v: set<Value>)
    requires Held(st, v)
    ensures Within(st, Emit(st, i), 1, v)
    ensures Emit(st, i).Ok? ==> var st' := Emit(st, i).value;
      |st'.code| == |st.code| + 1 && st' == st.(code := st'.code, pending := [])
  {
    PatchesWithin(st.code, st.pending, |st.code|, NO_REG, |st.code|, |st.code|, v);
  }

  lemma EmitJumpWithin(st: State, v: set<Value>)
    requires Held(st, v)
    ensures var r := EmitJump(st);
      if r.Ok? then
        && Held(r.value.0, v) && |r.value.0.code| == |st.code| + 1 && InCode(r.value.1, |st.code| + 1)
        && r.value.0 == st.(code := r.value.0.code, pending := [])
      else Fails(r.msg, |st.code| + 1, v)
  {
    var i := InstrAJ(Jump, st.nextReg, Cast16(NO_JUMP));
    EmitWithin(st.(pending := []), i, v);
    AppendWithin([|st.code|], st.pending, |st.code| + 1, v);
  }

  lemma ToHereWithin(st: State, list: seq<nat>, v: set<Value>)
    requires Held(st, v) && InCode(list, |st.code|)
    ensures Within(st, ToHere(st, list), 0, v)
    ensures ToHere(st, list).Ok? ==> var st' := ToHere(st, list).value; st' == st.(pending := st'.pending)
  {
    AppendWithin(st.pending, list, |st.code|, v);
  }

  lemma PatchToWithin(st: State, list: seq<nat>, target: nat, v: set<Value>)
    requires Held(st, v) && InCode(list, |st.code|) && target <= |st.code|
    ensures Within(st, PatchTo(st, list, target), 0, v)
  {
    ToHereWithin(st, list, v);
    PatchesWithin(st.code, list, target, NO_REG, target, |st.code|, v);
  }

  // ----- constants -----

  /** As many constants as values that can be one. */
  lemma {:induction false} DistinctFit(consts: seq<Value>, v: set<Value>)
    requires forall c | c in consts :: c in v
    requires forall i, j | 0 <= i < j < |consts| :: consts[i] != consts[j]
    ensures |consts| <= |v|
  {
    if consts != [] {
      assert consts[0] in v;
      forall c | c in consts[1..] ensures c in v - {consts[0]} {
        var i :| 0 <= i < |consts[1..]| && consts[1..][i] == c;
        assert consts[0] != consts[i + 1];
      }
      DistinctFit(consts[1..], v - {consts[0]});
    }
  }

  lemma {:induction false} FindAll(consts: seq<Value>, c: Value)
    ensures Find(consts, c) == |consts| ==> c !in consts
  {
    if consts != [] && consts[0] != c {
      FindAll(consts[1..], c);
    }
  }

  lemma AddWithin(st: State, c: Value, v: set<Value>)
    requires Held(st, v) && c in v
    ensures Held(AddConst(st, c).0, v)
  {
    FindAll(st.consts, c);
  }

  lemma MakeWithin(st: State, c: Value, v: set<Value>)
    requires Held(st, v) && c in v
    ensures var r := MakeConst(st, c);
      if r.Ok? then Held(r.value.0, v) && r.value.0 == st.(consts := r.value.0.consts) else Fails(r.msg, |st.code|, v)
  {
    AddWithin(st, c, v);
    DistinctFit(AddConst(st, c).0.consts, v);
  }

  // ----- operands -----

  /** Instructions that put the value of d into a given register, but for its jumps. */
  function Move(d: Desc): nat { if d.kind.RelocK? then 0 else 1 }

  function Full(d: Desc): nat { Move(d) + if HasJump(d) then 4 else 0 }

  /** The same for any register: a value that is in one stays there. */
  function Need(d: Desc): nat { if d.kind.NonRelocK? && !HasJump(d) then 0 else Full(d) }

  /** From st on, n instructions at most, those that d still needs included. */
  ghost predicate Gives(st: State, r: Result<(State, Desc)>, n: nat, v: set<Value>) {
    if r.Ok? then
      var st' := r.value.0;
      Held(st', v) && Lists(st', r.value.1) && Of(r.value.1, v) && |st.code| <= |st'.code| <= |st.code| + n
    else Fails(r.msg, |st.code| + n, v)
  }

  ghost predicate Jumps(st: State, r: Result<(State, seq<nat>)>, n: nat, v: set<Value>) {
    if r.Ok? then
      Held(r.value.0, v) && InCode(r.value.1, |r.value.0.code|) && |st.code| <= |r.value.0.code| <= |st.code| + n
    else Fails(r.msg, |st.code| + n, v)
  }

  ghost predicate Ready(st: State, d: Desc, v: set<Value>) { Held(st, v) && Lists(st, d) && Of(d, v) }

  predicate Settled(d: Desc) { d.kind.NonRelocK? && !HasJump(d) }

  lemma DischargeGives(st: State, d: Desc, v: set<Value>)
    requires Ready(st, d, v)
    ensures Gives(st, Discharge(st, d), Move(d), v)
    ensures var r := Discharge(st, d);
      r.Ok? ==> var (st1, d1) := r.value;
        && d1.tj == d.tj && d1.fj == d.fj && |st1.code| + Move(d1) <= |st.code| + Move(d)
        && (d1.kind.NonRelocK? ==> st1 == st)
  {
    match d.kind
    case UpvalK(k) => EmitWithin(st, Instr(GetUpval, 0, k), v);
    case GlobalK(k) => EmitWithin(st, Instr(GetGlobal, 0, k), v);
    case _ =>
  }

  lemma PlaceWithin(st: State, d: Desc, r: Reg, v: set<Value>)
    requires Ready(st, d, v)
    ensures Within(st, Place(st, d.kind, r), Move(d), v)
  {
    match d.kind
    case PrimK(p) => EmitWithin(st, Instr(Primitive, r, Cast16(p)), v);
    case TextK(s) => ConstWithin(st, Str(s), r, v);
    case NumK(n) => ConstWithin(st, Num(n), r, v);
    case NonRelocK(r') => EmitWithin(st, Instr(Mov, r, r'), v);
    case _ =>
  }

  lemma ConstWithin(st: State, c: Value, r: Reg, v: set<Value>)
    requires Held(st, v) && c in v
    ensures var m := MakeConst(st, c);
      if m.Ok? then Within(st, Emit(m.value.0, Instr(ConstNum, r, m.value.1)), 1, v) else Fails(m.msg, |st.code| + 1, v)
  {
    MakeWithin(st, c, v);
    var m := MakeConst(st, c);
    if m.Ok? {
      EmitWithin(m.value.0, Instr(ConstNum, r, m.value.1), v);
    }
  }

  lemma ToRegNoBranchGives(st: State, d: Desc, r: Reg, v: set<Value>)
    requires Ready(st, d, v)
    ensures Gives(st, ToRegNoBranch(st, d, r), Move(d), v)
    ensures var o := ToRegNoBranch(st, d, r); o.Ok? ==> o.value.1 == Desc(NonRelocK(r), d.tj, d.fj)
  {
    DischargeGives(st, d, v);
    var o := Discharge(st, d);
    if o.Ok? {
      PlaceWithin(o.value.0, o.value.1, r, v);
    }
  }

  lemma LoadsWithin(st: State, r: Reg, v: set<Value>)
    requires Held(st, v)
    ensures Within(st, Loads(st, r), 4, v)
    ensures Loads(st, r).Ok? ==> |Loads(st, r).value.code| == |st.code| + 4
  {
    EmitJumpWithin(st, v);
    var o := EmitJump(st);
    if o.Ok? {
      var (st1, over) := o.value;
      EmitWithin(st1, Instr(Primitive, r, 2), v);
      var o2 := Emit(st1, Instr(Primitive, r, 2));
      if o2.Ok? {
        EmitWithin(o2.value, InstrAJ(Jump, o2.value.nextReg, 1), v);
        var o3 := Emit(o2.value, InstrAJ(Jump, o2.value.nextReg, 1));
        if o3.Ok? {
          EmitWithin(o3.value, Instr(Primitive, r, 1), v);
          var o4 := Emit(o3.value, Instr(Primitive, r, 1));
          if o4.Ok? {
            ToHereWithin(o4.value, over, v);
          }
        }
      }
    }
  }

  lemma BothWithin(code: seq<Instr>, d: Desc, end: nat, r: Reg, f: nat, t: nat, n: nat, v: set<Value>)
    requires InCode(d.tj, n) && InCode(d.fj, n) && end <= n && f <= n && t <= n
    ensures var c := PatchBoth(code, d, end, r, f, t); if c.Ok? then |c.value| == |code| else Fails(c.msg, n, v)
  {
    PatchesWithin(code, d.fj, end, r, f, n, v);
    var c := PatchList(code, d.fj, end, r, f);
    if c.Ok? {
      PatchesWithin(c.value, d.tj, end, r, t, n, v);
    }
  }

  lemma ResolveWithin(st: State, d: Desc, r: Reg, v: set<Value>)
    requires Held(st, v) && Lists(st, d)
    ensures Within(st, Resolve(st, d, r), 4, v)
  {
    hide PatchBoth, Loads;
    var end := |st.code|;
    BothWithin(st.code, d, end, r, end, end, end, v);
    LoadsWithin(st, r, v);
    var o := Loads(st, r);
    if o.Ok? {
      BothWithin(o.value.code, d, end + 4, r, end + 1, end + 3, end + 4, v);
    }
  }

  lemma ToRegGives(st: State, d: Desc, r: Reg, v: set<Value>)
    requires Ready(st, d, v)
    ensures Gives(st, ToReg(st, d, r), Full(d), v)
    ensures ToReg(st, d, r).Ok? ==> Settled(ToReg(st, d, r).value.1)
  {
    ToRegNoBranchGives(st, d, r, v);
    var o := ToRegNoBranch(st, d, r);
    if o.Ok? {
      ResolveWithin(o.value.0, o.value.1, r, v);
    }
  }

  lemma NextRegGives(st: State, d: Desc, v: set<Value>)
    requires Ready(st, d, v)
    ensures Gives(st, NextReg(st, d), Full(d), v)
    ensures NextReg(st, d).Ok? ==> Settled(NextReg(st, d).value.1)
  {
    hide Discharge, ToReg;
    DischargeGives(st, d, v);
    var o := Discharge(st, d);
    if o.Ok? {
      var st2 := RegReserve(ExprFree(o.value.0, o.value.1));
      ToRegGives(st2, o.value.1, Cast8(st2.nextReg - 1), v);
    }
  }

  lemma AnyRegGives(st: State, d: Desc, v: set<Value>)
    requires Ready(st, d, v)
    ensures Gives(st, AnyReg(st, d), Need(d), v)
    ensures AnyReg(st, d).Ok? ==> Settled(AnyReg(st, d).value.1)
  {
    DischargeGives(st, d, v);
    var o := Discharge(st, d);
    if o.Ok? {
      var (st1, d1) := o.value;
      if d1.kind.NonRelocK? {
        ToRegGives(st1, d1, d1.kind.r, v);
      }
      NextRegGives(st1, d1, v);
    }
  }

  lemma ToValGives(st: State, d: Desc, v: set<Value>)
    requires Ready(st, d, v)
    ensures Gives(st, ToVal(st, d), Need(d), v)
    ensures ToVal(st, d).Ok? ==> var (st1, d1) := ToVal(st, d).value; |st1.code| + Need(d1) <= |st.code| + Need(d)
  {
    DischargeGives(st, d, v);
    AnyRegGives(st, d, v);
  }

  lemma OperandGives(st: State, d: Desc, v: set<Value>)
    requires Ready(st, d, v)
    ensures Gives(st, Operand(st, d), Need(d), v)
    ensures Operand(st, d).Ok? ==> Settled(Operand(st, d).value.1)
  {
    ToValGives(st, d, v);
    var o := ToVal(st, d);
    if o.Ok? {
      AnyRegGives(o.value.0, o.value.1, v);
    }
  }

  // ----- branches -----

  lemma BranchJumps(st: State, d: Desc, cond: bool, v: set<Value>)
    requires Ready(st, d, v)
    ensures Jumps(st, Branch(st, d, cond), Move(d) + 2, v)
  {
    hide ToRegNoBranch, Emit, EmitJump, PatchTest;
    if d.kind.RelocK? && At(st.code, d.kind.pos).op == Not {
      var i := At(st.code, d.kind.pos);
      EmitJumpWithin(st.(code := Put(st.code, d.kind.pos, Instr(JumpIf(!cond), 0, i.d))), v);
    } else {
      var st0 := RegReserve(st);
      ToRegNoBranchGives(st0, d, Cast8(st0.nextReg - 1), v);
      var o := BranchOperand(st, d);
      if o.Ok? {
        var i := Instr(CopyJumpIf(cond), NO_REG, RegOf(o.value.1));
        EmitWithin(o.value.0, i, v);
        var o2 := Emit(o.value.0, i);
        if o2.Ok? {
          EmitJumpWithin(o2.value, v);
        }
      }
    }
  }

  lemma BranchOnJumps(st: State, d: Desc, truth: bool, v: set<Value>)
    requires Ready(st, d, v)
    ensures Jumps(st, BranchOn(st, d, truth), 3, v)
  {
    DischargeGives(st, d, v);
    var o := Discharge(st, d);
    if o.Ok? {
      var (st1, d1) := o.value;
      BranchJumps(st1, d1, !truth, v);
      var o2 := Branch(st1, d1, !truth);
      if o2.Ok? {
        var (st2, pc) := o2.value;
        AppendWithin(if truth then d1.fj else d1.tj, pc, |st2.code|, v);
        ToHereWithin(st2, if truth then d1.tj else d1.fj, v);
      }
    }
  }

  // ----- expressions -----

  lemma ArithOperandGives(st: State, d: Desc, v: set<Value>)
    requires Ready(st, d, v)
    ensures var o := ArithOperand(st, d);
      if o.Ok? then Held(o.value.st, v) && |st.code| <= |o.value.st.code| <= |st.code| + Need(d)
      else Fails(o.msg, |st.code| + Need(d), v)
  {
    ToValGives(st, d, v);
    var o := ToVal(st, d);
    if o.Ok? {
      var (st1, d1) := o.value;
      if IsConst(d1) {
        AddWithin(st1, ConstOf(d1), v);
      }
      var st2 := if IsConst(d1) then AddConst(st1, ConstOf(d1)).0 else st1;
      AnyRegGives(st2, d1, v);
    }
  }

  lemma ArithGives(st: State, op: ArithOp, d1: Desc, d2: Desc, v: set<Value>)
    requires Ready(st, d1, v) && Ready(st, d2, v) && Settled(d1)
    ensures Gives(st, EmitArith(st, op, d1, d2), Need(d2) + 1, v)
    ensures EmitArith(st, op, d1, d2).Ok? ==> Full(EmitArith(st, op, d1, d2).value.1) <= 1
  {
    ArithOperandGives(st, d2, v);
    var o := ArithOperand(st, d2);
    if o.Ok? {
      OperandGives(o.value.st, d1, v);
      var o2 := Operand(o.value.st, d1);
      if o2.Ok? {
        var (st2, e1) := o2.value;
        var i := InstrABC(if o.value.vk then ArithVK(op) else ArithVV(op), 0, RegOf(e1), o.value.rc);
        EmitWithin(Release(Release(st2, e1), o.value.d), i, v);
      }
    }
  }

  lemma CompGives(st: State, op: CompOp, d1: Desc, d2: Desc, v: set<Value>)
    requires Ready(st, d1, v) && Ready(st, d2, v) && Settled(d1)
    ensures Gives(st, EmitComp(st, op, d1, d2), Need(d2) + 1, v)
    ensures EmitComp(st, op, d1, d2).Ok? ==> Full(EmitComp(st, op, d1, d2).value.1) <= 1
  {
    OperandGives(st, d1, v);
    var o := Operand(st, d1);
    if o.Ok? {
      var (st1, e1) := o.value;
      OperandGives(st1, d2, v);
      var o2 := Operand(st1, d2);
      if o2.Ok? {
        var (st2, e2) := o2.value;
        EmitWithin(Release(Release(st2, e1), e2), InstrABC(Comp(op), 0, RegOf(e1), RegOf(e2)), v);
      }
    }
  }

  lemma UnaryGives(st: State, op: Op, d: Desc, v: set<Value>)
    requires Ready(st, d, v)
    ensures Gives(st, EmitUnary(st, op, d), Need(d) + 1, v)
    ensures EmitUnary(st, op, d).Ok? ==> Full(EmitUnary(st, op, d).value.1) <= 1
  {
    AnyRegGives(st, d, v);
    var o := AnyReg(st, d);
    if o.Ok? {
      EmitWithin(ExprFree(o.value.0, o.value.1), Instr(op, 0, RegOf(o.value.1)), v);
    }
  }

  /** An expression compiles into Size(e) instructions at most, or there is a reason. */
  lemma {:induction false} CompileGives(st: State, e: Expr, v: set<Value>)
    requires Held(st, v) && Constants(e) <= v
    ensures Gives(st, Compile(st, e), Size(e), v)
    ensures Compile(st, e).Ok? ==> Full(Compile(st, e).value.1) <= Placing(e)
    decreases e, 1
  {
    hide EmitUnary, Held, MakeConst;
    match e
    case Global(name) => MakeWithin(st, Str(name), v);
    case Minus(e) =>
      CompileGives(st, e, v);
      var o := Compile(st, e);
      if o.Ok? {
        UnaryGives(o.value.0, Negate, o.value.1, v);
      }
    case Bang(e) =>
      CompileGives(st, e, v);
      var o := Compile(st, e);
      if o.Ok? {
        UnaryGives(o.value.0, Not, o.value.1, v);
      }
    case Arith(_, _, _) => BinaryGives(st, e, v);
    case Compare(_, _, _) => BinaryGives(st, e, v);
    case And(_, _) => ShortcutGives(st, e, v);
    case Or(_, _) => ShortcutGives(st, e, v);
    case _ =>
  }

  /** The steps of an operator with two operands. */
  function Binary(st: State, e: Expr): Result<(State, Desc)>
    requires e.Arith? || e.Compare?
  {
    var (st1, d1) :- Compile(st, e.l);
    var (st2, e1) :- AnyReg(st1, d1);
    var (st3, d2) :- Compile(st2, e.r);
    if e.Arith? then EmitArith(st3, e.aop, e1, d2) else EmitComp(st3, e.cop, e1, d2)
  }

  lemma BinarySteps(st: State, e: Expr)
    requires e.Arith? || e.Compare?
    ensures Compile(st, e) == Binary(st, e)
  {
    hide AnyReg, EmitArith, EmitComp;
  }

  lemma {:induction false} BinaryGives(st: State, e: Expr, v: set<Value>)
    requires e.Arith? || e.Compare?
    requires Held(st, v) && Constants(e) <= v
    ensures Gives(st, Compile(st, e), Size(e), v)
    ensures Compile(st, e).Ok? ==> Full(Compile(st, e).value.1) <= 1
    decreases e, 0
  {
    hide Compile, AnyReg, EmitArith, EmitComp, Held, IsConst;
    BinarySteps(st, e);
    CompileGives(st, e.l, v);
    var o := Compile(st, e.l);
    if o.Ok? {
      AnyRegGives(o.value.0, o.value.1, v);
      var o2 := AnyReg(o.value.0, o.value.1);
      if o2.Ok? {
        var (st2, d1) := o2.value;
        CompileGives(st2, e.r, v);
        var o3 := Compile(st2, e.r);
        if o3.Ok? {
          if e.Arith? {
            ArithGives(o3.value.0, e.aop, d1, o3.value.1, v);
          } else {
            CompGives(o3.value.0, e.cop, d1, o3.value.1, v);
          }
        }
      }
    }
  }

  /** The end of `and` (truth) and `or`, once both operands are compiled. */
  function Joined(st: State, d: Desc, leave: seq<nat>, truth: bool): Result<(State, Desc)> {
    var (st4, d3) :- Discharge(st, d);
    var l :- Append(if truth then d3.fj else d3.tj, leave);
    Ok((st4, if truth then d3.(fj := l) else d3.(tj := l)))
  }

  lemma JoinedGives(st: State, d: Desc, leave: seq<nat>, truth: bool, v: set<Value>)
    requires Ready(st, d, v) && InCode(leave, |st.code|)
    ensures Gives(st, Joined(st, d, leave, truth), 1, v)
    ensures Joined(st, d, leave, truth).Ok? ==> Full(Joined(st, d, leave, truth).value.1) <= 5
  {
    DischargeGives(st, d, v);
    var o := Discharge(st, d);
    if o.Ok? {
      AppendWithin(if truth then o.value.1.fj else o.value.1.tj, leave, |o.value.0.code|, v);
    }
  }

  function Shortcut(st: State, e: Expr): Result<(State, Desc)>
    requires e.And? || e.Or?
  {
    var (st1, d1) :- Compile(st, e.l);
    var (st2, leave) :- BranchOn(st1, d1, e.And?);
    var (st3, d2) :- Compile(st2, e.r);
    Joined(st3, d2, leave, e.And?)
  }

  lemma ShortcutSteps(st: State, e: Expr)
    requires e.And? || e.Or?
    ensures Compile(st, e) == Shortcut(st, e)
  {
    hide BranchOn, Discharge, Append;
  }

  lemma {:induction false} ShortcutGives(st: State, e: Expr, v: set<Value>)
    requires e.And? || e.Or?
    requires Held(st, v) && Constants(e) <= v
    ensures Gives(st, Compile(st, e), Size(e), v)
    ensures Compile(st, e).Ok? ==> Full(Compile(st, e).value.1) <= 5
    decreases e, 0
  {
    hide Compile, BranchOn, Joined, Held, Of, Full;
    ShortcutSteps(st, e);
    CompileGives(st, e.l, v);
    var o := Compile(st, e.l);
    if o.Ok? {
      BranchOnJumps(o.value.0, o.value.1, e.And?, v);
      var o2 := BranchOn(o.value.0, o.value.1, e.And?);
      if o2.Ok? {
        var (st2, leave) := o2.value;
        CompileGives(st2, e.r, v);
        var o3 := Compile(st2, e.r);
        if o3.Ok? {
          JoinedGives(o3.value.0, o3.value.1, leave, e.And?, v);
        }
      }
    }
  }

  // ----- statements -----

  lemma ConditionJumps(st: State, c: Expr, v: set<Value>)
    requires Held(st, v) && Constants(c) <= v
    ensures Jumps(st, Condition(st, c), Size(c) + 3, v)
  {
    hide Compile, BranchOn, Held;
    CompileGives(st, c, v);
    var o := Compile(st, c);
    if o.Ok? {
      var (st1, d) := o.value;
      BranchOnJumps(st1, if d.kind == PrimK(0) then d.(kind := PrimK(2)) else d, true, v);
    }
  }

  lemma LeaveJumps(st: State, list: seq<nat>, v: set<Value>)
    requires Held(st, v) && InCode(list, |st.code|)
    ensures Jumps(st, Leave(st, list), 1, v)
  {
    EmitJumpWithin(st, v);
    var o := EmitJump(st);
    if o.Ok? {
      AppendWithin(o.value.1, list, |st.code| + 1, v);
    }
  }

  lemma DeclareLocalWithin(st: State, e: Expr, v: set<Value>)
    requires Held(st, v) && Constants(e) <= v
    ensures Within(st, DeclareLocal(st, e), Size(e) + Placing(e) + 1, v)
  {
    hide Compile, NextReg, ToReg;
    var st0 := st.(actVar := Cast8(st.actVar + 1));
    CompileGives(st0, e, v);
    var o := Compile(st0, e);
    if o.Ok? {
      NextRegGives(o.value.0, o.value.1, v);
      var o2 := NextReg(o.value.0, o.value.1);
      if o2.Ok? {
        ToRegGives(ExprFree(o2.value.0, o2.value.1), o2.value.1, st.actVar, v);
      }
    }
  }

  lemma DeclareGlobalWithin(st: State, name: string, e: Expr, v: set<Value>)
    requires Held(st, v) && Constants(e) <= v && Str(name) in v
    ensures Within(st, DeclareGlobal(st, name, e), Size(e) + Placing(e) + 1, v)
  {
    hide MakeConst, Compile, NextReg, AnyReg, Emit, Held;
    MakeWithin(st, Str(name), v);
    var m := MakeConst(st, Str(name));
    if m.Ok? {
      var (st0, k) := m.value;
      CompileGives(st0, e, v);
      var o := Compile(st0, e);
      if o.Ok? {
        NextRegGives(o.value.0, o.value.1, v);
        var o2 := NextReg(o.value.0, o.value.1);
        if o2.Ok? {
          AnyRegGives(o2.value.0, o2.value.1, v);
          var o3 := AnyReg(o2.value.0, o2.value.1);
          if o3.Ok? {
            EmitWithin(o3.value.0, Instr(DefineGlobal, RegOf(o3.value.1), k), v);
          }
        }
      }
    }
  }

  lemma StoreLocalWithin(st: State, x: Reg, e: Expr, v: set<Value>)
    requires Held(st, v) && Constants(e) <= v
    ensures Within(st, StoreLocal(st, x, e), Size(e) + Placing(e), v)
  {
    hide Compile, ToReg, Held;
    CompileGives(st, e, v);
    var o := Compile(st, e);
    if o.Ok? {
      ToRegGives(o.value.0, o.value.1, x, v);
    }
  }

  lemma StoreUpvalueWithin(st: State, u: Reg, e: Expr, v: set<Value>)
    requires Held(st, v) && Constants(e) <= v
    ensures Within(st, StoreUpvalue(st, u, e), Size(e) + Placing(e) + 1, v)
  {
    hide Compile, Operand, Emit, Held;
    CompileGives(st, e, v);
    var o := Compile(st, e);
    if o.Ok? {
      OperandGives(o.value.0, o.value.1, v);
      var o2 := Operand(o.value.0, o.value.1);
      if o2.Ok? {
        EmitWithin(o2.value.0, Instr(SetUpval, u, RegOf(o2.value.1)), v);
      }
    }
  }

  lemma StoreGlobalWithin(st: State, name: string, e: Expr, v: set<Value>)
    requires Held(st, v) && Constants(e) <= v && Str(name) in v
    ensures Within(st, StoreGlobal(st, name, e), Size(e) + Placing(e) + 1, v)
  {
    hide MakeConst, Compile, AnyReg, Emit, Held;
    MakeWithin(st, Str(name), v);
    var m := MakeConst(st, Str(name));
    if m.Ok? {
      var (st0, k) := m.value;
      CompileGives(st0, e, v);
      var o := Compile(st0, e);
      if o.Ok? {
        AnyRegGives(o.value.0, o.value.1, v);
        var o2 := AnyReg(o.value.0, o.value.1);
        if o2.Ok? {
          EmitWithin(o2.value.0, Instr(SetGlobal, RegOf(o2.value.1), k), v);
        }
      }
    }
  }

  lemma EvaluateWithin(st: State, e: Expr, v: set<Value>)
    requires Held(st, v) && Constants(e) <= v
    ensures Within(st, Evaluate(st, e), Size(e) + Placing(e), v)
  {
    hide Compile, AnyReg, Held;
    CompileGives(st, e, v);
    var o := Compile(st, e);
    if o.Ok? {
      AnyRegGives(o.value.0, o.value.1, v);
    }
  }

  lemma EmitReturnWithin(st: State, d: Desc, v: set<Value>)
    requires Ready(st, d, v)
    ensures Within(st, EmitReturn(st, d), Full(d) + 1, v)
  {
    hide AnyReg, Emit, Held;
    AnyRegGives(st, d, v);
    var o := AnyReg(st, d);
    if o.Ok? {
      EmitWithin(o.value.0, Instr(Return, RegOf(o.value.1), 2), v);
    }
  }

  lemma ReturnWithWithin(st: State, e: Expr, v: set<Value>)
    requires Held(st, v) && Constants(e) <= v
    ensures Within(st, ReturnWith(st, e), Size(e) + Placing(e) + 1, v)
  {
    hide Compile, EmitReturn, Held;
    CompileGives(st, e, v);
    var o := Compile(st, e);
    if o.Ok? {
      EmitReturnWithin(o.value.0, o.value.1, v);
    }
  }

  lemma SimpleWithin(st: State, s: Stmt, v: set<Value>)
    requires Held(st, v) && StmtConstants(s) <= v
    ensures Within(st, CompileSimple(st, s), StmtSize(s), v)
  {
    hide Held, Fails, DeclareLocal, DeclareGlobal, StoreLocal, StoreUpvalue, StoreGlobal, Evaluate, ReturnWith;
    match s
    case VarLocal(e) => DeclareLocalWithin(st, e, v);
    case VarGlobal(name, e) => DeclareGlobalWithin(st, name, e, v);
    case SetLocal(x, e) => StoreLocalWithin(st, x, e, v);
    case SetUpvalue(u, e) => StoreUpvalueWithin(st, u, e, v);
    case SetGlobalVar(name, e) => StoreGlobalWithin(st, name, e, v);
    case Do(e) => EvaluateWithin(st, e, v);
    case ReturnValue(e) => ReturnWithWithin(st, e, v);
    case _ =>
  }

  lemma ElseJumps(st: State, flist: seq<nat>, v: set<Value>)
    requires Held(st, v) && InCode(flist, |st.code|)
    ensures Jumps(st, Else(st, flist), 1, v)
  {
    EmitJumpWithin(st, v);
    var o := EmitJump(st);
    if o.Ok? {
      ToHereWithin(o.value.0, flist, v);
    }
  }

  lemma LoopEndWithin(st: State, ls: Loops, start: nat, v: set<Value>)
    requires Held(st, v) && InCode(ls.breaks, |st.code|) && InCode(ls.conts, |st.code|) && start <= |st.code|
    ensures Within(st, LoopEnd(st, ls, start), 1, v)
  {
    EmitJumpWithin(st, v);
    var o := EmitJump(st);
    if o.Ok? {
      var (st1, j) := o.value;
      AppendWithin(ls.conts, j, |st1.code|, v);
      var conts := Append(ls.conts, j);
      if conts.Ok? {
        PatchToWithin(st1, conts.value, start, v);
        var o2 := PatchTo(st1, conts.value, start);
        if o2.Ok? {
          ToHereWithin(o2.value, ls.breaks, v);
        }
      }
    }
  }

  predicate Misplaced(m: string) { m == "Can't use 'break' or 'continue' outside of a loop." }

  predicate LoopsIn(ls: Loops, n: nat) { InCode(ls.breaks, n) && InCode(ls.conts, n) }

  /** What compiling a statement comes to: no break or continue strays and at most n
      instructions, or an error with its reason. */
  ghost predicate Results(st: State, ls: Loops, r: Result<(State, Loops)>, n: nat, stray: bool, v: set<Value>) {
    if r.Ok? then
      var (st', ls') := r.value;
      && Held(st', v) && LoopsIn(ls', |st'.code|) && ls'.inLoop == ls.inLoop
      && |st.code| <= |st'.code| <= |st.code| + n && !stray
    else if Misplaced(r.msg) then stray
    else Fails(r.msg, |st.code| + n, v)
  }

  lemma FailsGrow(m: string, n: int, n': int, v: set<Value>)
    requires n <= n'
    ensures Fails(m, n, v) ==> Fails(m, n', v) && !Misplaced(m)
  {
    assert Misplaced(m) ==> |m| == 50;
    assert Fails(m, n, v) ==> |m| < 50;
  }

  lemma JumpResults(st: State, ls: Loops, list: seq<nat>, v: set<Value>)
    requires Held(st, v) && LoopsIn(ls, |st.code|) && InCode(list, |st.code|)
    ensures var o := Leave(st, list);
      if o.Ok? then
        && Held(EndStatement(o.value.0), v) && |st.code| <= |o.value.0.code| <= |st.code| + 1
        && LoopsIn(ls, |o.value.0.code|) && InCode(o.value.1, |o.value.0.code|)
      else Fails(o.msg, |st.code| + 1, v) && !Misplaced(o.msg)
  {
    hide Leave;
    LeaveJumps(st, list, v);
    var o := Leave(st, list);
    if o.Err? {
      FailsGrow(o.msg, |st.code| + 1, |st.code| + 1, v);
    }
  }

  /** A statement compiles into StmtSize(s) instructions at most, or there is a reason. */
  lemma {:induction false} CompileStmtResults(st: State, ls: Loops, s: Stmt, v: set<Value>)
    requires Held(st, v) && LoopsIn(ls, |st.code|) && StmtConstants(s) <= v
    ensures Results(st, ls, CompileStmt(st, ls, s), StmtSize(s), Stray(s, ls.inLoop), v)
    decreases s, 2
  {
    hide Fails, Leave, CompileSimple, Held;
    match s
    case Seq(s1, s2) => SeqResults(st, ls, s1, s2, v);
    case Block(body) =>
      CompileStmtResults(st, ls, body, v);
      var o := CompileStmt(st, ls, body);
      if o.Ok? {
        HeldRegs(o.value.0, EndStatement(o.value.0.(actVar := st.actVar)), v);
      }
    case If(c, yes) => IfResults(st, ls, c, yes, v);
    case IfElse(c, yes, no) => IfElseResults(st, ls, c, yes, no, v);
    case While(c, body) => WhileResults(st, ls, c, body, v);
    case Break => JumpResults(st, ls, ls.breaks, v);
    case Continue => JumpResults(st, ls, ls.conts, v);
    case _ =>
      SimpleWithin(st, s, v);
      var o := CompileSimple(st, s);
      if o.Ok? {
        HeldRegs(o.value, EndStatement(o.value), v);
      } else {
        FailsGrow(o.msg, |st.code| + StmtSize(s), |st.code| + StmtSize(s), v);
      }
  }

  lemma HeldRegs(st: State, st': State, v: set<Value>)
    requires Held(st, v) && st'.code == st.code && st'.consts == st.consts && st'.pending == st.pending
    ensures Held(st', v)
  {
  }

  /** One thing after another. */
  lemma ResultsThen(st: State, ls: Loops, o: Result<(State, Loops)>, n: nat, stray: bool,
                    o': Result<(State, Loops)>, n': nat, stray': bool, v: set<Value>)
    requires Results(st, ls, o, n, stray, v)
    requires o.Ok? ==> Results(o.value.0, o.value.1, o', n', stray', v)
    ensures Results(st, ls, if o.Ok? then o' else o, n + n', stray || stray', v)
  {
    hide Held, Fails, Misplaced, LoopsIn;
    if o.Err? {
      FailsGrow(o.msg, |st.code| + n, |st.code| + n + n', v);
    } else if o'.Err? {
      FailsGrow(o'.msg, |o.value.0.code| + n', |st.code| + n + n', v);
    }
  }

  lemma SeqSteps(st: State, ls: Loops, s1: Stmt, s2: Stmt)
    ensures var o, s := CompileStmt(st, ls, s1), Seq(s1, s2);
      && CompileStmt(st, ls, s) == (if o.Ok? then CompileStmt(o.value.0, o.value.1, s2) else o)
      && StmtConstants(s) == StmtConstants(s1) + StmtConstants(s2) && StmtSize(s) == StmtSize(s1) + StmtSize(s2)
      && forall inLoop :: Stray(s, inLoop) == (Stray(s1, inLoop) || Stray(s2, inLoop))
  {
  }

  lemma {:induction false} SeqResults(st: State, ls: Loops, s1: Stmt, s2: Stmt, v: set<Value>)
    requires Held(st, v) && LoopsIn(ls, |st.code|) && StmtConstants(Seq(s1, s2)) <= v
    ensures Results(st, ls, CompileStmt(st, ls, Seq(s1, s2)), StmtSize(Seq(s1, s2)), Stray(Seq(s1, s2), ls.inLoop), v)
    decreases Seq(s1, s2), 0
  {
    hide CompileStmt, StmtConstants, StmtSize, Stray, Held, Fails, Misplaced, LoopsIn;
    SeqSteps(st, ls, s1, s2);
    CompileStmtResults(st, ls, s1, v);
    var o := CompileStmt(st, ls, s1);
    if o.Ok? {
      CompileStmtResults(o.value.0, o.value.1, s2, v);
      ResultsThen(st, ls, o, StmtSize(s1), Stray(s1, ls.inLoop), CompileStmt(o.value.0, o.value.1, s2),
                  StmtSize(s2), Stray(s2, ls.inLoop), v);
    } else {
      ResultsThen(st, ls, o, StmtSize(s1), Stray(s1, ls.inLoop), o, StmtSize(s2), Stray(s2, ls.inLoop), v);
    }
  }

  /** What follows a condition, or the first branch of if/else. */
  lemma JumpsThen(st: State, ls: Loops, o: Result<(State, seq<nat>)>, n: nat,
                  o': Result<(State, Loops)>, n': nat, stray: bool, v: set<Value>)
    requires Jumps(st, o, n, v)
    requires if o.Ok? then Results(o.value.0, ls, o', n', stray, v) else o' == Err(o.msg)
    ensures Results(st, ls, o', n + n', stray, v)
  {
    hide Held, Fails, Misplaced, LoopsIn, InCode;
    if o.Err? {
      FailsGrow(o.msg, |st.code| + n, |st.code| + n + n', v);
    } else if o'.Err? {
      FailsGrow(o'.msg, |o.value.0.code| + n', |st.code| + n + n', v);
    }
  }

  /** The end of a statement: registers go, and a list comes to here. */
  function Closing(o: Result<(State, Loops)>, list: seq<nat>): Result<(State, Loops)> {
    var (st, ls) :- o;
    var st' :- ToHere(st, list);
    Ok((EndStatement(st'), ls))
  }

  lemma ClosingResults(st: State, ls: Loops, o: Result<(State, Loops)>, list: seq<nat>, n: nat, stray: bool,
                       v: set<Value>)
    requires Results(st, ls, o, n, stray, v) && InCode(list, |st.code|)
    ensures Results(st, ls, Closing(o, list), n, stray, v)
  {
    hide Held, Fails, Misplaced, ToHere;
    if o.Ok? {
      ToHereWithin(o.value.0, list, v);
      var o' := ToHere(o.value.0, list);
      if o'.Ok? {
        HeldRegs(o'.value, EndStatement(o'.value), v);
      } else {
        FailsGrow(o'.msg, |o.value.0.code|, |st.code| + n, v);
      }
    }
  }

  lemma IfSteps(st: State, ls: Loops, c: Expr, yes: Stmt)
    ensures var o, s := Condition(st, c), If(c, yes);
      && CompileStmt(st, ls, s)
          == (if o.Ok? then Closing(CompileStmt(o.value.0, ls, yes), o.value.1) else Err(o.msg))
      && StmtConstants(s) == Constants(c) + StmtConstants(yes) && StmtSize(s) == Size(c) + 3 + StmtSize(yes)
      && forall inLoop :: Stray(s, inLoop) == Stray(yes, inLoop)
  {
    hide Condition, ToHere;
  }

  lemma {:induction false} IfResults(st: State, ls: Loops, c: Expr, yes: Stmt, v: set<Value>)
    requires Held(st, v) && LoopsIn(ls, |st.code|) && StmtConstants(If(c, yes)) <= v
    ensures Results(st, ls, CompileStmt(st, ls, If(c, yes)), StmtSize(If(c, yes)), Stray(If(c, yes), ls.inLoop), v)
    decreases If(c, yes), 0
  {
    hide Condition, CompileStmt, Closing, Held, Fails, Misplaced, StmtConstants, StmtSize, Stray;
    IfSteps(st, ls, c, yes);
    ConditionJumps(st, c, v);
    var o, r := Condition(st, c), CompileStmt(st, ls, If(c, yes));
    if o.Ok? {
      var (st1, flist) := o.value;
      CompileStmtResults(st1, ls, yes, v);
      ClosingResults(st1, ls, CompileStmt(st1, ls, yes), flist, StmtSize(yes), Stray(yes, ls.inLoop), v);
    }
    JumpsThen(st, ls, o, Size(c) + 3, r, StmtSize(yes), Stray(yes, ls.inLoop), v);
  }

  /** The second branch of if/else and the end. */
  function Otherwise(st: State, ls: Loops, flist: seq<nat>, no: Stmt): Result<(State, Loops)> {
    var (st4, escape) :- Else(st, flist);
    Closing(CompileStmt(st4, ls, no), escape)
  }

  lemma {:induction false} OtherwiseResults(st: State, ls: Loops, flist: seq<nat>, no: Stmt, v: set<Value>)
    requires Held(st, v) && LoopsIn(ls, |st.code|) && InCode(flist, |st.code|) && StmtConstants(no) <= v
    ensures Results(st, ls, Otherwise(st, ls, flist, no), StmtSize(no) + 1, Stray(no, ls.inLoop), v)
    decreases no, 3
  {
    hide CompileStmt, Closing, Else, Held, Fails, Misplaced, StmtConstants, StmtSize, Stray;
    ElseJumps(st, flist, v);
    var o := Else(st, flist);
    if o.Ok? {
      var (st4, escape) := o.value;
      CompileStmtResults(st4, ls, no, v);
      ClosingResults(st4, ls, CompileStmt(st4, ls, no), escape, StmtSize(no), Stray(no, ls.inLoop), v);
    }
    JumpsThen(st, ls, o, 1, Otherwise(st, ls, flist, no), StmtSize(no), Stray(no, ls.inLoop), v);
  }

  /** The branches of if/else. */
  function Branches(st: State, ls: Loops, flist: seq<nat>, yes: Stmt, no: Stmt): Result<(State, Loops)> {
    var (st2, ls2) :- CompileStmt(st, ls, yes);
    Otherwise(st2, ls2, flist, no)
  }

  lemma {:induction false} BranchesResults(st: State, ls: Loops, flist: seq<nat>, c: Expr, yes: Stmt, no: Stmt,
                                           v: set<Value>)
    requires Held(st, v) && LoopsIn(ls, |st.code|) && InCode(flist, |st.code|)
    requires StmtConstants(yes) <= v && StmtConstants(no) <= v
    ensures Results(st, ls, Branches(st, ls, flist, yes, no), StmtSize(yes) + (StmtSize(no) + 1),
                    Stray(yes, ls.inLoop) || Stray(no, ls.inLoop), v)
    decreases IfElse(c, yes, no), 0
  {
    hide CompileStmt, Otherwise, Held, Fails, Misplaced, StmtConstants, StmtSize, Stray;
    CompileStmtResults(st, ls, yes, v);
    var o := CompileStmt(st, ls, yes);
    if o.Ok? {
      OtherwiseResults(o.value.0, o.value.1, flist, no, v);
    }
    ResultsThen(st, ls, o, StmtSize(yes), Stray(yes, ls.inLoop), Branches(st, ls, flist, yes, no), StmtSize(no) + 1,
                Stray(no, ls.inLoop), v);
  }

  lemma IfElseSteps(st: State, ls: Loops, c: Expr, yes: Stmt, no: Stmt)
    ensures var o, s := Condition(st, c), IfElse(c, yes, no);
      && CompileStmt(st, ls, s) == (if o.Ok? then Branches(o.value.0, ls, o.value.1, yes, no) else Err(o.msg))
      && StmtConstants(s) == Constants(c) + StmtConstants(yes) + StmtConstants(no)
      && StmtSize(s) == Size(c) + 3 + (StmtSize(yes) + (StmtSize(no) + 1))
      && forall inLoop :: Stray(s, inLoop) == (Stray(yes, inLoop) || Stray(no, inLoop))
  {
    hide Condition, ToHere, Else;
  }

  lemma {:induction false} IfElseResults(st: State, ls: Loops, c: Expr, yes: Stmt, no: Stmt, v: set<Value>)
    requires Held(st, v) && LoopsIn(ls, |st.code|) && StmtConstants(IfElse(c, yes, no)) <= v
    ensures var s := IfElse(c, yes, no);
      Results(st, ls, CompileStmt(st, ls, s), StmtSize(s), Stray(s, ls.inLoop), v)
    decreases IfElse(c, yes, no), 1
  {
    hide Condition, CompileStmt, Branches, Held, Fails, Misplaced, StmtConstants, StmtSize, Stray;
    IfElseSteps(st, ls, c, yes, no);
    ConditionJumps(st, c, v);
    var o, r := Condition(st, c), CompileStmt(st, ls, IfElse(c, yes, no));
    if o.Ok? {
      BranchesResults(o.value.0, ls, o.value.1, c, yes, no, v);
    }
    JumpsThen(st, ls, o, Size(c) + 3, r, StmtSize(yes) + (StmtSize(no) + 1),
              Stray(yes, ls.inLoop) || Stray(no, ls.inLoop), v);
  }

  lemma {:induction false} NothingStraysInLoops(s: Stmt)
    ensures !Stray(s, true)
  {
    match s
    case Seq(s1, s2) =>
      NothingStraysInLoops(s1);
      NothingStraysInLoops(s2);
    case Block(body) => NothingStraysInLoops(body);
    case If(_, yes) => NothingStraysInLoops(yes);
    case IfElse(_, yes, no) =>
      NothingStraysInLoops(yes);
      NothingStraysInLoops(no);
    case _ =>
  }

  /** The body of a loop and its end; the lists of the loops around are left as they were. */
  function Looping(st: State, ls: Loops, start: nat, inner: Loops, body: Stmt): Result<(State, Loops)> {
    var (st2, ls2) :- CompileStmt(st, inner, body);
    var st3 :- LoopEnd(st2, ls2, start);
    Ok((EndStatement(st3), ls))
  }

  lemma {:induction false} LoopingResults(st: State, ls: Loops, start: nat, inner: Loops, body: Stmt, v: set<Value>)
    requires Held(st, v) && LoopsIn(ls, |st.code|) && LoopsIn(inner, |st.code|) && inner.inLoop && start <= |st.code|
    requires StmtConstants(body) <= v
    ensures Results(st, ls, Looping(st, ls, start, inner, body), StmtSize(body) + 1, false, v)
    decreases body, 3
  {
    hide CompileStmt, LoopEnd, Held, Fails, Misplaced, StmtConstants, StmtSize, Stray;
    var n := |st.code| + StmtSize(body) + 1;
    CompileStmtResults(st, inner, body, v);
    NothingStraysInLoops(body);
    var o := CompileStmt(st, inner, body);
    if o.Ok? {
      LoopEndWithin(o.value.0, o.value.1, start, v);
      var o' := LoopEnd(o.value.0, o.value.1, start);
      if o'.Ok? {
        HeldRegs(o'.value, EndStatement(o'.value), v);
      } else {
        FailsGrow(o'.msg, |o.value.0.code| + 1, n, v);
      }
    } else {
      FailsGrow(o.msg, |st.code| + StmtSize(body), n, v);
    }
  }

  lemma WhileSteps(st: State, ls: Loops, c: Expr, body: Stmt)
    ensures var o, s := Condition(st, c), While(c, body);
      && CompileStmt(st, ls, s)
          == (if o.Ok? then Looping(o.value.0, ls, |st.code|, Loops(o.value.1, [], true), body) else Err(o.msg))
      && StmtConstants(s) == Constants(c) + StmtConstants(body) && StmtSize(s) == Size(c) + 3 + (StmtSize(body) + 1)
      && forall inLoop :: !Stray(s, inLoop)
  {
    hide Condition, LoopEnd;
  }

  lemma {:induction false} WhileResults(st: State, ls: Loops, c: Expr, body: Stmt, v: set<Value>)
    requires Held(st, v) && LoopsIn(ls, |st.code|) && StmtConstants(While(c, body)) <= v
    ensures var s := While(c, body);
      Results(st, ls, CompileStmt(st, ls, s), StmtSize(s), Stray(s, ls.inLoop), v)
    decreases While(c, body), 0
  {
    hide Condition, CompileStmt, Looping, Held, Fails, Misplaced, StmtConstants, StmtSize, Stray;
    WhileSteps(st, ls, c, body);
    ConditionJumps(st, c, v);
    var o, r := Condition(st, c), CompileStmt(st, ls, While(c, body));
    if o.Ok? {
      var inner := Loops(o.value.1, [], true);
      LoopingResults(o.value.0, ls, |st.code|, inner, body, v);
    }
    JumpsThen(st, ls, o, Size(c) + 3, r, StmtSize(body) + 1, false, v);
  }

  // ----- whole functions -----

  lemma FinishWithin(st: State, v: set<Value>)
    requires Held(st, v)
    ensures Within(st, Finish(st), 2, v)
  {
    hide EmitReturn;
    EmitReturnWithin(st, Desc(PrimK(0), [], []), v);
  }

  /** What the message of an error says of a function. */
  ghost predicate Reason(m: string, body: Stmt) {
    || (m == "Can't use 'break' or 'continue' outside of a loop." && Stray(body, false))
    || (m == "Too much code to jump over." && StmtSize(body) + 2 > 0x8000)
    || (m == "Too many constants in one chunk." && |StmtConstants(body)| > 0x1_0000)
  }

  lemma FailsReason(m: string, n: int, body: Stmt)
    requires n <= StmtSize(body) + 2
    ensures (Misplaced(m) && Stray(body, false)) || Fails(m, n, StmtConstants(body)) ==> Reason(m, body)
  {
    hide StmtSize, StmtConstants, Stray;
  }

  /** The errors of a function, and what they mean: for every body. */
  lemma CompileErrors(params: Reg, body: Stmt)
    ensures var r := CompileBody(params, body);
      if r.Ok? then !Stray(body, false) && |r.value.code| <= StmtSize(body) + 2
      else Reason(r.msg, body)
  {
    hide CompileStmt, Finish, Stray, StmtSize, StmtConstants, Fails, Misplaced, Reason;
    var st, ls, v := InitialState(params), Loops([], [], false), StmtConstants(body);
    CompileStmtResults(st, ls, body, v);
    var o := CompileStmt(st, ls, body);
    if o.Ok? {
      var st' := EndStatement(o.value.0.(actVar := 0));
      HeldRegs(o.value.0, st', v);
      FinishWithin(st', v);
      if Finish(st').Err? {
        FailsReason(Finish(st').msg, |st'.code| + 2, body);
      }
    } else {
      FailsReason(o.msg, StmtSize(body), body);
    }
  }

  /** A function within the bounds compiles exactly when its breaks and continues are in loops. */
  lemma CompilesWhen(params: Reg, body: Stmt)
    requires StmtSize(body) + 2 <= 0x8000 && |StmtConstants(body)| <= 0x1_0000
    ensures CompileBody(params, body).Ok? <==> !Stray(body, false)
    ensures Stray(body, false) ==>
              CompileBody(params, body) == Err("Can't use 'break' or 'continue' outside of a loop.")
  {
    CompileErrors(params, body);
  }
}
