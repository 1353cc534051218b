/** Code generation (src/parse.c) as functions on values.

    An unresolved jump list is here the sequence of its positions, in the order in which
    the chain visits them; its jumps keep the displacement UNPATCHED.  The class in
    Compiler.dfy threads the chains through the code and is proved against these functions. */
module CodeGen {
  import opened Bytecode
  import opened Machine
  import opened Source

  datatype State = State(
    code: seq<Instr>, consts: seq<Value>,
    nextReg: Reg, actVar: Reg, maxReg: Reg,
    pending: seq<nat>)

  /** expressionType with the data that goes with it. */
  datatype Kind =
    | PrimK(p: nat) | TextK(s: string) | NumK(n: Double)
    | RelocK(pos: nat) | NonRelocK(r: Reg)
    | GlobalK(k: Half) | UpvalK(k: Half) | LocalK(r: Reg)

  datatype Desc = Desc(kind: Kind, tj: seq<nat>, fj: seq<nat>)

  const TOO_FAR := "Too much code to jump over."
  const TOO_MANY_CONSTANTS := "Too many constants in one chunk."
  const NOT_IN_LOOP := "Can't use 'break' or 'continue' outside of a loop."

  predicate HasJump(d: Desc) { d.tj != [] || d.fj != [] }

  // ----- reading and writing words -----

  function At(code: seq<Instr>, i: int): Instr {
    if 0 <= i < |code| then code[i] else Instr(Primitive, 0, 0)
  }

  function Put(code: seq<Instr>, i: int, x: Instr): seq<Instr> {
    if 0 <= i < |code| then code[i := x] else code
  }

  predicate IsCopy(i: Instr) { i.op.CopyJumpIf? }

  /** OP_COPY_JUMP_IF_x to OP_JUMP_IF_x. */
  function Plain(i: Instr): Instr
    requires IsCopy(i)
  {
    Instr(JumpIf(i.op.cond), 0, i.d)
  }

  // ----- jump lists -----

  /** Where jump_patch_test_reg looks: the word before the jump, if there is one. */
  function TestOf(pc: nat): nat { if pc >= 1 then pc - 1 else pc }

  function PatchTest(code: seq<Instr>, pc: nat, r: Reg): (res: (seq<Instr>, bool))
    ensures |res.0| == |code|
  {
    var ip := TestOf(pc);
    var i := At(code, ip);
    if IsCopy(i) then
      (Put(code, ip, if r == NO_REG || r == i.d then Plain(i) else i.(a := r)), true)
    else if i.a == NO_REG then
      if r == NO_REG then (Put(code, ip, InstrAJ(Jump, At(code, pc).a, 0)), true)
      else
        var c := Put(code, ip, i.(a := r));
        (if r >= At(c, ip + 1).a then Put(c, ip + 1, At(c, ip + 1).(a := Cast8(r + 1))) else c, true)
    else (code, false)
  }

  predicate Near(src: int, dest: int) { 0 <= dest - (src + 1) + JUMP_BIAS <= MAX_D }

  function JumpTo(i: Instr, src: int, dest: int): Instr
    requires Near(src, dest)
  {
    i.(d := dest - (src + 1) + JUMP_BIAS)
  }

  function PatchJump(code: seq<Instr>, src: nat, dest: nat): (res: Result<seq<Instr>>)
    ensures res.Ok? ==> |res.value| == |code|
  {
    if Near(src, dest) then Ok(Put(code, src, JumpTo(At(code, src), src, dest))) else Err(TOO_FAR)
  }

  function PatchOne(code: seq<Instr>, pc: nat, valueTarget: nat, r: Reg, otherTarget: nat): (res: Result<seq<Instr>>)
    ensures res.Ok? ==> |res.value| == |code|
  {
    var (c, isTest) := PatchTest(code, pc, r);
    PatchJump(c, pc, if isTest then valueTarget else otherTarget)
  }

  /** jump_patch_value. */
  function PatchList(code: seq<Instr>, list: seq<nat>, valueTarget: nat, r: Reg,
                     otherTarget: nat): (res: Result<seq<Instr>>)
    ensures res.Ok? ==> |res.value| == |code|
    decreases list
  {
    if list == [] then Ok(code)
    else
      var c :- PatchOne(code, list[0], valueTarget, r, otherTarget);
      PatchList(c, list[1..], valueTarget, r, otherTarget)
  }

  /** jump_append: a link too long to be written is an error. */
  function Append(l1: seq<nat>, l2: seq<nat>): Result<seq<nat>> {
    if l2 == [] || l1 == [] then Ok(l1 + l2)
    else if Near(l1[|l1| - 1], l2[0]) then Ok(l1 + l2)
    else Err(TOO_FAR)
  }

  /** jump_novalue: some member is not preceded by a test that leaves its value. */
  predicate NoValue(code: seq<Instr>, list: seq<nat>) {
    list != [] && (
      var i := At(code, TestOf(list[0]));
      !(IsCopy(i) || i.a == NO_REG) || NoValue(code, list[1..]))
  }

  // ----- emitting -----

  function Emit(st: State, i: Instr): (res: Result<State>)
    ensures res.Ok? ==> |res.value.code| == |st.code| + 1
  {
    var c :- PatchList(st.code, st.pending, |st.code|, NO_REG, |st.code|);
    Ok(st.(code := c + [i], pending := []))
  }

  /** _emit_jump for OP_JUMP: the pending jumps join the list of the new one. */
  function EmitJump(st: State): (res: Result<(State, seq<nat>)>)
    ensures res.Ok? ==> |st.code| <= |res.value.0.code|
  {
    var st1 :- Emit(st.(pending := []), InstrAJ(Jump, st.nextReg, Cast16(NO_JUMP)));
    var list :- Append([|st.code|], st.pending);
    Ok((st1, list))
  }

  /** jump_to_here. */
  function ToHere(st: State, list: seq<nat>): Result<State> {
    var pending :- Append(st.pending, list);
    Ok(st.(pending := pending))
  }

  /** jump_patch. */
  function PatchTo(st: State, list: seq<nat>, target: nat): (res: Result<State>)
    ensures res.Ok? ==> |res.value.code| == |st.code|
  {
    if target == |st.code| then ToHere(st, list)
    else
      var c :- PatchList(st.code, list, target, NO_REG, target);
      Ok(st.(code := c))
  }

  // ----- constants and registers -----

  function Find(consts: seq<Value>, v: Value): (i: nat)
    ensures i <= |consts|
    ensures i < |consts| ==> consts[i] == v
  {
    if consts == [] || consts[0] == v then 0 else 1 + Find(consts[1..], v)
  }

  /** addConstant for strings and numbers. */
  function AddConst(st: State, v: Value): (r: (State, nat))
    ensures st.consts <= r.0.consts && r.1 < |r.0.consts| && r.0.consts[r.1] == v
    ensures r.0 == st.(consts := r.0.consts)
  {
    var i := Find(st.consts, v);
    (if i < |st.consts| then st else st.(consts := st.consts + [v]), i)
  }

  function MakeConst(st: State, v: Value): Result<(State, Half)> {
    var (st', i) := AddConst(st, v);
    if i > 0xffff then Err(TOO_MANY_CONSTANTS) else Ok((st', i))
  }

  function RegReserve(st: State): State {
    var sz := Cast8(st.nextReg + 1);
    st.(nextReg := sz, maxReg := if sz > st.maxReg then sz else st.maxReg)
  }

  function RegFree(st: State, r: Reg): State {
    if r == 255 then st
    else if r >= st.actVar then st.(nextReg := Cast8(st.nextReg - 1))
    else st
  }

  function ExprFree(st: State, d: Desc): State {
    if d.kind.NonRelocK? then RegFree(st, d.kind.r) else st
  }

  /** What emit_arith and emit_comp do instead of regFree. */
  function Release(st: State, d: Desc): State {
    if d.kind.NonRelocK? && d.kind.r >= st.actVar then st.(nextReg := Cast8(st.nextReg - 1)) else st
  }

  // ----- expressions -----

  function Discharge(st: State, d: Desc): (res: Result<(State, Desc)>)
    ensures res.Ok? ==> |st.code| <= |res.value.0.code|
  {
    match d.kind
    case UpvalK(k) =>
      var st' :- Emit(st, Instr(GetUpval, 0, k));
      Ok((st', d.(kind := RelocK(|st.code|))))
    case GlobalK(k) =>
      var st' :- Emit(st, Instr(GetGlobal, 0, k));
      Ok((st', d.(kind := RelocK(|st.code|))))
    case LocalK(r) => Ok((st, d.(kind := NonRelocK(r))))
    case _ => Ok((st, d))
  }

  /** The end of exprToRegNoBranch, on a discharged description. */
  function Place(st: State, k: Kind, r: Reg): (res: Result<State>)
    ensures res.Ok? ==> |st.code| <= |res.value.code|
  {
    match k
    case PrimK(p) => Emit(st, Instr(Primitive, r, Cast16(p)))
    case TextK(s) => var (st1, i) :- MakeConst(st, Str(s)); Emit(st1, Instr(ConstNum, r, i))
    case NumK(n) => var (st1, i) :- MakeConst(st, Num(n)); Emit(st1, Instr(ConstNum, r, i))
    case RelocK(pos) => Ok(st.(code := Put(st.code, pos, At(st.code, pos).(a := r))))
    case NonRelocK(r') => if r' == r then Ok(st) else Emit(st, Instr(Mov, r, r'))
    case _ => Ok(st)
  }

  function ToRegNoBranch(st: State, d: Desc, r: Reg): (res: Result<(State, Desc)>)
    ensures res.Ok? ==> |st.code| <= |res.value.0.code|
  {
    var (st1, d1) :- Discharge(st, d);
    var st2 :- Place(st1, d1.kind, r);
    Ok((st2, d1.(kind := NonRelocK(r))))
  }

  /** The two loads that jumps without a value go to, in exprToReg. */
  function Loads(st: State, r: Reg): (res: Result<State>)
    ensures res.Ok? ==> |st.code| <= |res.value.code|
  {
    var (st1, over) :- EmitJump(st);
    var st2 :- Emit(st1, Instr(Primitive, r, 2));
    var st3 :- Emit(st2, InstrAJ(Jump, st2.nextReg, 1));
    var st4 :- Emit(st3, Instr(Primitive, r, 1));
    ToHere(st4, over)
  }

  /** The patching of both lists in exprToReg.  When every jump leaves a value there is no
      other target (NO_JUMP in the source); `end` stands in for it. */
  function Resolve(st: State, d: Desc, r: Reg): (res: Result<State>)
    ensures res.Ok? ==> |st.code| <= |res.value.code|
  {
    if NoValue(st.code, d.tj) || NoValue(st.code, d.fj) then
      var st1 :- Loads(st, r);
      var end := |st1.code|;
      var c :- PatchBoth(st1.code, d, end, r, if end >= 3 then end - 3 else 0, if end >= 1 then end - 1 else 0);
      Ok(st1.(code := c))
    else
      var end := |st.code|;
      var c :- PatchBoth(st.code, d, end, r, end, end);
      Ok(st.(code := c))
  }

  function PatchBoth(code: seq<Instr>, d: Desc, end: nat, r: Reg, loadFalse: nat,
                     loadTrue: nat): (res: Result<seq<Instr>>)
    ensures res.Ok? ==> |res.value| == |code|
  {
    var c :- PatchList(code, d.fj, end, r, loadFalse);
    PatchList(c, d.tj, end, r, loadTrue)
  }

  function ToReg(st: State, d: Desc, r: Reg): (res: Result<(State, Desc)>)
    ensures res.Ok? ==> |st.code| <= |res.value.0.code|
  {
    var (st1, d1) :- ToRegNoBranch(st, d, r);
    if HasJump(d1) then
      var st2 :- Resolve(st1, d1, r);
      Ok((st2, Desc(NonRelocK(r), [], [])))
    else Ok((st1, Desc(NonRelocK(r), [], [])))
  }

  function NextReg(st: State, d: Desc): (res: Result<(State, Desc)>)
    ensures res.Ok? ==> |st.code| <= |res.value.0.code|
  {
    var (st1, d1) :- Discharge(st, d);
    var st2 := RegReserve(ExprFree(st1, d1));
    ToReg(st2, d1, Cast8(st2.nextReg - 1))
  }

  function AnyReg(st: State, d: Desc): (res: Result<(State, Desc)>)
    ensures res.Ok? ==> |st.code| <= |res.value.0.code|
  {
    var (st1, d1) :- Discharge(st, d);
    if d1.kind.NonRelocK? then
      if !HasJump(d1) then Ok((st1, d1))
      else if d1.kind.r >= st1.actVar then ToReg(st1, d1, d1.kind.r)
      else NextReg(st1, d1)
    else NextReg(st1, d1)
  }

  /** expr_toval. */
  function ToVal(st: State, d: Desc): (res: Result<(State, Desc)>)
    ensures res.Ok? ==> |st.code| <= |res.value.0.code|
  {
    if HasJump(d) then AnyReg(st, d) else Discharge(st, d)
  }

  /** emit_branch: a jump taken when the value is truthy (cond) or falsey. */
  function Branch(st: State, d: Desc, cond: bool): (res: Result<(State, seq<nat>)>)
    ensures res.Ok? ==> |st.code| <= |res.value.0.code|
  {
    if d.kind.RelocK? && At(st.code, d.kind.pos).op == Not then
      var i := At(st.code, d.kind.pos);
      EmitJump(st.(code := Put(st.code, d.kind.pos, Instr(JumpIf(!cond), 0, i.d))))
    else
      var (st1, d1) :- BranchOperand(st, d);
      var st2 :- Emit(st1, Instr(CopyJumpIf(cond), NO_REG, RegOf(d1)));
      var (st3, pc) :- EmitJump(st2);
      Ok((ExprFree(st3, d1), pc))
  }

  function BranchOperand(st: State, d: Desc): (res: Result<(State, Desc)>)
    ensures res.Ok? ==> |st.code| <= |res.value.0.code|
  {
    if d.kind.NonRelocK? then Ok((st, d))
    else
      var st1 := RegReserve(st);
      ToRegNoBranch(st1, d, Cast8(st1.nextReg - 1))
  }

  /** emit_branch_true (truth) and emit_branch_false: control falls through when the value has
      that truth, and leaves by the list when it has not. */
  function BranchOn(st: State, d: Desc, truth: bool): (res: Result<(State, seq<nat>)>)
    ensures res.Ok? ==> |st.code| <= |res.value.0.code|
  {
    var (st1, d1) :- Discharge(st, d);
    var (st2, pc) :- Branch(st1, d1, !truth);
    var leave :- Append(if truth then d1.fj else d1.tj, pc);
    var st3 :- ToHere(st2, if truth then d1.tj else d1.fj);
    Ok((st3, leave))
  }

  /** expr_toval and exprAnyReg. */
  function Operand(st: State, d: Desc): (res: Result<(State, Desc)>)
    ensures res.Ok? ==> |st.code| <= |res.value.0.code|
  {
    var (st1, d1) :- ToVal(st, d);
    AnyReg(st1, d1)
  }

  function RegOf(d: Desc): Reg { if d.kind.NonRelocK? then d.kind.r else 0 }

  function EmitArith(st: State, op: ArithOp, d1: Desc, d2: Desc): (res: Result<(State, Desc)>)
    ensures res.Ok? ==> |st.code| <= |res.value.0.code|
  {
    var o :- ArithOperand(st, d2);
    var (st2, e1) :- Operand(o.st, d1);
    var st3 := Release(Release(st2, e1), o.d);
    var st4 :- Emit(st3, InstrABC(if o.vk then ArithVK(op) else ArithVV(op), 0, RegOf(e1), o.rc));
    Ok((st4, Desc(RelocK(|st3.code|), [], [])))
  }

  /** rc is the index of a constant (vk) or a register. */
  datatype Right = Right(st: State, d: Desc, vk: bool, rc: Reg)

  /** A small constant stays a constant, anything else goes to a register. */
  function ArithOperand(st: State, d: Desc): (res: Result<Right>)
    ensures res.Ok? ==> |st.code| <= |res.value.st.code|
  {
    var (st1, d1) :- ToVal(st, d);
    var (st2, i) := if IsConst(d1) then AddConst(st1, ConstOf(d1)) else (st1, 0);
    if IsConst(d1) && i <= 0xff then Ok(Right(st2, d1, true, i))
    else
      var (st3, d3) :- AnyReg(st2, d1);
      Ok(Right(st3, d3, false, RegOf(d3)))
  }

  predicate IsConst(d: Desc) { d.kind.NumK? || d.kind.TextK? }

  function ConstOf(d: Desc): Value
    requires IsConst(d)
  {
    if d.kind.NumK? then Num(d.kind.n) else Str(d.kind.s)
  }

  function EmitComp(st: State, op: CompOp, d1: Desc, d2: Desc): (res: Result<(State, Desc)>)
    ensures res.Ok? ==> |st.code| <= |res.value.0.code|
  {
    var (st1, e1) :- Operand(st, d1);
    var (st2, e2) :- Operand(st1, d2);
    var st3 := Release(Release(st2, e1), e2);
    var st4 :- Emit(st3, InstrABC(Comp(op), 0, RegOf(e1), RegOf(e2)));
    Ok((st4, Desc(RelocK(|st3.code|), [], [])))
  }

  /** The operator case of `unary`; exprInit takes the position as a uint16_t. */
  function EmitUnary(st: State, op: Op, d: Desc): (res: Result<(State, Desc)>)
    ensures res.Ok? ==> |st.code| <= |res.value.0.code|
  {
    var (st1, d1) :- AnyReg(st, d);
    var st2 := ExprFree(st1, d1);
    var st3 :- Emit(st2, Instr(op, 0, RegOf(d1)));
    Ok((st3, Desc(RelocK(Cast16(|st2.code|)), [], [])))
  }

  /** `binary` and the functions under it, on the tree they parse. */
  function Compile(st: State, e: Expr): (res: Result<(State, Desc)>)
    ensures res.Ok? ==> |st.code| <= |res.value.0.code|
    decreases e
  {
    match e
    case Prim(p) => Ok((st, Desc(PrimK(p), [], [])))
    case Number(n) => Ok((st, Desc(NumK(n), [], [])))
    case Text(s) => Ok((st, Desc(TextK(s), [], [])))
    case Local(x) => Ok((st, Desc(LocalK(x), [], [])))
    case Upval(u) => Ok((st, Desc(UpvalK(u), [], [])))
    case Global(name) =>
      var (st1, k) :- MakeConst(st, Str(name));
      Ok((st1, Desc(GlobalK(k), [], [])))
    case Minus(e) => var (st1, d) :- Compile(st, e); EmitUnary(st1, Negate, d)
    case Bang(e) => var (st1, d) :- Compile(st, e); EmitUnary(st1, Not, d)
    case Arith(op, l, r) =>
      var (st1, d1) :- Compile(st, l);
      var (st2, d1') :- AnyReg(st1, d1);
      var (st3, d2) :- Compile(st2, r);
      EmitArith(st3, op, d1', d2)
    case Compare(op, l, r) =>
      var (st1, d1) :- Compile(st, l);
      var (st2, d1') :- AnyReg(st1, d1);
      var (st3, d2) :- Compile(st2, r);
      EmitComp(st3, op, d1', d2)
    case And(l, r) =>
      var (st1, d1) :- Compile(st, l);
      var (st2, leave) :- BranchOn(st1, d1, true);
      var (st3, d2) :- Compile(st2, r);
      var (st4, d3) :- Discharge(st3, d2);
      var fj :- Append(d3.fj, leave);
      Ok((st4, d3.(fj := fj)))
    case Or(l, r) =>
      var (st1, d1) :- Compile(st, l);
      var (st2, leave) :- BranchOn(st1, d1, false);
      var (st3, d2) :- Compile(st2, r);
      var (st4, d3) :- Discharge(st3, d2);
      var tj :- Append(d3.tj, leave);
      Ok((st4, d3.(tj := tj)))
  }

  // ----- statements -----

  /** The break and continue lists of the innermost loop travel with the state. */
  datatype Loops = Loops(breaks: seq<nat>, conts: seq<nat>, inLoop: bool)

  /** expressionCondition: falls through when the condition holds, else leaves by the list. */
  function Condition(st: State, c: Expr): (res: Result<(State, seq<nat>)>)
    ensures res.Ok? ==> |st.code| <= |res.value.0.code|
  {
    var (st1, d) :- Compile(st, c);
    BranchOn(st1, if d.kind == PrimK(0) then d.(kind := PrimK(2)) else d, true)
  }

  function EndStatement(st: State): State { st.(nextReg := st.actVar) }

  /** break and continue: the new jump goes in front of the loop's list. */
  function Leave(st: State, list: seq<nat>): (res: Result<(State, seq<nat>)>)
    ensures res.Ok? ==> |st.code| <= |res.value.0.code|
  {
    var (st1, j) :- EmitJump(st);
    var l :- Append(j, list);
    Ok((st1, l))
  }

  // Statements without control flow.

  function DeclareLocal(st: State, e: Expr): (res: Result<State>)
    ensures res.Ok? ==> |st.code| <= |res.value.code|
  {
    var (st1, d) :- Compile(st.(actVar := Cast8(st.actVar + 1)), e);
    var (st2, d2) :- NextReg(st1, d);
    var (st3, _) :- ToReg(ExprFree(st2, d2), d2, st.actVar);
    Ok(st3)
  }

  function DeclareGlobal(st: State, name: string, e: Expr): (res: Result<State>)
    ensures res.Ok? ==> |st.code| <= |res.value.code|
  {
    var (st0, k) :- MakeConst(st, Str(name));
    var (st1, d) :- Compile(st0, e);
    var (st2, d2) :- NextReg(st1, d);
    var (st3, d3) :- AnyReg(st2, d2);
    Emit(st3, Instr(DefineGlobal, RegOf(d3), k))
  }

  function StoreLocal(st: State, x: Reg, e: Expr): (res: Result<State>)
    ensures res.Ok? ==> |st.code| <= |res.value.code|
  {
    var (st1, d) :- Compile(st, e);
    var (st2, _) :- ToReg(st1, d, x);
    Ok(st2)
  }

  function StoreUpvalue(st: State, u: Reg, e: Expr): (res: Result<State>)
    ensures res.Ok? ==> |st.code| <= |res.value.code|
  {
    var (st1, d) :- Compile(st, e);
    var (st2, d2) :- Operand(st1, d);
    Emit(st2, Instr(SetUpval, u, RegOf(d2)))
  }

  function StoreGlobal(st: State, name: string, e: Expr): (res: Result<State>)
    ensures res.Ok? ==> |st.code| <= |res.value.code|
  {
    var (st0, k) :- MakeConst(st, Str(name));
    var (st1, d) :- Compile(st0, e);
    var (st2, d2) :- AnyReg(st1, d);
    Emit(st2, Instr(SetGlobal, RegOf(d2), k))
  }

  function Evaluate(st: State, e: Expr): (res: Result<State>)
    ensures res.Ok? ==> |st.code| <= |res.value.code|
  {
    var (st1, d) :- Compile(st, e);
    var (st2, _) :- AnyReg(st1, d);
    Ok(st2)
  }

  function ReturnWith(st: State, e: Expr): (res: Result<State>)
    ensures res.Ok? ==> |st.code| <= |res.value.code|
  {
    var (st1, d) :- Compile(st, e);
    EmitReturn(st1, d)
  }

  function CompileSimple(st: State, s: Stmt): (res: Result<State>)
    ensures res.Ok? ==> |st.code| <= |res.value.code|
  {
    match s
    case VarLocal(e) => DeclareLocal(st, e)
    case VarGlobal(name, e) => DeclareGlobal(st, name, e)
    case SetLocal(x, e) => StoreLocal(st, x, e)
    case SetUpvalue(u, e) => StoreUpvalue(st, u, e)
    case SetGlobalVar(name, e) => StoreGlobal(st, name, e)
    case Do(e) => Evaluate(st, e)
    case ReturnValue(e) => ReturnWith(st, e)
    case _ => Ok(st)
  }

  function CompileStmt(st: State, ls: Loops, s: Stmt): (res: Result<(State, Loops)>)
    ensures res.Ok? ==> |st.code| <= |res.value.0.code|
    decreases s
  {
    match s
    case Seq(s1, s2) =>
      var (st1, ls1) :- CompileStmt(st, ls, s1);
      CompileStmt(st1, ls1, s2)
    case Block(body) =>
      var (st1, ls1) :- CompileStmt(st, ls, body);
      Ok((EndStatement(st1.(actVar := st.actVar)), ls1))
    case If(c, yes) =>
      var (st1, flist) :- Condition(st, c);
      var (st2, ls2) :- CompileStmt(st1, ls, yes);
      var st3 :- ToHere(st2, flist);
      Ok((EndStatement(st3), ls2))
    case IfElse(c, yes, no) =>
      var (st1, flist) :- Condition(st, c);
      var (st2, ls2) :- CompileStmt(st1, ls, yes);
      var (st4, escape) :- Else(st2, flist);
      var (st5, ls5) :- CompileStmt(st4, ls2, no);
      var st6 :- ToHere(st5, escape);
      Ok((EndStatement(st6), ls5))
    case While(c, body) =>
      var (st1, flist) :- Condition(st, c);
      var (st2, ls2) :- CompileStmt(st1, Loops(flist, [], true), body);
      var st3 :- LoopEnd(st2, ls2, |st.code|);
      Ok((EndStatement(st3), ls))
    case Break =>
      if !ls.inLoop then Err(NOT_IN_LOOP)
      else
        var (st1, l) :- Leave(st, ls.breaks);
        Ok((EndStatement(st1), ls.(breaks := l)))
    case Continue =>
      if !ls.inLoop then Err(NOT_IN_LOOP)
      else
        var (st1, l) :- Leave(st, ls.conts);
        Ok((EndStatement(st1), ls.(conts := l)))
    case _ =>
      var st1 :- CompileSimple(st, s);
      Ok((EndStatement(st1), ls))
  }

  /** Between the branches of if/else: the first one jumps over the second. */
  function Else(st: State, flist: seq<nat>): (res: Result<(State, seq<nat>)>)
    ensures res.Ok? ==> |st.code| <= |res.value.0.code|
  {
    var (st1, escape) :- EmitJump(st);
    var st2 :- ToHere(st1, flist);
    Ok((st2, escape))
  }

  /** The end of whileStatement: jump back, then let the breaks come here. */
  function LoopEnd(st: State, ls: Loops, start: nat): (res: Result<State>)
    ensures res.Ok? ==> |st.code| <= |res.value.code|
  {
    var (st1, j) :- EmitJump(st);
    var conts :- Append(ls.conts, j);
    var st2 :- PatchTo(st1, conts, start);
    ToHere(st2, ls.breaks)
  }

  /** emitReturn. */
  function EmitReturn(st: State, d: Desc): (res: Result<State>)
    ensures res.Ok? ==> |st.code| <= |res.value.code|
  {
    var (st1, d1) :- AnyReg(st, d);
    Emit(st1, Instr(Return, RegOf(d1), 2))
  }

  /** endCompiler of a function that is not an initializer. */
  function Finish(st: State): Result<State> {
    if st.code == [] || st.pending != [] || st.code[|st.code| - 1].op != Return then
      EmitReturn(st, Desc(PrimK(0), [], []))
    else Ok(st)
  }

  function InitialState(params: Reg): State {
    State([], [], params, params, params, [])
  }

  /** A whole function body with its parameters in the first registers. */
  function CompileBody(params: Reg, body: Stmt): Result<State> {
    var (st, _) :- CompileStmt(InitialState(params), Loops([], [], false), body);
    Finish(EndStatement(st.(actVar := 0)))
  }
}
