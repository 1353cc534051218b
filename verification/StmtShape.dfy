/** Statements keep the code and the jump lists in shape, down to the end of a function. */
module StmtShape {
  import opened Bytecode
  import opened Machine
  import opened Source
  import opened CodeGen
  import opened Positions
  import opened Shape
  import opened ExprShape
  import opened ExprRuns

  /** st1 has the code of a statement that declares so many locals. */
  ghost predicate Done(st: State, st1: State, outer: multiset<nat>, decls: nat) {
    && Sound(st1, |st1.code|, multiset(st1.pending) + outer) && Extends(st, st1)
    && st1.actVar == st.actVar + decls && st1.actVar <= st1.nextReg
  }

  /** e can be compiled, with every local in its register and nothing above them. */
  ghost predicate Ready(st: State, e: Expr, outer: multiset<nat>, upvals: nat) {
    Compilable(st, e, st.actVar, outer, upvals) && st.nextReg == st.actVar
  }

  /** The value of e, compiled in st. */
  lemma ValueShape(st: State, e: Expr, outer: multiset<nat>, upvals: nat)
    requires Ready(st, e, outer, upvals)
    ensures Compile(st, e).Ok? && st.actVar == st.nextReg <= 253
    ensures var (st1, d) := Compile(st, e).value;
      && Described(st1, d, outer, upvals) && Grows(st, |st.code|, st1, st.actVar)
      && st1.actVar == st.actVar == st1.nextReg
      && (d.kind.LocalK? || d.kind.NonRelocK? ==> d.kind.r < st1.actVar) && Usable(st1, d)
      && |st.code| <= Stop(st1, d) && st1.nextReg <= st1.maxReg
  {
    hide Compile, Described, Grows;
    CompileShape(st, e, st.actVar, outer, upvals);
    var (st1, d) := Compile(st, e).value;
    GrowsActVar(st, |st.code|, st1, st.nextReg);
    DescribedRegs(st1, d, outer, upvals);
  }

  lemma ReadySound(st: State, e: Expr, outer: multiset<nat>, upvals: nat)
    requires Ready(st, e, outer, upvals)
    ensures Sound(st, |st.code|, multiset(st.pending) + outer)
  {
  }

  /** The code grew up to a value in a register: all tests that were there are settled. */
  lemma ValueDone(st: State, hi: int, st2: State, d2: Desc, n: int, outer: multiset<nat>, upvals: nat)
    requires Sound(st, |st.code|, multiset(st.pending) + outer) && Grows(st, |st.code|, st2, n)
    requires Described(st2, d2, outer, upvals) && d2.kind.NonRelocK? && !HasJump(d2)
    ensures Extends(st, st2) && Sound(st2, |st2.code|, multiset(st2.pending) + outer) && st2.actVar == st.actVar
    ensures RegsOk(st2)
  {
    hide Described, Grows, Extends, Tidy, Bounded, InRange;
    DescribedParts(st2, d2, outer, upvals);
    DescribedTidy(st2, d2, outer, upvals);
    assert multiset(st2.pending) + (multiset(d2.tj) + multiset(d2.fj) + outer) == multiset(st2.pending) + outer;
    assert Lists(st2, d2) + outer == multiset(st2.pending) + outer;
    GrowsActVar(st, |st.code|, st2, n);
    GrowsExtends(st, st2, n, outer, multiset(st2.pending) + outer);
  }

  /** An instruction with an effect follows. */
  lemma EffectShape(st: State, i: Instr, outer: multiset<nat>)
    requires Sound(st, |st.code|, multiset(st.pending) + outer) && Emit(st, i).Ok?
    requires i.op.SetUpval? || i.op.SetGlobal? || i.op.DefineGlobal? || i.op.Return?
    requires i.a != NO_REG && st.actVar <= st.nextReg && Within(i, st.maxReg)
    ensures Done(st, Emit(st, i).value, outer, 0)
    ensures var st' := Emit(st, i).value;
      st' == st.(code := st'.code, pending := []) && |st'.code| == |st.code| + 1 && st'.code[|st.code|] == i
  {
    hide Emit, Tidy, Bounded, InRange, Extends;
    EmitSound(st, i, outer);
    assert multiset(Emit(st, i).value.pending) + outer == outer;
  }

  lemma DoneTrans(st: State, st1: State, st2: State, outer: multiset<nat>, decls: nat)
    requires Extends(st, st1) && st1.actVar == st.actVar + decls && Done(st1, st2, outer, 0)
    ensures Done(st, st2, outer, decls)
  {
    ExtendsTrans(st, st1, st2);
  }

  // ----- statements without control flow -----

  /** A new constant, before the expression is compiled. */
  lemma AddConstReady(st: State, v: Value, outer: multiset<nat>)
    requires Sound(st, |st.code|, multiset(st.pending) + outer)
    ensures var st0 := AddConst(st, v).0;
      Sound(st0, |st0.code|, multiset(st0.pending) + outer) && Grows(st, |st.code|, st0, NO_REG)
  {
    GrowsRefl(st, |st.code|, NO_REG);
  }

  lemma ConstThenGrows(st: State, v: Value, st2: State, n: int, outer: multiset<nat>)
    requires Sound(st, |st.code|, multiset(st.pending) + outer)
    requires var st0 := AddConst(st, v).0; Grows(st0, |st0.code|, st2, n) && n <= NO_REG
    ensures Grows(st, |st.code|, st2, n)
  {
    hide Grows, Sound;
    AddConstReady(st, v, outer);
    var st0 := AddConst(st, v).0;
    GrowsMono(st, |st.code|, st0, NO_REG, |st.code|, n);
    GrowsTrans(st, |st.code|, st0, |st0.code|, st2, n, n);
  }

  /** exprAnyReg on the value of a statement's expression. */
  lemma InAnyReg(st: State, e: Expr, outer: multiset<nat>, upvals: nat)
    requires Ready(st, e, outer, upvals) && Compile(st, e).Ok?
    requires var (st1, d) := Compile(st, e).value; AnyReg(st1, d).Ok?
    ensures var (st1, d) := Compile(st, e).value;
      var (st2, d2) := AnyReg(st1, d).value;
      && Described(st2, d2, outer, upvals) && d2.kind.NonRelocK? && !HasJump(d2)
      && d2.kind.r < NO_REG && d2.kind.r < st2.maxReg
      && Grows(st, |st.code|, st2, st.actVar) && st2.actVar == st.actVar <= st2.nextReg <= 254
  {
    hide Compile, AnyReg, Described, Grows, Ready;
    ValueShape(st, e, outer, upvals);
    var (st1, d) := Compile(st, e).value;
    AnyRegShape(st1, d, outer, upvals, st.actVar);
    var (st2, d2) := AnyReg(st1, d).value;
    GrowsActVar(st1, Stop(st1, d), st2, st.actVar);
    GrowsTrans(st, |st.code|, st1, Stop(st1, d), st2, st.actVar, st.actVar);
    DescribedParts(st2, d2, outer, upvals);
  }

  lemma EvaluateShape(st: State, e: Expr, outer: multiset<nat>, upvals: nat)
    requires Ready(st, e, outer, upvals) && Evaluate(st, e).Ok?
    ensures Done(st, Evaluate(st, e).value, outer, 0)
  {
    hide Compile, AnyReg, Described, Grows, Ready, Sound, Extends;
    ReadySound(st, e, outer, upvals);
    InAnyReg(st, e, outer, upvals);
    var (st1, d) := Compile(st, e).value;
    var (st2, d2) := AnyReg(st1, d).value;
    ValueDone(st, |st.code|, st2, d2, st.actVar, outer, upvals);
  }

  lemma StoreUpvalueShape(st: State, u: Reg, e: Expr, outer: multiset<nat>, upvals: nat)
    requires Ready(st, e, outer, upvals) && StoreUpvalue(st, u, e).Ok? && u < NO_REG
    ensures Done(st, StoreUpvalue(st, u, e).value, outer, 0)
  {
    hide Compile, Operand, Emit, Described, Grows, Ready, Sound, Extends;
    ReadySound(st, e, outer, upvals);
    ValueShape(st, e, outer, upvals);
    var (st1, d) := Compile(st, e).value;
    OperandShape(st1, d, outer, upvals, st.actVar);
    var (st2, d2) := Operand(st1, d).value;
    GrowsActVar(st1, Stop(st1, d), st2, st.actVar);
    GrowsTrans(st, |st.code|, st1, Stop(st1, d), st2, st.actVar, st.actVar);
    ValueDone(st, |st.code|, st2, d2, st.actVar, outer, upvals);
    EffectShape(st2, Instr(SetUpval, u, d2.kind.r), outer);
    DoneTrans(st, st2, StoreUpvalue(st, u, e).value, outer, 0);
  }

  lemma StoreGlobalShape(st: State, name: string, e: Expr, outer: multiset<nat>, upvals: nat)
    requires Sound(st, |st.code|, multiset(st.pending) + outer)
    requires StoreGlobal(st, name, e).Ok? && Ready(MakeConst(st, Str(name)).value.0, e, outer, upvals)
    ensures Done(st, StoreGlobal(st, name, e).value, outer, 0)
  {
    hide Compile, AnyReg, Emit, Described, Grows, Ready, Sound, Extends;
    var (st0, k) := MakeConst(st, Str(name)).value;
    InAnyReg(st0, e, outer, upvals);
    var (st1, d) := Compile(st0, e).value;
    var (st2, d2) := AnyReg(st1, d).value;
    ConstThenGrows(st, Str(name), st2, st.actVar, outer);
    ValueDone(st, |st.code|, st2, d2, st.actVar, outer, upvals);
    EffectShape(st2, Instr(SetGlobal, d2.kind.r, k), outer);
    DoneTrans(st, st2, StoreGlobal(st, name, e).value, outer, 0);
  }

  lemma DeclareGlobalShape(st: State, name: string, e: Expr, outer: multiset<nat>, upvals: nat)
    requires Sound(st, |st.code|, multiset(st.pending) + outer)
    requires DeclareGlobal(st, name, e).Ok? && Ready(MakeConst(st, Str(name)).value.0, e, outer, upvals)
    ensures Done(st, DeclareGlobal(st, name, e).value, outer, 0)
  {
    hide Compile, NextReg, AnyReg, Emit, Described, Grows, Ready, Sound, Extends;
    var (st0, k) := MakeConst(st, Str(name)).value;
    ValueShape(st0, e, outer, upvals);
    var (st1, d) := Compile(st0, e).value;
    NextRegShape(st1, d, outer, upvals, st.actVar);
    var (st2, d2) := NextReg(st1, d).value;
    HereStays(st2, d2);
    GrowsActVar(st1, Stop(st1, d), st2, st.actVar);
    GrowsTrans(st0, |st0.code|, st1, Stop(st1, d), st2, st.actVar, st.actVar);
    ConstThenGrows(st, Str(name), st2, st.actVar, outer);
    ValueDone(st, |st.code|, st2, d2, st.actVar, outer, upvals);
    EffectShape(st2, Instr(DefineGlobal, d2.kind.r, k), outer);
    DoneTrans(st, st2, DeclareGlobal(st, name, e).value, outer, 0);
  }

  /** Jumps of the expression itself lie beyond the code that was there. */
  lemma OwnElsewhere(st: State, hi: int, st': State, x: int, own: multiset<nat>, hi': int)
    requires GrowsFor(st, hi, st', NO_REG, x, own) && hi' <= hi && forall j: nat | j in own :: j > hi'
    ensures Grows(st, hi', st', NO_REG)
  {
    LaterMono(st.code, st'.code, 0, hi, NO_REG, x, own, 0, hi', NO_REG, x, own);
    forall i | 0 <= i < hi' ensures LaterAt(st.code, st'.code, i, NO_REG, -1, multiset{}) {
      assert LaterAt(st.code, st'.code, i, NO_REG, x, own);
    }
  }

  lemma StoreLocalShape(st: State, x: Reg, e: Expr, outer: multiset<nat>, upvals: nat)
    requires Ready(st, e, outer, upvals) && StoreLocal(st, x, e).Ok? && x < st.actVar
    ensures Done(st, StoreLocal(st, x, e).value, outer, 0)
  {
    hide Compile, ToReg, Described, Grows, GrowsFor, Sound, Extends;
    ReadySound(st, e, outer, upvals);
    ValueShape(st, e, outer, upvals);
    NewJumps(st, e, st.actVar, outer, upvals);
    var (st1, d) := Compile(st, e).value;
    ToRegShape(st1, d, x, outer, upvals, NO_REG, x, OwnOf(d));
    var (st2, d2) := ToReg(st1, d, x).value;
    forall j: nat | j in OwnOf(d) ensures j > |st.code| {
      assert j in d.tj || j in d.fj;
    }
    OwnElsewhere(st1, Stop(st1, d), st2, x, OwnOf(d), |st.code|);
    GrowsTrans(st, |st.code|, st1, |st.code|, st2, st.actVar, NO_REG);
    ValueDone(st, |st.code|, st2, d2, st.actVar, outer, upvals);
  }

  /** The state in which the initializer of a new local is compiled. */
  function Declaring(st: State): State
    requires st.actVar < 255
  {
    st.(actVar := st.actVar + 1)
  }

  lemma DeclaringSound(st: State, outer: multiset<nat>)
    requires Sound(st, |st.code|, multiset(st.pending) + outer) && st.nextReg == st.actVar <= 252
    ensures var st0 := Declaring(st);
      Sound(st0, |st0.code|, multiset(st0.pending) + outer) && Level(st0) == st.actVar + 1
  {
  }

  /** The initializer's value in the next register. */
  lemma InitializerShape(st: State, e: Expr, outer: multiset<nat>, upvals: nat)
    requires st.nextReg == st.actVar <= 252 && Compilable(Declaring(st), e, st.actVar, outer, upvals)
    requires Compile(Declaring(st), e).Ok?
    requires var (st1, d) := Compile(Declaring(st), e).value; NextReg(st1, d).Ok?
    ensures var (st1, d) := Compile(Declaring(st), e).value;
      var (st2, d2) := NextReg(st1, d).value;
      && Described(st2, d2, outer, upvals) && Grows(Declaring(st), |st.code|, st2, st.actVar)
      && st2.actVar == st.actVar + 1 <= st2.nextReg <= st.actVar + 2 && st2.nextReg <= st2.maxReg
      && d2 == Desc(NonRelocK(st2.nextReg - 1), [], [])
  {
    hide Compile, NextReg, Described, Grows, Sound;
    var st0 := Declaring(st);
    CompileShape(st0, e, st.actVar, outer, upvals);
    var (st1, d) := Compile(st0, e).value;
    GrowsActVar(st0, |st0.code|, st1, st0.nextReg);
    DescribedRegs(st1, d, outer, upvals);
    NextRegShape(st1, d, outer, upvals, st.actVar);
    var (st2, d2) := NextReg(st1, d).value;
    GrowsActVar(st1, Stop(st1, d), st2, st.actVar);
    GrowsTrans(st0, |st0.code|, st1, Stop(st1, d), st2, st.actVar, st.actVar);
    DescribedRegs(st2, d2, outer, upvals);
  }

  /** The temporary moves down into the register of the new local. */
  lemma DeclareLocalShape(st: State, e: Expr, outer: multiset<nat>, upvals: nat)
    requires Sound(st, |st.code|, multiset(st.pending) + outer) && DeclareLocal(st, e).Ok?
    requires st.nextReg == st.actVar <= 252 && Compilable(Declaring(st), e, st.actVar, outer, upvals)
    ensures Done(st, DeclareLocal(st, e).value, outer, 1)
  {
    hide Compile, NextReg, ToReg, Described, Grows, Sound, Extends, Compilable;
    InitializerShape(st, e, outer, upvals);
    DeclaringSound(st, outer);
    var st0 := Declaring(st);
    var (st1, d) := Compile(st0, e).value;
    var (st2, d2) := NextReg(st1, d).value;
    var st3 := ExprFree(st2, d2);
    FreeShape(st2, d2, outer, upvals);
    ToRegShape(st3, d2, st.actVar, outer, upvals, st.actVar, -1, multiset{});
    var (st4, d4) := ToReg(st3, d2, st.actVar).value;
    GrowsIsFor(st3, |st3.code|, st4, st.actVar);
    GrowsTrans(st0, |st0.code|, st2, |st2.code|, st3, st.actVar, NO_REG);
    GrowsTrans(st0, |st0.code|, st3, |st3.code|, st4, st.actVar, st.actVar);
    ValueDone(st0, |st0.code|, st4, d4, st.actVar, outer, upvals);
    ExtendsFrom(st, st0, st4);
  }

  lemma ExtendsFrom(st: State, st0: State, st1: State)
    requires Extends(st0, st1) && st0 == st.(actVar := st0.actVar)
    ensures Extends(st, st1)
  {
  }

  /** exprFree of a temporary, whose value is still to be used. */
  lemma FreeShape(st: State, d: Desc, outer: multiset<nat>, upvals: nat)
    requires Described(st, d, outer, upvals) && d.kind.NonRelocK?
    requires st.actVar <= st.nextReg && d.kind.r == st.nextReg - 1
    ensures var st' := ExprFree(st, d);
      && Described(st', d, outer, upvals) && Grows(st, |st.code|, st', NO_REG)
      && st'.nextReg == (if d.kind.r >= st.actVar then st.nextReg - 1 else st.nextReg)
      && st' == st.(nextReg := st'.nextReg)
  {
    hide Tidy, Bounded, InRange;
    SoundRegs'(st, Lists(st, d) + outer, ExprFree(st, d));
  }

  /** emitReturn. */
  lemma ReturnShape(st: State, d: Desc, outer: multiset<nat>, upvals: nat, n: int)
    requires Described(st, d, outer, upvals) && EmitReturn(st, d).Ok?
    requires n <= st.nextReg <= 253 && st.actVar <= st.nextReg
    requires Usable(st, d)
    ensures AnyReg(st, d).Ok?
    ensures var (st1, d1) := AnyReg(st, d).value;
      var st' := EmitReturn(st, d).value;
      && Described(st1, d1, outer, upvals) && Grows(st, Stop(st, d), st1, n) && d1.kind.NonRelocK? && !HasJump(d1)
      && Done(st1, st', outer, 0) && EndsInReturn(st'.code) && st'.pending == []
      && st' == Emit(st1, Instr(Return, d1.kind.r, 2)).value && d1.kind.r < NO_REG && st1.actVar <= st1.nextReg
  {
    hide AnyReg, Emit, Described, Grows, Sound, Extends;
    AnyRegShape(st, d, outer, upvals, n);
    var (st1, d1) := AnyReg(st, d).value;
    GrowsActVar(st, Stop(st, d), st1, n);
    DescribedParts(st1, d1, outer, upvals);
    assert multiset(st1.pending) + (multiset(d1.tj) + multiset(d1.fj) + outer) == multiset(st1.pending) + outer;
    EffectShape(st1, Instr(Return, d1.kind.r, 2), outer);
  }

  lemma ReturnWithShape(st: State, e: Expr, outer: multiset<nat>, upvals: nat)
    requires Ready(st, e, outer, upvals) && ReturnWith(st, e).Ok?
    ensures Done(st, ReturnWith(st, e).value, outer, 0)
  {
    hide Compile, AnyReg, EmitReturn, Described, Grows, Sound, Extends, Ready;
    ReadySound(st, e, outer, upvals);
    ValueShape(st, e, outer, upvals);
    var (st1, d) := Compile(st, e).value;
    ReturnShape(st1, d, outer, upvals, st.actVar);
    var (st2, d2) := AnyReg(st1, d).value;
    GrowsTrans(st, |st.code|, st1, Stop(st1, d), st2, st.actVar, st.actVar);
    ValueDone(st, |st.code|, st2, d2, st.actVar, outer, upvals);
    DoneTrans(st, st2, ReturnWith(st, e).value, outer, 0);
  }

  /** What compiling a statement without control flow demands. */
  ghost predicate SimpleReady(st: State, s: Stmt, outer: multiset<nat>, upvals: nat) {
    && Sound(st, |st.code|, multiset(st.pending) + outer) && st.nextReg == st.actVar
    && WfStmt(s, st.actVar, upvals) && Fits(s, st.actVar) && CompileSimple(st, s).Ok?
    && ShortStmt(st, Loops([], [], false), s)
  }

  predicate IsSimple(s: Stmt) {
    s.VarLocal? || s.VarGlobal? || s.SetLocal? || s.SetUpvalue? || s.SetGlobalVar? || s.Do? || s.ReturnValue? || s.Skip?
  }

  lemma SimpleReadyParts(st: State, s: Stmt, outer: multiset<nat>, upvals: nat)
    requires SimpleReady(st, s, outer, upvals) && IsSimple(s) && !s.Skip?
    ensures s.VarLocal? ==> st.actVar <= 252 && Compilable(Declaring(st), s.e, st.actVar, outer, upvals)
    ensures s.VarGlobal? || s.SetGlobalVar? ==>
              MakeConst(st, Str(s.name)).Ok? && Ready(MakeConst(st, Str(s.name)).value.0, s.e, outer, upvals)
    ensures s.SetLocal? || s.SetUpvalue? || s.Do? || s.ReturnValue? ==> Ready(st, s.e, outer, upvals)
  {
    hide Compile, NextReg, AnyReg, Emit, Operand, ToReg, Sound, EmitReturn, AddConst;
    if s.VarLocal? {
      DeclaringSound(st, outer);
    }
    if s.VarGlobal? || s.SetGlobalVar? {
      AddConstReady(st, Str(s.name), outer);
    }
  }

  lemma SimpleShape(st: State, s: Stmt, outer: multiset<nat>, upvals: nat)
    requires SimpleReady(st, s, outer, upvals) && IsSimple(s)
    ensures Done(st, CompileSimple(st, s).value, outer, Decls(s))
  {
    hide Compilable, Ready, Compile, DeclareLocal, DeclareGlobal;
    hide StoreLocal, StoreUpvalue, StoreGlobal, Evaluate, ReturnWith;
    if !s.Skip? {
      SimpleReadyParts(st, s, outer, upvals);
    }
    match s {
      case VarLocal(e) => DeclareLocalShape(st, e, outer, upvals);
      case VarGlobal(name, e) => DeclareGlobalShape(st, name, e, outer, upvals);
      case SetLocal(x, e) => StoreLocalShape(st, x, e, outer, upvals);
      case SetUpvalue(u, e) => StoreUpvalueShape(st, u, e, outer, upvals);
      case SetGlobalVar(name, e) => StoreGlobalShape(st, name, e, outer, upvals);
      case Do(e) => EvaluateShape(st, e, outer, upvals);
      case ReturnValue(e) => ReturnWithShape(st, e, outer, upvals);
      case Skip => GrowsRefl(st, |st.code|, NO_REG);
    }
  }

  // ----- control flow -----

  ghost function LoopJumps(ls: Loops): multiset<nat> { multiset(ls.breaks) + multiset(ls.conts) }

  /** Between statements. */
  ghost predicate Between(st: State, ls: Loops, outer: multiset<nat>) {
    && Sound(st, |st.code|, multiset(st.pending) + (LoopJumps(ls) + outer)) && st.nextReg == st.actVar
    && (ls.inLoop ==> st.code != [])
  }

  lemma EndStatementShape(st: State, outer: multiset<nat>)
    requires Sound(st, |st.code|, multiset(st.pending) + outer) && st.actVar <= st.nextReg
    ensures var st' := EndStatement(st);
      Sound(st', |st'.code|, multiset(st'.pending) + outer) && Extends(st, st')
  {
    hide Tidy, Bounded, InRange;
    SoundRegs'(st, multiset(st.pending) + outer, EndStatement(st));
  }

  /** Nothing pending or leaving was there before, so no jump has the start as its place. */
  lemma StartClosed(code0: seq<Instr>, st: State, flist: seq<nat>, lists0: multiset<nat>, outer: multiset<nat>)
    requires Tidy(code0, lists0) && outer <= lists0
    requires Tidy(st.code, multiset(st.pending) + (multiset(flist) + outer))
    requires forall j | j in st.pending || j in flist :: j > |code0|
    ensures !Open(st.code, |code0|)
  {
    var s: nat := |code0|;
    assert lists0[s] == 0;
    assert s !in st.pending && s !in flist;
    assert (multiset(st.pending) + (multiset(flist) + outer))[s] == 0;
  }

  /** The condition falls through here, or leaves by a list of new jumps. */
  lemma ConditionShape(st: State, c: Expr, outer: multiset<nat>, upvals: nat)
    requires Ready(st, c, outer, upvals) && Condition(st, c).Ok?
    ensures var (st', flist) := Condition(st, c).value;
      && Sound(st', |st'.code|, multiset(st'.pending) + (multiset(flist) + outer))
      && Extends(st, st') && st'.actVar == st.actVar == st'.nextReg
      && !EndsInReturn(st'.code) && |st'.code| > |st.code| && !Open(st'.code, |st.code|)
  {
    hide Compile, BranchOn, Described, Grows, Sound, Extends, Tidy, Compilable;
    ReadySound(st, c, outer, upvals);
    ValueShape(st, c, outer, upvals);
    NewJumps(st, c, st.actVar, outer, upvals);
    var (st1, d0) := Compile(st, c).value;
    var d := Judged(d0);
    JudgedShape(st1, d0, outer, upvals);
    BranchOnShape(st1, d, true, outer, upvals);
    var (st2, flist) := BranchOn(st1, d, true).value;
    BranchOnPending(st1, d, outer, upvals);
    GrowsActVar(st1, Stop(st1, d), st2, NO_REG);
    GrowsTrans(st, |st.code|, st1, Stop(st1, d), st2, st.actVar, NO_REG);
    var lists := multiset(st2.pending) + (multiset(flist) + outer);
    SoundTidy(st, |st.code|, multiset(st.pending) + outer);
    SoundTidy(st2, |st2.code|, lists);
    SoundEnd(st, |st.code|, multiset(st.pending) + outer);
    GrowsExtends(st, st2, st.actVar, outer, lists);
    StartClosed(st.code, st2, flist, multiset(st.pending) + outer, outer);
  }

  lemma SoundEnd(st: State, hi: int, lists: multiset<nat>)
    requires Sound(st, hi, lists)
    ensures !EndsInTest(st.code) && RegsOk(st)
  {
  }

  /** nil as a condition is false. */
  function Judged(d: Desc): Desc {
    if d.kind == PrimK(0) then d.(kind := PrimK(2)) else d
  }

  lemma JudgedShape(st: State, d: Desc, outer: multiset<nat>, upvals: nat)
    requires Described(st, d, outer, upvals)
    ensures Described(st, Judged(d), outer, upvals) && Stop(st, Judged(d)) == Stop(st, d)
  {
    assert Lists(st, Judged(d)) == Lists(st, d);
  }

  /** What stays pending are the jumps that found the condition true. */
  lemma BranchOnPending(st: State, d: Desc, outer: multiset<nat>, upvals: nat)
    requires Described(st, d, outer, upvals) && BranchOn(st, d, true).Ok? && st.nextReg <= 253
    requires d.kind.NonRelocK? || d.kind.LocalK? ==> d.kind.r < st.actVar
    ensures BranchOn(st, d, true).value.0.pending == d.tj
  {
    hide Discharge, Branch, BranchOn, Described, Grows;
    DischargeFirst(st, d, true);
    DischargeShape(st, d, outer, upvals);
    var (st1, d1) := Discharge(st, d).value;
    DescribedRegs(st, d, outer, upvals);
    BranchOnParts(st, d, true, st1, d1);
    BranchShape(st1, d1, false, outer, upvals);
  }

  /** Jumps come here: they join the pending ones. */
  lemma ToHereShape(st: State, list: seq<nat>, outer: multiset<nat>)
    requires Sound(st, |st.code|, multiset(st.pending) + (multiset(list) + outer)) && ToHere(st, list).Ok?
    ensures var st' := ToHere(st, list).value;
      && Sound(st', |st'.code|, multiset(st'.pending) + outer) && Extends(st, st')
      && st' == st.(pending := st.pending + list)
  {
    hide Tidy, Bounded, InRange;
    var st' := ToHere(st, list).value;
    assert multiset(st'.pending) + outer == multiset(st.pending) + (multiset(list) + outer);
    GrowsRefl(st, |st.code|, NO_REG);
  }

  /** A jump of its own, on which the pending ones are threaded. */
  lemma LeaveShape(st: State, outer: multiset<nat>)
    requires Sound(st, |st.code|, multiset(st.pending) + outer) && st.code != [] && EmitJump(st).Ok?
    ensures var (st', list) := EmitJump(st).value;
      && st' == st.(code := st'.code, pending := []) && list == [|st.code|] + st.pending
      && |st'.code| == |st.code| + 1
      && Sound(st', |st'.code|, multiset(list) + outer) && Extends(st, st')
      && !EndsInReturn(st'.code)
  {
    hide Emit, EmitJump;
    EmitJumpShape(st, outer);
  }

  lemma ElseShape(st: State, flist: seq<nat>, outer: multiset<nat>)
    requires Sound(st, |st.code|, multiset(st.pending) + (multiset(flist) + outer))
    requires st.code != [] && Else(st, flist).Ok?
    ensures var (st', escape) := Else(st, flist).value;
      && Sound(st', |st'.code|, multiset(st'.pending) + (multiset(escape) + outer)) && Extends(st, st')
      && st'.actVar == st.actVar && st'.nextReg == st.nextReg
      && escape == [|st.code|] + st.pending && st'.pending == flist && |st'.code| == |st.code| + 1
  {
    hide Tidy, Bounded, InRange, EmitJump;
    LeaveShape(st, multiset(flist) + outer);
    var (st1, escape) := EmitJump(st).value;
    assert multiset(escape) + (multiset(flist) + outer) ==
        multiset(st1.pending) + (multiset(flist) + (multiset(escape) + outer));
    ToHereShape(st1, flist, multiset(escape) + outer);
    ExtendsTrans(st, st1, Else(st, flist).value.0);
    assert [] + flist == flist;
  }

  /** Patching a list of jumps to an earlier place. */
  lemma PatchBackShape(st: State, list: seq<nat>, target: nat, outer: multiset<nat>)
    requires Sound(st, |st.code|, multiset(list) + outer) && st.pending == [] && !EndsInReturn(st.code)
    requires target < |st.code| && !Open(st.code, target) && PatchTo(st, list, target).Ok?
    ensures var st' := PatchTo(st, list, target).value;
      && st' == st.(code := st'.code) && |st'.code| == |st.code|
      && Sound(st', |st'.code|, outer) && Extends(st, st')
  {
    hide PatchList;
    var c := PatchList(st.code, list, target, NO_REG, target).value;
    PatchListTidy(st.code, list, target, NO_REG, target, multiset(list) + outer);
    assert multiset(list) + outer - multiset(list) == outer;
    PatchListLater(st.code, list, target, NO_REG, target, NO_REG, -1, multiset{});
    PatchListKept(st.code, list, target, NO_REG, target);
    PatchListBounds(st.code, list, target, NO_REG, target, |st.code|, st.maxReg, |st.code|);
    PatchedEnd(st.code, list, target, NO_REG, target);
  }

  lemma LoopEndSteps(st: State, ls: Loops, start: nat)
    requires LoopEnd(st, ls, start).Ok?
    ensures EmitJump(st).Ok?
    ensures var (st1, j) := EmitJump(st).value;
      && PatchTo(st1, ls.conts + j, start).Ok?
      && LoopEnd(st, ls, start) == ToHere(PatchTo(st1, ls.conts + j, start).value, ls.breaks)
  {
    hide EmitJump, PatchTo, ToHere;
  }

  /** Jump back, and let the breaks come here. */
  lemma LoopEndShape(st: State, ls: Loops, start: nat, outer: multiset<nat>)
    requires Sound(st, |st.code|, multiset(st.pending) + (LoopJumps(ls) + outer)) && LoopEnd(st, ls, start).Ok?
    requires start < |st.code| && !Open(st.code, start)
    ensures var st' := LoopEnd(st, ls, start).value;
      && Sound(st', |st'.code|, multiset(st'.pending) + outer) && Extends(st, st')
      && st'.actVar == st.actVar && st'.nextReg == st.nextReg && st'.pending == ls.breaks && |st'.code| == |st.code| + 1
  {
    hide Tidy, Bounded, InRange, EmitJump, PatchTo, LoopEnd, Extends;
    LoopEndSteps(st, ls, start);
    LeaveShape(st, LoopJumps(ls) + outer);
    var (st1, j) := EmitJump(st).value;
    var conts := ls.conts + j;
    assert multiset(j) + (LoopJumps(ls) + outer) == multiset(conts) + (multiset(ls.breaks) + outer);
    StillClosed(st, st1, start);
    PatchBackShape(st1, conts, start, multiset(ls.breaks) + outer);
    var st2 := PatchTo(st1, conts, start).value;
    assert multiset(st2.pending) + (multiset(ls.breaks) + outer) == multiset(ls.breaks) + outer;
    ToHereShape(st2, ls.breaks, outer);
    ExtendsTrans(st, st1, st2);
    ExtendsTrans(st, st2, LoopEnd(st, ls, start).value);
    assert [] + ls.breaks == ls.breaks;
  }

  lemma StillClosed(st: State, st': State, i: nat)
    requires Extends(st, st') && i < |st.code| && !Open(st.code, i)
    ensures !Open(st'.code, i)
  {
    assert LaterAt(st.code, st'.code, i, NO_REG, -1, multiset{});
  }

  // ----- whole statements -----

  /** What compiling a statement demands. */
  ghost predicate StmtReady(st: State, ls: Loops, s: Stmt, outer: multiset<nat>, upvals: nat) {
    && Between(st, ls, outer) && CompileStmt(st, ls, s).Ok?
    && WfStmt(s, st.actVar, upvals) && Fits(s, st.actVar)
    && ShortStmt(st, ls, s)
  }

  ghost predicate StmtDone(st: State, ls: Loops, s: Stmt, st': State, ls': Loops, outer: multiset<nat>) {
    && Between(st', ls', outer) && Extends(st, st')
    && st'.actVar == st.actVar + Decls(s) && ls'.inLoop == ls.inLoop && (!ls.inLoop ==> ls' == ls)
    && (forall j | j in ls.breaks :: j in ls'.breaks) && (forall j | j in ls.conts :: j in ls'.conts)
  }

  // The steps of CompileStmt, one lemma for each form.

  lemma SeqSteps(st: State, ls: Loops, s1: Stmt, s2: Stmt)
    requires CompileStmt(st, ls, Seq(s1, s2)).Ok?
    ensures CompileStmt(st, ls, s1).Ok?
    ensures var (st1, ls1) := CompileStmt(st, ls, s1).value;
      && CompileStmt(st1, ls1, s2).Ok? && CompileStmt(st, ls, Seq(s1, s2)) == CompileStmt(st1, ls1, s2)
      && |st1.code| <= |CompileStmt(st1, ls1, s2).value.0.code|
  {
  }

  lemma IfSteps(st: State, ls: Loops, c: Expr, yes: Stmt)
    requires CompileStmt(st, ls, If(c, yes)).Ok?
    ensures Condition(st, c).Ok?
    ensures var (st1, flist) := Condition(st, c).value;
      && CompileStmt(st1, ls, yes).Ok?
      && var (st2, ls2) := CompileStmt(st1, ls, yes).value;
      && ToHere(st2, flist).Ok?
      && CompileStmt(st, ls, If(c, yes)).value == (EndStatement(ToHere(st2, flist).value), ls2)
      && |st1.code| <= |st2.code| == |ToHere(st2, flist).value.code|
  {
    hide Condition;
  }

  lemma IfElseSteps(st: State, ls: Loops, c: Expr, yes: Stmt, no: Stmt)
    requires CompileStmt(st, ls, IfElse(c, yes, no)).Ok?
    ensures Condition(st, c).Ok?
    ensures var (st1, flist) := Condition(st, c).value;
      && CompileStmt(st1, ls, yes).Ok?
      && var (st2, ls2) := CompileStmt(st1, ls, yes).value;
      && Else(st2, flist).Ok?
      && var (st4, escape) := Else(st2, flist).value;
      && CompileStmt(st4, ls2, no).Ok?
      && var (st5, ls5) := CompileStmt(st4, ls2, no).value;
      && ToHere(st5, escape).Ok?
      && CompileStmt(st, ls, IfElse(c, yes, no)).value == (EndStatement(ToHere(st5, escape).value), ls5)
      && |st1.code| <= |st2.code| <= |st4.code| <= |st5.code| == |ToHere(st5, escape).value.code|
  {
    hide Condition, Else;
  }

  lemma WhileSteps(st: State, ls: Loops, c: Expr, body: Stmt)
    requires CompileStmt(st, ls, While(c, body)).Ok?
    ensures Condition(st, c).Ok?
    ensures var (st1, flist) := Condition(st, c).value;
      && CompileStmt(st1, Loops(flist, [], true), body).Ok?
      && var (st2, ls2) := CompileStmt(st1, Loops(flist, [], true), body).value;
      && LoopEnd(st2, ls2, |st.code|).Ok?
      && var st3 := LoopEnd(st2, ls2, |st.code|).value;
      && CompileStmt(st, ls, While(c, body)).value == (EndStatement(st3), ls)
      && |st1.code| <= |st2.code| <= |st3.code|
  {
    hide Condition, LoopEnd;
  }

  lemma ReadyCondition(st: State, ls: Loops, c: Expr, outer: multiset<nat>, upvals: nat)
    requires Between(st, ls, outer) && Condition(st, c).Ok?
    requires WfExpr(c, st.actVar, upvals) && st.actVar + Need(c) <= 254
    requires Short(st, c)
    ensures Ready(st, c, LoopJumps(ls) + outer, upvals)
  {
    hide Compile, BranchOn, Sound;
  }

  lemma {:induction false} CompileStmtShape(st: State, ls: Loops, s: Stmt, outer: multiset<nat>, upvals: nat)
    requires StmtReady(st, ls, s, outer, upvals)
    ensures var (st', ls') := CompileStmt(st, ls, s).value; StmtDone(st, ls, s, st', ls', outer)
    decreases s
  {
    hide Condition, CompileSimple, Sound, Extends;
    match s {
      case Seq(s1, s2) => SeqShape(st, ls, s1, s2, outer, upvals);
      case Block(body) => BlockShape(st, ls, body, outer, upvals);
      case If(c, yes) => IfShape(st, ls, c, yes, outer, upvals);
      case IfElse(c, yes, no) => IfElseShape(st, ls, c, yes, no, outer, upvals);
      case While(c, body) => WhileShape(st, ls, c, body, outer, upvals);
      case Break => LeaveLoopShape(st, ls, s, outer, upvals);
      case Continue => LeaveLoopShape(st, ls, s, outer, upvals);
      case _ => PlainShape(st, ls, s, outer, upvals);
    }
  }

  lemma PlainShape(st: State, ls: Loops, s: Stmt, outer: multiset<nat>, upvals: nat)
    requires StmtReady(st, ls, s, outer, upvals) && IsSimple(s)
    ensures var (st', ls') := CompileStmt(st, ls, s).value; StmtDone(st, ls, s, st', ls', outer)
    ensures CompileSimple(st, s).Ok? && SimpleReady(st, s, LoopJumps(ls) + outer, upvals)
    ensures CompileStmt(st, ls, s).value == (EndStatement(CompileSimple(st, s).value), ls)
  {
    hide CompileSimple, Sound, Extends;
    SimpleShape(st, s, LoopJumps(ls) + outer, upvals);
    var st1 := CompileSimple(st, s).value;
    EndStatementShape(st1, LoopJumps(ls) + outer);
    ExtendsTrans(st, st1, EndStatement(st1));
  }

  lemma LeaveLoopShape(st: State, ls: Loops, s: Stmt, outer: multiset<nat>, upvals: nat)
    requires StmtReady(st, ls, s, outer, upvals) && (s.Break? || s.Continue?)
    ensures EmitJump(st).Ok? && st.code != []
    ensures var (st1, j) := EmitJump(st).value;
      var (st', ls') := CompileStmt(st, ls, s).value;
      && StmtDone(st, ls, s, st', ls', outer) && st' == EndStatement(st1)
      && ls' == (if s.Break? then ls.(breaks := j + ls.breaks) else ls.(conts := j + ls.conts))
      && j == [|st.code|] + st.pending && |st1.code| == |st.code| + 1
  {
    hide EmitJump, Sound, Extends, Condition, BranchOn, EndsInReturn, WfStmt;
    hide Evaluate, PatchTo, CompileSimple, Compile, Safe, Fits, Emit;
    LeaveShape(st, LoopJumps(ls) + outer);
    var (st1, j) := EmitJump(st).value;
    var ls' := if s.Break? then ls.(breaks := j + ls.breaks) else ls.(conts := j + ls.conts);
    assert multiset(st1.pending) + (LoopJumps(ls') + outer) == multiset(j) + (LoopJumps(ls) + outer);
    EndStatementShape(st1, LoopJumps(ls') + outer);
    ExtendsTrans(st, st1, EndStatement(st1));
  }

  lemma {:induction false} SeqShape(st: State, ls: Loops, s1: Stmt, s2: Stmt, outer: multiset<nat>, upvals: nat)
    requires StmtReady(st, ls, Seq(s1, s2), outer, upvals)
    ensures StmtReady(st, ls, s1, outer, upvals)
    ensures var (st1, ls1) := CompileStmt(st, ls, s1).value;
      && StmtDone(st, ls, s1, st1, ls1, outer) && StmtReady(st1, ls1, s2, outer, upvals)
      && CompileStmt(st, ls, Seq(s1, s2)) == CompileStmt(st1, ls1, s2)
      && var (st', ls') := CompileStmt(st1, ls1, s2).value;
      && StmtDone(st1, ls1, s2, st', ls', outer) && StmtDone(st, ls, Seq(s1, s2), st', ls', outer)
    decreases Seq(s1, s2), 0
  {
    hide CompileStmt, Between, Extends;
    SeqSteps(st, ls, s1, s2);
    CompileStmtShape(st, ls, s1, outer, upvals);
    var (st1, ls1) := CompileStmt(st, ls, s1).value;
    CompileStmtShape(st1, ls1, s2, outer, upvals);
    ExtendsTrans(st, st1, CompileStmt(st1, ls1, s2).value.0);
  }

  lemma {:induction false} BlockShape(st: State, ls: Loops, body: Stmt, outer: multiset<nat>, upvals: nat)
    requires StmtReady(st, ls, Block(body), outer, upvals)
    ensures StmtReady(st, ls, body, outer, upvals)
    ensures var (st1, ls1) := CompileStmt(st, ls, body).value;
      var (st', ls') := CompileStmt(st, ls, Block(body)).value;
      && StmtDone(st, ls, body, st1, ls1, outer) && StmtDone(st, ls, Block(body), st', ls', outer)
      && st'.code == st1.code && st'.consts == st1.consts && st'.pending == st1.pending && ls' == ls1
    decreases Block(body), 0
  {
    hide Sound, Extends;
    CompileStmtShape(st, ls, body, outer, upvals);
    var (st1, ls1) := CompileStmt(st, ls, body).value;
    LowerScope(st1, st.actVar, LoopJumps(ls1) + outer);
    ExtendsTrans(st, st1, EndStatement(st1.(actVar := st.actVar)));
  }

  /** The end of a scope: fewer locals. */
  lemma LowerScope(st: State, n: Reg, outer: multiset<nat>)
    requires Sound(st, |st.code|, multiset(st.pending) + outer) && n <= st.actVar == st.nextReg
    ensures var st' := EndStatement(st.(actVar := n));
      Sound(st', |st'.code|, multiset(st'.pending) + outer) && Extends(st, st')
  {
    hide Tidy, Bounded, InRange;
    GrowsRefl(st, |st.code|, NO_REG);
  }

  lemma {:induction false} IfShape(st: State, ls: Loops, c: Expr, yes: Stmt, outer: multiset<nat>, upvals: nat)
    requires StmtReady(st, ls, If(c, yes), outer, upvals)
    ensures Ready(st, c, LoopJumps(ls) + outer, upvals) && Condition(st, c).Ok?
    ensures var (st1, flist) := Condition(st, c).value;
      && Extends(st, st1) && st1.actVar == st.actVar && StmtReady(st1, ls, yes, multiset(flist) + outer, upvals)
      && var (st2, ls2) := CompileStmt(st1, ls, yes).value;
      && StmtDone(st1, ls, yes, st2, ls2, multiset(flist) + outer)
      && var (st', ls') := CompileStmt(st, ls, If(c, yes)).value;
      && StmtDone(st, ls, If(c, yes), st', ls', outer) && ls' == ls2
      && st' == EndStatement(st2.(pending := st2.pending + flist))
    decreases If(c, yes), 0
  {
    hide CompileStmt, Condition, Sound, Extends, ToHere;
    IfSteps(st, ls, c, yes);
    ReadyCondition(st, ls, c, outer, upvals);
    ConditionShape(st, c, LoopJumps(ls) + outer, upvals);
    var (st1, flist) := Condition(st, c).value;
    Regroup(st1.pending, flist, ls, outer);
    CompileStmtShape(st1, ls, yes, multiset(flist) + outer, upvals);
    var (st2, ls2) := CompileStmt(st1, ls, yes).value;
    Regroup(st2.pending, flist, ls2, outer);
    ToHereShape(st2, flist, LoopJumps(ls2) + outer);
    var st3 := ToHere(st2, flist).value;
    EndStatementShape(st3, LoopJumps(ls2) + outer);
    ExtendsTrans(st, st1, st2);
    ExtendsTrans(st, st2, st3);
    ExtendsTrans(st, st3, EndStatement(st3));
  }

  lemma Regroup(pending: seq<nat>, list: seq<nat>, ls: Loops, outer: multiset<nat>)
    ensures multiset(pending) + (multiset(list) + (LoopJumps(ls) + outer))
         == multiset(pending) + (LoopJumps(ls) + (multiset(list) + outer))
  {
  }

  lemma {:induction false} IfElseShape(st: State, ls: Loops, c: Expr, yes: Stmt, no: Stmt, outer: multiset<nat>,
                                       upvals: nat)
    requires StmtReady(st, ls, IfElse(c, yes, no), outer, upvals)
    ensures Ready(st, c, LoopJumps(ls) + outer, upvals) && Condition(st, c).Ok?
    ensures var (st1, flist) := Condition(st, c).value;
      && Extends(st, st1) && st1.actVar == st.actVar && StmtReady(st1, ls, yes, multiset(flist) + outer, upvals)
      && var (st2, ls2) := CompileStmt(st1, ls, yes).value;
      && StmtDone(st1, ls, yes, st2, ls2, multiset(flist) + outer)
      && Else(st2, flist).Ok?
      && var (st4, escape) := Else(st2, flist).value;
      && Extends(st2, st4) && st4.actVar == st.actVar && escape == [|st2.code|] + st2.pending && st4.pending == flist
      && |st4.code| == |st2.code| + 1
      && StmtReady(st4, ls2, no, multiset(escape) + outer, upvals)
      && var (st5, ls5) := CompileStmt(st4, ls2, no).value;
      && StmtDone(st4, ls2, no, st5, ls5, multiset(escape) + outer)
      && var (st', ls') := CompileStmt(st, ls, IfElse(c, yes, no)).value;
      && StmtDone(st, ls, IfElse(c, yes, no), st', ls', outer) && ls' == ls5
      && st' == EndStatement(st5.(pending := st5.pending + escape))
    decreases IfElse(c, yes, no), 0
  {
    hide CompileStmt, Condition, Sound, Extends, ToHere, Else, ShortStmt, Short, LoopJumps, Ready, Compile;
    IfElseSteps(st, ls, c, yes, no);
    ShortIfElse(st, ls, c, yes, no);
    ReadyCondition(st, ls, c, outer, upvals);
    ConditionShape(st, c, LoopJumps(ls) + outer, upvals);
    var (st1, flist) := Condition(st, c).value;
    Regroup(st1.pending, flist, ls, outer);
    CompileStmtShape(st1, ls, yes, multiset(flist) + outer, upvals);
    var (st2, ls2) := CompileStmt(st1, ls, yes).value;
    Regroup(st2.pending, flist, ls2, outer);
    ElseShape(st2, flist, LoopJumps(ls2) + outer);
    var (st4, escape) := Else(st2, flist).value;
    Regroup(st4.pending, escape, ls2, outer);
    CompileStmtShape(st4, ls2, no, multiset(escape) + outer, upvals);
    var (st5, ls5) := CompileStmt(st4, ls2, no).value;
    Regroup(st5.pending, escape, ls5, outer);
    ToHereShape(st5, escape, LoopJumps(ls5) + outer);
    var st6 := ToHere(st5, escape).value;
    EndStatementShape(st6, LoopJumps(ls5) + outer);
    ExtendsTrans(st, st1, st2);
    ExtendsTrans(st, st2, st4);
    ExtendsTrans(st, st4, st5);
    ExtendsTrans(st, st5, st6);
    ExtendsTrans(st, st6, EndStatement(st6));
  }

  lemma {:induction false} WhileShape(st: State, ls: Loops, c: Expr, body: Stmt, outer: multiset<nat>, upvals: nat)
    requires StmtReady(st, ls, While(c, body), outer, upvals)
    ensures Ready(st, c, LoopJumps(ls) + outer, upvals) && Condition(st, c).Ok?
    ensures var (st1, flist) := Condition(st, c).value;
      var ls1 := Loops(flist, [], true);
      && Extends(st, st1) && st1.actVar == st.actVar && StmtReady(st1, ls1, body, LoopJumps(ls) + outer, upvals)
      && var (st2, ls2) := CompileStmt(st1, ls1, body).value;
      && StmtDone(st1, ls1, body, st2, ls2, LoopJumps(ls) + outer)
      && |st.code| < |st2.code| && !Open(st2.code, |st.code|)
      && LoopEnd(st2, ls2, |st.code|).Ok?
      && var st3 := LoopEnd(st2, ls2, |st.code|).value;
      && Extends(st2, st3) && st3.pending == ls2.breaks && |st3.code| == |st2.code| + 1
      && var (st', ls') := CompileStmt(st, ls, While(c, body)).value;
      && StmtDone(st, ls, While(c, body), st', ls', outer) && ls' == ls
      && st' == EndStatement(st3)
    decreases While(c, body), 0
  {
    hide CompileStmt, Condition, Sound, Extends, LoopEnd;
    WhileSteps(st, ls, c, body);
    ReadyCondition(st, ls, c, outer, upvals);
    ConditionShape(st, c, LoopJumps(ls) + outer, upvals);
    var (st1, flist) := Condition(st, c).value;
    var ls1 := Loops(flist, [], true);
    assert LoopJumps(ls1) == multiset(flist);
    CompileStmtShape(st1, ls1, body, LoopJumps(ls) + outer, upvals);
    var (st2, ls2) := CompileStmt(st1, ls1, body).value;
    StillClosed(st1, st2, |st.code|);
    LoopEndShape(st2, ls2, |st.code|, LoopJumps(ls) + outer);
    var st3 := LoopEnd(st2, ls2, |st.code|).value;
    EndStatementShape(st3, LoopJumps(ls) + outer);
    ExtendsTrans(st, st1, st2);
    ExtendsTrans(st, st2, st3);
    ExtendsTrans(st, st3, EndStatement(st3));
  }

  // ----- whole functions -----

  /** Every jump is resolved and stays inside the code, every test has its destination and its
      jump, and every register written is one that the frame has. */
  ghost predicate CompleteAt(code: seq<Instr>, i: int, frame: int)
    requires 0 <= i < |code|
  {
    && code[i].a != NO_REG
    && (code[i].op == Jump ==> code[i].d != UNPATCHED && 0 <= Target(code, i) < |code|)
    && (IsTest(code[i]) ==> i + 1 < |code| && code[i + 1].op == Jump)
    && (IsValueOp(code[i].op) || IsCopy(code[i]) ==> code[i].a < frame) && ReadsBelow(code[i], frame)
    && (code[i].op == Return ==> code[i].d == 2)
  }

  ghost predicate Complete(code: seq<Instr>, frame: int) {
    && EndsInReturn(code)
    && forall i {:trigger CompleteAt(code, i, frame)} | 0 <= i < |code| :: CompleteAt(code, i, frame)
  }

  /** What a function body has to satisfy: well formed, with registers enough, and with its
      unary operators at positions that 16 bits can hold. */
  predicate BodyOk(params: Reg, body: Stmt, upvals: nat) {
    && params <= 253 && WfStmt(body, params, upvals) && Fits(body, params)
    && ShortStmt(InitialState(params), Loops([], [], false), body)
  }

  /** The last of these holds without unary operators at any length, and with them up to 65536
      instructions. */
  lemma EasyBodyOk(params: Reg, body: Stmt, upvals: nat)
    requires params <= 253 && WfStmt(body, params, upvals) && Fits(body, params)
    requires UnaryFreeStmt(body) ||
             (var r := CompileStmt(InitialState(params), Loops([], [], false), body);
              r.Ok? && |r.value.0.code| <= 0x1_0000)
    ensures BodyOk(params, body, upvals)
  {
    hide CompileStmt;
    if UnaryFreeStmt(body) {
      FreeStmtIsShort(InitialState(params), Loops([], [], false), body);
    } else {
      SmallStmtIsShort(InitialState(params), Loops([], [], false), body);
    }
  }

  lemma BodySteps(params: Reg, body: Stmt)
    requires CompileBody(params, body).Ok?
    ensures CompileStmt(InitialState(params), Loops([], [], false), body).Ok?
    ensures var st1 := CompileStmt(InitialState(params), Loops([], [], false), body).value.0;
      var st2 := EndStatement(st1.(actVar := 0));
      && Finish(st2).Ok? && CompileBody(params, body) == Finish(st2)
      && |st1.code| <= |CompileBody(params, body).value.code|
  {
    hide CompileStmt, EmitReturn;
  }

  lemma BodyReady(params: Reg, body: Stmt, upvals: nat)
    requires BodyOk(params, body, upvals) && CompileBody(params, body).Ok?
    ensures StmtReady(InitialState(params), Loops([], [], false), body, multiset{}, upvals)
  {
    hide CompileStmt, Finish;
    BodySteps(params, body);
    var st := InitialState(params);
    assert multiset(st.pending) + (LoopJumps(Loops([], [], false)) + multiset{}) == multiset{};
    forall j: nat ensures multiset{}[j] == if Open(st.code, j) then 1 else 0 {
    }
  }

  /** The state that endCompiler finds: every list but the pending one is empty. */
  lemma BodyEnd(params: Reg, body: Stmt, upvals: nat)
    requires BodyOk(params, body, upvals) && CompileBody(params, body).Ok?
    ensures StmtReady(InitialState(params), Loops([], [], false), body, multiset{}, upvals)
    ensures var (st1, ls1) := CompileStmt(InitialState(params), Loops([], [], false), body).value;
      var st2 := EndStatement(st1.(actVar := 0));
      && StmtDone(InitialState(params), Loops([], [], false), body, st1, ls1, multiset{})
      && Sound(st2, |st2.code|, multiset(st2.pending) + multiset{}) && Extends(st1, st2)
      && Finish(st2).Ok? && CompileBody(params, body) == Finish(st2)
  {
    hide CompileStmt, Finish, StmtReady, Sound, Extends;
    BodyReady(params, body, upvals);
    BodySteps(params, body);
    var st, ls := InitialState(params), Loops([], [], false);
    CompileStmtShape(st, ls, body, multiset{}, upvals);
    var st1 := CompileStmt(st, ls, body).value.0;
    assert LoopJumps(ls) + multiset{} == multiset{};
    LowerScope(st1, 0, multiset{});
  }

  lemma NothingShape(st: State, upvals: nat)
    requires Sound(st, |st.code|, multiset(st.pending) + multiset{})
    ensures Described(st, Nothing(), multiset{}, upvals)
  {
    assert Lists(st, Nothing()) + multiset{} == multiset(st.pending) + multiset{};
  }

  lemma FinishShape(st: State, upvals: nat)
    requires Sound(st, |st.code|, multiset(st.pending) + multiset{}) && Finish(st).Ok? && st.actVar == st.nextReg == 0
    ensures var st' := Finish(st).value;
      && Sound(st', |st'.code|, multiset{}) && EndsInReturn(st'.code) && Extends(st, st')
  {
    hide EmitReturn, AnyReg, Emit, Described, Grows, Sound, Extends;
    if st.code == [] || st.pending != [] || st.code[|st.code| - 1].op != Return {
      NothingShape(st, upvals);
      ReturnShape(st, Nothing(), multiset{}, upvals, 0);
      var (st1, d1) := AnyReg(st, Nothing()).value;
      ValueDone(st, |st.code|, st1, d1, 0, multiset{}, upvals);
      var st' := EmitReturn(st, Nothing()).value;
      ExtendsTrans(st, st1, st');
      assert multiset(st'.pending) + multiset{} == multiset{};
    } else {
      assert multiset(st.pending) + multiset{} == multiset{};
      ExtendsSame(st);
    }
  }

  lemma ExtendsSame(st: State)
    ensures Extends(st, st)
  {
    GrowsRefl(st, |st.code|, NO_REG);
  }

  lemma SoundComplete(st: State)
    requires Sound(st, |st.code|, multiset{}) && EndsInReturn(st.code)
    ensures Complete(st.code, st.maxReg)
  {
    var t := |st.code| - 1;
    forall i | 0 <= i < |st.code| ensures CompleteAt(st.code, i, st.maxReg) {
      assert WfAt(st.code, i) && TargetOk(st.code, i, t) && Within(st.code[i], st.maxReg);
      var none: multiset<nat> := multiset{};
      assert none[i] == if Open(st.code, i) then 1 else 0;
      if i + 1 < |st.code| {
        assert none[i + 1] == if Open(st.code, i + 1) then 1 else 0;
      }
    }
  }

  /** Once endCompiler returns, nothing is left to patch. */
  lemma PatchingIsComplete(params: Reg, body: Stmt, upvals: nat)
    requires BodyOk(params, body, upvals) && CompileBody(params, body).Ok?
    ensures var f := CompileBody(params, body).value; Complete(f.code, f.maxReg)
  {
    hide CompileStmt, CompileBody, Finish, Sound, Extends, StmtReady, Complete;
    BodySteps(params, body);
    BodyEnd(params, body, upvals);
    var st2 := EndStatement(CompileStmt(InitialState(params), Loops([], [], false), body).value.0.(actVar := 0));
    FinishShape(st2, upvals);
    SoundComplete(Finish(st2).value);
  }
}
