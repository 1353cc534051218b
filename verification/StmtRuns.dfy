/** Compiled statements and functions behave as Exec says. */
module StmtRuns {
  import opened Bytecode
  import opened Machine
  import opened Source
  import opened CodeGen
  import opened Shape
  import opened ExprShape
  import opened ExprRuns
  import opened StmtShape

  /** p runs what the code of st has become: only jumps still open may lead anywhere, and no
      test copies. */
  ghost predicate Settled(p: Program, st: State) {
    Final(p, st, 0, |st.code|, NO_REG, -1, multiset{}, multiset{})
  }

  lemma SettledBack(p: Program, st: State, st': State)
    requires Extends(st, st') && Settled(p, st')
    ensures Settled(p, st)
  {
    forall i | 0 <= i < |st.code| ensures LaterAt(st.code, p.code, i, NO_REG, -1, multiset{}) {
      assert LaterAt(st.code, st'.code, i, NO_REG, -1, multiset{});
      assert !Excluded(st'.code, i, multiset{});
      assert LaterAt(st'.code, p.code, i, NO_REG, -1, multiset{});
    }
  }

  lemma SettledFinal(p: Program, st: State, n: int, out: multiset<nat>)
    requires Settled(p, st) && n <= NO_REG
    ensures FinalNew(p, st, 0, |st.code|, n, out)
  {
    FinalNewMono(p, st, 0, |st.code|, NO_REG, multiset{}, n);
    FinalOuter(p, st, 0, |st.code|, n, -1, multiset{}, multiset{}, out);
  }

  lemma SettledSame(p: Program, st: State, st': State)
    requires Settled(p, st) && st'.code == st.code && st'.consts == st.consts
    ensures Settled(p, st')
  {
  }

  /** The locals are in the first registers. */
  ghost predicate Frame(m: Machine, locals: seq<Value>) {
    m.Running? && |locals| <= 0x100 && m.regs[..|locals|] == locals
  }

  lemma FrameKept(p: Program, m0: Machine, m: Machine, locals: seq<Value>, n: int)
    requires Frame(m0, locals) && Runs(p, m0, m, n, -1) && |locals| <= n && m.Running?
    ensures Frame(m, locals) && m.sh == m0.sh
  {
    forall i | 0 <= i < |locals| ensures m.regs[i] == locals[i] {
      assert m0.regs[..|locals|][i] == locals[i];
    }
    assert m.regs[..|locals|] == locals;
  }

  lemma EvalFrame(w: World, e: Expr, m: Machine, locals: seq<Value>)
    requires Frame(m, locals) && WfExpr(e, |locals|, |m.sh.upvals|)
    ensures Eval(w, e, m.regs, m.sh) == Eval(w, e, locals, m.sh)
  {
    ReadsLocals(e, |locals|, |m.sh.upvals|);
    forall i | i in Reads(e) ensures 0 <= i < |locals| && m.regs[i] == locals[i] {
      assert m.regs[..|locals|][i] == locals[i];
    }
    EvalReads(w, e, m.regs, locals, m.sh);
  }

  /** The value of an expression is in register r, and the run is here; or it has failed. */
  ghost predicate Loaded(p: Program, st: State, r: Reg, v: Result<Value>, m0: Machine, m: Machine, locals: seq<Value>) {
    && m0.Running? && Reaches(p, m0, m)
    && if m.Running? then Here(st, m, 0) && m.sh == m0.sh && v == Ok(m.regs[r]) && Frame(m, locals)
       else v.Err? && m == Failed(v.msg, m0.sh)
  }

  lemma LoadedFrom(p: Program, st: State, d: Desc, v: Result<Value>, m0: Machine, m: Machine, locals: seq<Value>,
                   n: int)
    requires Frame(m0, locals) && Runs(p, m0, m, n, -1) && |locals| <= n
    requires Arrived(p, st, d, v, m, 0, m0.sh) && d.kind.NonRelocK? && !HasJump(d)
    ensures Loaded(p, st, d.kind.r, v, m0, m, locals)
  {
    ArrivedLeft(p, st, d, v, m, 0, m0.sh);
    if m.Running? {
      FrameKept(p, m0, m, locals, n);
    }
  }

  // ----- expressions in statements -----

  /** A statement's expression, up to its description. */
  lemma ValueRuns(p: Program, st: State, e: Expr, outer: multiset<nat>, m0: Machine, locals: seq<Value>)
      returns (m: Machine)
    requires Frame(m0, locals) && Here(st, m0, 0) && |locals| == st.actVar <= st.nextReg
    requires Compilable(st, e, st.actVar, outer, |m0.sh.upvals|) && Compile(st, e).Ok?
    requires var (st1, d) := Compile(st, e).value; Final(p, st1, 0, Stop(st1, d), st.actVar, -1, OwnOf(d), outer)
    ensures var (st1, d) := Compile(st, e).value;
      Arrived(p, st1, d, Eval(p.w, e, locals, m0.sh), m, 0, m0.sh) && Runs(p, m0, m, st.actVar, -1)
  {
    hide Compile, Sound, Described, Final, Arrived, Here, Compilable;
    CompilableWf(st, e, st.actVar, outer, |m0.sh.upvals|);
    EvalFrame(p.w, e, m0, locals);
    ReadsLocals(e, st.actVar, |m0.sh.upvals|);
    FreshSafe(e, -1);
    m := CompileRuns(p, st, e, st.actVar, outer, m0, 0, st.actVar, -1);
  }

  /** The form of Final that an expression needs before its last steps are taken. */
  lemma ValueFinal(p: Program, st1: State, d: Desc, st2: State, hi: int, n: int, outer: multiset<nat>)
    requires Grows(st1, Stop(st1, d), st2, n) && FinalNew(p, st2, 0, hi, n, outer) && Stop(st1, d) <= hi
    ensures Final(p, st1, 0, Stop(st1, d), n, -1, OwnOf(d), outer)
  {
    hide Grows, Final;
    FinalBack(p, st1, Stop(st1, d), st2, hi, 0, n, n, -1, OwnOf(d), multiset{}, outer);
  }

  lemma InAnyRegRuns(p: Program, st: State, e: Expr, outer: multiset<nat>, m0: Machine, locals: seq<Value>)
      returns (m: Machine)
    requires Frame(m0, locals) && Here(st, m0, 0) && |locals| == st.actVar
    requires Ready(st, e, outer, |m0.sh.upvals|) && Compile(st, e).Ok?
    requires var (st1, d) := Compile(st, e).value;
      && AnyReg(st1, d).Ok?
      && var (st2, d2) := AnyReg(st1, d).value;
      d2.kind.NonRelocK? && Settled(p, st2)
    ensures var (st1, d) := Compile(st, e).value;
      var (st2, d2) := AnyReg(st1, d).value;
      Loaded(p, st2, d2.kind.r, Eval(p.w, e, locals, m0.sh), m0, m, locals)
  {
    hide Compile, AnyReg, Described, Grows, Final, Arrived, Here, Compilable, Settled, Loaded, Frame, Runs;
    var n := st.actVar;
    FrameLen(m0, locals);
    ValueShape(st, e, outer, |m0.sh.upvals|);
    var (st1, d) := Compile(st, e).value;
    AnyRegShape(st1, d, outer, |m0.sh.upvals|, n);
    var (st2, d2) := AnyReg(st1, d).value;
    SettledFinal(p, st2, n, outer);
    GrowsActVar(st1, Stop(st1, d), st2, n);
    ValueFinal(p, st1, d, st2, |st2.code|, n, outer);
    var m1 := ValueRuns(p, st, e, outer, m0, locals);
    var v := Eval(p.w, e, locals, m0.sh);
    m := AnyRegRuns(p, st1, d, st2, d2, v, m1, 0, m0.sh, outer, n);
    RunsTrans(p, m0, m1, m, n, -1);
    LoadedFrom(p, st2, d2, v, m0, m, locals, n);
  }

  lemma FrameLen(m: Machine, locals: seq<Value>)
    requires Frame(m, locals)
    ensures m.Running? && |locals| <= 0x100
  {
  }

  /** An instruction emitted after a value was loaded is the next to run. */
  lemma NextInstr(p: Program, st: State, i: Instr, st': State, r: Reg, v: Result<Value>, m0: Machine, m: Machine,
                  locals: seq<Value>, outer: multiset<nat>) returns (m': Machine)
    requires Loaded(p, st, r, v, m0, m, locals) && Sound(st, |st.code|, multiset(st.pending) + outer)
    requires Emit(st, i) == Ok(st') && Settled(p, st') && |st'.code| == |st.code| + 1 && st'.code[|st.code|] == i
    requires !(i.op == Jump) && !IsCopy(i)
    ensures if m.Running?
               then m' == Step(p, m.(ip := |st.code|)) && |st.code| < |p.code| && p.code[|st.code|] == i else m' == m
    ensures Reaches(p, m0, m')
  {
    hide Emit, Tidy, Bounded, InRange;
    m' := m;
    if m.Running? {
      FinalShort(p, st', 0, |st'.code|, |st.code|, NO_REG, -1, multiset{}, multiset{});
      var m1 := EmitRuns(p, st, i, outer, m, 0, st', NO_REG, -1, multiset{}, multiset{});
      FinalWord(p, st', 0, |st'.code|, NO_REG, -1, multiset{}, multiset{}, |st.code|);
      m' := Step(p, m1);
      ReachesStep(p, m1);
      ReachesTrans(p, m0, m, m1);
      ReachesTrans(p, m0, m1, m');
    }
  }

  // ----- statements without control flow -----

  /** Where a statement's code leaves the run. */
  ghost predicate Lands(st: State, ls: Loops, o: Outcome, m: Machine) {
    match o
    case Normal(locals, sh) => Frame(m, locals) && m.sh == sh && Here(st, m, 0)
    case Broke(locals, sh) => Frame(m, locals) && m.sh == sh && m.ip in ls.breaks
    case Continued(locals, sh) => Frame(m, locals) && m.sh == sh && m.ip in ls.conts
    case Returned(v, sh) => m == Halted(v, sh)
    case Raised(msg, sh) => m == Failed(msg, sh)
    case OutOfFuel => m.Running?
  }

  lemma EvaluateRuns(p: Program, st: State, e: Expr, outer: multiset<nat>, m0: Machine, locals: seq<Value>,
                     ls: Loops, fuel: nat)
      returns (m: Machine)
    requires Frame(m0, locals) && Here(st, m0, 0) && |locals| == st.actVar
    requires Ready(st, e, outer, |m0.sh.upvals|) && Evaluate(st, e).Ok? && Settled(p, Evaluate(st, e).value)
    ensures Reaches(p, m0, m) && Lands(Evaluate(st, e).value, ls, Exec(p.w, Do(e), locals, m0.sh, fuel), m)
  {
    hide Compile, AnyReg, Compilable, Settled, Here, Frame;
    FrameLen(m0, locals);
    InAnyReg(st, e, outer, |m0.sh.upvals|);
    m := InAnyRegRuns(p, st, e, outer, m0, locals);
  }

  lemma StoreUpvalueRuns(p: Program, st: State, u: Reg, e: Expr, outer: multiset<nat>, m0: Machine,
                         locals: seq<Value>, ls: Loops, fuel: nat)
      returns (m: Machine)
    requires Frame(m0, locals) && Here(st, m0, 0) && |locals| == st.actVar
    requires Ready(st, e, outer, |m0.sh.upvals|) && StoreUpvalue(st, u, e).Ok?
    requires Settled(p, StoreUpvalue(st, u, e).value)
    requires u < |m0.sh.upvals| && u < NO_REG
    ensures Reaches(p, m0, m)
    ensures Lands(StoreUpvalue(st, u, e).value, ls, Exec(p.w, SetUpvalue(u, e), locals, m0.sh, fuel), m)
  {
    hide Compile, Operand, Emit, Described, Grows, Final, Arrived, Compilable, Settled, Sound, Loaded, Extends, Runs;
    hide Reaches;
    hide Eval, Tidy, Falsey, AtJump, KindOk;
    var n, upvals := st.actVar, |m0.sh.upvals|;
    ReadySound(st, e, outer, upvals);
    ValueShape(st, e, outer, upvals);
    var (st1, d) := Compile(st, e).value;
    OperandShape(st1, d, outer, upvals, n);
    var (st2, d2) := Operand(st1, d).value;
    GrowsActVar(st1, Stop(st1, d), st2, n);
    GrowsTrans(st, |st.code|, st1, Stop(st1, d), st2, n, n);
    ValueDone(st, |st.code|, st2, d2, n, outer, upvals);
    var i := Instr(SetUpval, u, d2.kind.r);
    var st' := StoreUpvalue(st, u, e).value;
    EffectShape(st2, i, outer);
    SettledBack(p, st2, st');
    SettledFinal(p, st2, n, outer);
    ValueFinal(p, st1, d, st2, |st2.code|, n, outer);
    var m1 := ValueRuns(p, st, e, outer, m0, locals);
    var v := Eval(p.w, e, locals, m0.sh);
    var m2 := OperandRuns(p, st1, d, st2, d2, v, m1, 0, m0.sh, outer, n);
    RunsTrans(p, m0, m1, m2, n, -1);
    LoadedFrom(p, st2, d2, v, m0, m2, locals, n);
    m := NextInstr(p, st2, i, st', d2.kind.r, v, m0, m2, locals, outer);
    LoadedParts(p, st2, d2.kind.r, v, m0, m2, locals);
  }

  lemma LoadedParts(p: Program, st: State, r: Reg, v: Result<Value>, m0: Machine, m: Machine, locals: seq<Value>)
    requires Loaded(p, st, r, v, m0, m, locals)
    ensures if m.Running? then m.sh == m0.sh && v == Ok(m.regs[r]) && Frame(m, locals)
            else v.Err? && m == Failed(v.msg, m0.sh)
  {
  }

  lemma StoreGlobalRuns(p: Program, st: State, name: string, e: Expr, outer: multiset<nat>, m0: Machine,
                        locals: seq<Value>, ls: Loops, fuel: nat)
      returns (m: Machine)
    requires Frame(m0, locals) && Here(st, m0, 0) && |locals| == st.actVar
    requires StoreGlobal(st, name, e).Ok? && Ready(MakeConst(st, Str(name)).value.0, e, outer, |m0.sh.upvals|)
    requires Settled(p, StoreGlobal(st, name, e).value)
    ensures Reaches(p, m0, m)
    ensures Lands(StoreGlobal(st, name, e).value, ls, Exec(p.w, SetGlobalVar(name, e), locals, m0.sh, fuel), m)
  {
    hide Compile, AnyReg, Emit, Described, Grows, Final, Arrived, Compilable, Settled, Sound, Loaded, Extends, Eval;
    hide Tidy, Falsey, AtJump, KindOk;
    var n, upvals := st.actVar, |m0.sh.upvals|;
    var (st0, k) := MakeConst(st, Str(name)).value;
    ReadySound(st0, e, outer, upvals);
    InAnyReg(st0, e, outer, upvals);
    var (st1, d) := Compile(st0, e).value;
    var (st2, d2) := AnyReg(st1, d).value;
    ValueDone(st0, |st0.code|, st2, d2, n, outer, upvals);
    var i := Instr(SetGlobal, d2.kind.r, k);
    var st' := StoreGlobal(st, name, e).value;
    EffectShape(st2, i, outer);
    SettledBack(p, st2, st');
    SettledConst(p, st0, st2, k);
    var m2 := InAnyRegRuns(p, st0, e, outer, m0, locals);
    var v := Eval(p.w, e, locals, m0.sh);
    m := NextInstr(p, st2, i, st', d2.kind.r, v, m0, m2, locals, outer);
    LoadedParts(p, st2, d2.kind.r, v, m0, m2, locals);
  }

  /** A constant stays where it is. */
  lemma SettledConst(p: Program, st: State, st': State, k: nat)
    requires Extends(st, st') && Settled(p, st') && k < |st.consts|
    ensures k < |p.consts| && p.consts[k] == st.consts[k]
  {
    assert st.consts <= p.consts;
  }

  lemma DeclareGlobalRuns(p: Program, st: State, name: string, e: Expr, outer: multiset<nat>, m0: Machine,
                          locals: seq<Value>, ls: Loops, fuel: nat)
      returns (m: Machine)
    requires Frame(m0, locals) && Here(st, m0, 0) && |locals| == st.actVar
    requires DeclareGlobal(st, name, e).Ok? && Ready(MakeConst(st, Str(name)).value.0, e, outer, |m0.sh.upvals|)
    requires Settled(p, DeclareGlobal(st, name, e).value)
    ensures Reaches(p, m0, m)
    ensures Lands(DeclareGlobal(st, name, e).value, ls, Exec(p.w, VarGlobal(name, e), locals, m0.sh, fuel), m)
  {
    hide Compile, NextReg, AnyReg, Emit, Described, Grows, Final, Arrived, Compilable, Settled, Sound, Loaded, Extends;
    hide Runs, Eval, Tidy, Falsey, AtJump, KindOk;
    var n, upvals := st.actVar, |m0.sh.upvals|;
    var (st0, k) := MakeConst(st, Str(name)).value;
    ReadySound(st0, e, outer, upvals);
    ValueShape(st0, e, outer, upvals);
    var (st1, d) := Compile(st0, e).value;
    NextRegShape(st1, d, outer, upvals, n);
    var (st2, d2) := NextReg(st1, d).value;
    HereStays(st2, d2);
    GrowsActVar(st1, Stop(st1, d), st2, n);
    GrowsTrans(st0, |st0.code|, st1, Stop(st1, d), st2, n, n);
    ValueDone(st0, |st0.code|, st2, d2, n, outer, upvals);
    var i := Instr(DefineGlobal, d2.kind.r, k);
    var st' := DeclareGlobal(st, name, e).value;
    EffectShape(st2, i, outer);
    SettledBack(p, st2, st');
    SettledConst(p, st0, st2, k);
    SettledFinal(p, st2, n, outer);
    ValueFinal(p, st1, d, st2, |st2.code|, n, outer);
    var m1 := ValueRuns(p, st0, e, outer, m0, locals);
    var v := Eval(p.w, e, locals, m0.sh);
    var m2 := NextRegRuns(p, st1, d, st2, v, m1, 0, m0.sh, outer, n);
    RunsTrans(p, m0, m1, m2, n, -1);
    LoadedFrom(p, st2, d2, v, m0, m2, locals, n);
    m := NextInstr(p, st2, i, st', d2.kind.r, v, m0, m2, locals, outer);
    LoadedParts(p, st2, d2.kind.r, v, m0, m2, locals);
  }

  /** Final before exprToReg, when the jumps of d get the destination x. */
  lemma OwnFinal(p: Program, st1: State, d: Desc, st2: State, n: int, x: int, out: multiset<nat>)
    requires GrowsFor(st1, Stop(st1, d), st2, NO_REG, x, OwnOf(d)) && Settled(p, st2) && n <= NO_REG
    requires Stop(st1, d) <= |st1.code|
    ensures Final(p, st1, 0, Stop(st1, d), n, x, OwnOf(d), out)
  {
    forall i | 0 <= i < Stop(st1, d) && !Excluded(st1.code, i, out)
      ensures LaterAt(st1.code, p.code, i, n, x, OwnOf(d)) {
      assert LaterAt(st1.code, st2.code, i, NO_REG, x, OwnOf(d));
      assert LaterAt(st2.code, p.code, i, NO_REG, -1, multiset{});
    }
  }

  lemma SettledFor(p: Program, st: State, n: int, x: int, out: multiset<nat>)
    requires Settled(p, st) && n <= NO_REG
    ensures Final(p, st, 0, |st.code|, n, x, multiset{}, out)
  {
    forall i | 0 <= i < |st.code| && !Excluded(st.code, i, out) ensures LaterAt(st.code, p.code, i, n, x, multiset{}) {
      assert LaterAt(st.code, p.code, i, NO_REG, -1, multiset{});
    }
  }

  /** The assigned local has its new value, the others are unchanged. */
  lemma FrameSet(p: Program, m0: Machine, m: Machine, locals: seq<Value>, x: Reg, v: Value)
    requires Frame(m0, locals) && Runs(p, m0, m, |locals|, x) && m.Running? && x < |locals| && m.regs[x] == v
    ensures Frame(m, locals[x := v]) && m.sh == m0.sh
  {
    forall i | 0 <= i < |locals| ensures m.regs[i] == locals[x := v][i] {
      assert m0.regs[..|locals|][i] == locals[i];
    }
    assert m.regs[..|locals|] == locals[x := v];
  }

  /** An expression computed into a local that it may read. */
  lemma StoreLocalRuns(p: Program, st: State, x: Reg, e: Expr, outer: multiset<nat>, m0: Machine,
                       locals: seq<Value>, ls: Loops, fuel: nat)
      returns (m: Machine)
    requires Frame(m0, locals) && Here(st, m0, 0) && |locals| == st.actVar
    requires Ready(st, e, outer, |m0.sh.upvals|) && StoreLocal(st, x, e).Ok? && Settled(p, StoreLocal(st, x, e).value)
    requires x < st.actVar && Safe(e, x)
    ensures Reaches(p, m0, m)
    ensures Lands(StoreLocal(st, x, e).value, ls, Exec(p.w, SetLocal(x, e), locals, m0.sh, fuel), m)
  {
    hide Compile, ToReg, Described, Grows, GrowsFor, Final, Arrived, Compilable, Settled, Sound, AtJump, Falsey;
    var n, upvals := st.actVar, |m0.sh.upvals|;
    ValueShape(st, e, outer, upvals);
    CompilableWf(st, e, n, outer, upvals);
    EvalFrame(p.w, e, m0, locals);
    var (st1, d) := Compile(st, e).value;
    ToRegShape(st1, d, x, outer, upvals, NO_REG, x, OwnOf(d));
    var (st2, d2) := ToReg(st1, d, x).value;
    StopLen(st1, d, outer, upvals);
    OwnFinal(p, st1, d, st2, n, x, outer);
    SettledFor(p, st2, n, x, outer);
    var v := Eval(p.w, e, locals, m0.sh);
    var m1 := CompileRuns(p, st, e, n, outer, m0, 0, n, x);
    m := ToRegRuns(p, st1, d, x, st2, v, m1, 0, m0.sh, outer, n, x, multiset{}, outer);
    RunsMono(p, m0, m1, n, if Dirty(e, x) then x else -1, n, x);
    RunsTrans(p, m0, m1, m, n, x);
    ArrivedLeft(p, st2, d2, v, m, 0, m0.sh);
    if m.Running? {
      FrameSet(p, m0, m, locals, x, v.value);
    }
  }

  lemma StopLen(st: State, d: Desc, outer: multiset<nat>, upvals: nat)
    requires Described(st, d, outer, upvals)
    ensures Stop(st, d) <= |st.code|
  {
  }

  /** The new local is in its register, above the others. */
  lemma FrameNew(p: Program, m0: Machine, m: Machine, locals: seq<Value>, v: Value)
    requires Frame(m0, locals) && Runs(p, m0, m, |locals|, -1)
    requires m.Running? && |locals| < 0x100 && m.regs[|locals|] == v
    ensures Frame(m, locals + [v]) && m.sh == m0.sh
  {
    forall i | 0 <= i < |locals| ensures m.regs[i] == locals[i] {
      assert m0.regs[..|locals|][i] == locals[i];
    }
    assert m.regs[..|locals| + 1] == locals + [v];
  }

  /** exprNextReg on the value of an initializer. */
  lemma InitializerRuns(p: Program, st: State, e: Expr, outer: multiset<nat>, m0: Machine, locals: seq<Value>)
      returns (m: Machine)
    requires Frame(m0, locals) && Here(st, m0, 0) && |locals| == st.actVar == st.nextReg <= 252
    requires Compilable(Declaring(st), e, st.actVar, outer, |m0.sh.upvals|) && Compile(Declaring(st), e).Ok?
    requires var (st1, d) := Compile(Declaring(st), e).value;
      && NextReg(st1, d).Ok?
      && FinalNew(p, NextReg(st1, d).value.0, 0, |NextReg(st1, d).value.0.code|, st.actVar, outer)
    ensures var (st1, d) := Compile(Declaring(st), e).value;
      var (st2, d2) := NextReg(st1, d).value;
      && Arrived(p, st2, d2, Eval(p.w, e, locals, m0.sh), m, 0, m0.sh) && Runs(p, m0, m, st.actVar, -1)
  {
    hide Compile, NextReg, Described, Grows, Final, Arrived, Here, Compilable;
    var n, upvals := st.actVar, |m0.sh.upvals|;
    var st0 := Declaring(st);
    CompilableWf(st0, e, n, outer, upvals);
    EvalFrame(p.w, e, m0, locals);
    ReadsLocals(e, n, upvals);
    FreshSafe(e, -1);
    var (st1, d) := Compile(st0, e).value;
    InitializerParts(st, e, outer, upvals);
    var (st2, d2) := NextReg(st1, d).value;
    ValueFinal(p, st1, d, st2, |st2.code|, n, outer);
    HereDeclaring(st, m0);
    var v := Eval(p.w, e, locals, m0.sh);
    var m1 := CompileRuns(p, st0, e, n, outer, m0, 0, n, -1);
    m := NextRegRuns(p, st1, d, st2, v, m1, 0, m0.sh, outer, n);
    RunsTrans(p, m0, m1, m, n, -1);
  }

  lemma HereDeclaring(st: State, m: Machine)
    requires Here(st, m, 0) && st.actVar < 255
    ensures Here(Declaring(st), m, 0)
  {
  }

  lemma InitializerParts(st: State, e: Expr, outer: multiset<nat>, upvals: nat)
    requires st.nextReg == st.actVar <= 252 && Compilable(Declaring(st), e, st.actVar, outer, upvals)
    requires Compile(Declaring(st), e).Ok?
    requires var (st1, d) := Compile(Declaring(st), e).value; NextReg(st1, d).Ok?
    ensures var (st1, d) := Compile(Declaring(st), e).value;
      var (st2, d2) := NextReg(st1, d).value;
      && Described(st1, d, outer, upvals) && st.actVar <= st1.nextReg <= 253
      && (d.kind.LocalK? || d.kind.NonRelocK? ==> d.kind.r < st1.actVar)
      && d2 == Desc(NonRelocK(st1.nextReg), [], []) && Grows(st1, Stop(st1, d), st2, st.actVar)
      && Stop(st1, d) <= |st2.code|
  {
    hide Compile, NextReg, Described, Grows, Sound;
    var st0 := Declaring(st);
    CompileShape(st0, e, st.actVar, outer, upvals);
    var (st1, d) := Compile(st0, e).value;
    GrowsActVar(st0, |st0.code|, st1, st0.nextReg);
    DescribedRegs(st1, d, outer, upvals);
    NextRegShape(st1, d, outer, upvals, st.actVar);
    GrowsActVar(st1, Stop(st1, d), NextReg(st1, d).value.0, st.actVar);
  }

  /** What the code becomes, seen from the steps of a local declaration. */
  lemma DeclareLocalParts(p: Program, st: State, e: Expr, outer: multiset<nat>, upvals: nat)
    requires st.nextReg == st.actVar <= 252 && Compilable(Declaring(st), e, st.actVar, outer, upvals)
    requires DeclareLocal(st, e).Ok? && Settled(p, DeclareLocal(st, e).value)
    ensures Compile(Declaring(st), e).Ok?
    ensures var (st1, d) := Compile(Declaring(st), e).value;
      && NextReg(st1, d).Ok?
      && var (st2, d2) := NextReg(st1, d).value;
      && d2 == Desc(NonRelocK(st1.nextReg), [], [])
      && FinalNew(p, st2, 0, |st2.code|, st.actVar, outer)
      && var st3 := ExprFree(st2, d2);
      && Described(st3, d2, outer, upvals) && st3 == st2.(nextReg := st3.nextReg)
      && ToReg(st3, d2, st.actVar) == Ok((DeclareLocal(st, e).value, Desc(NonRelocK(st.actVar), [], [])))
      && st.actVar < st3.maxReg
  {
    hide Compile, NextReg, ToReg, Described, Grows, Sound, Compilable, Settled, Final;
    InitializerShape(st, e, outer, upvals);
    InitializerParts(st, e, outer, upvals);
    var st0 := Declaring(st);
    var (st1, d) := Compile(st0, e).value;
    var (st2, d2) := NextReg(st1, d).value;
    var st3 := ExprFree(st2, d2);
    FreeShape(st2, d2, outer, upvals);
    ToRegShape(st3, d2, st.actVar, outer, upvals, st.actVar, -1, multiset{});
    var (st4, d4) := ToReg(st3, d2, st.actVar).value;
    GrowsIsFor(st3, |st3.code|, st4, st.actVar);
    GrowsActVar(st3, |st3.code|, st4, st.actVar);
    SettledFinal(p, st4, st.actVar, outer);
    FinalBack(p, st3, |st3.code|, st4, |st4.code|, 0, st.actVar, st.actVar, -1, multiset{}, multiset{}, outer);
    FinalRegs(p, st3, 0, |st3.code|, st.actVar, outer, st2);
  }

  lemma DeclareLocalRuns(p: Program, st: State, e: Expr, outer: multiset<nat>, m0: Machine, locals: seq<Value>,
                         ls: Loops, fuel: nat)
      returns (m: Machine)
    requires Frame(m0, locals) && Here(st, m0, 0) && |locals| == st.actVar == st.nextReg <= 252
    requires Compilable(Declaring(st), e, st.actVar, outer, |m0.sh.upvals|)
    requires DeclareLocal(st, e).Ok? && Settled(p, DeclareLocal(st, e).value)
    ensures Reaches(p, m0, m) && Lands(DeclareLocal(st, e).value, ls, Exec(p.w, VarLocal(e), locals, m0.sh, fuel), m)
  {
    hide Compile, NextReg, ToReg, Described, Grows, Final, Arrived, Compilable, Settled, DeclareLocal, ExprFree;
    var n, upvals := st.actVar, |m0.sh.upvals|;
    DeclareLocalParts(p, st, e, outer, upvals);
    var (st1, d) := Compile(Declaring(st), e).value;
    var (st2, d2) := NextReg(st1, d).value;
    var st3 := ExprFree(st2, d2);
    var st4 := DeclareLocal(st, e).value;
    var v := Eval(p.w, e, locals, m0.sh);
    var m2 := InitializerRuns(p, st, e, outer, m0, locals);
    ArrivedRegs(p, st2, d2, v, m2, 0, m0.sh, st3);
    SettledFinal(p, st4, n, outer);
    m := ToRegRuns(p, st3, d2, n, st4, v, m2, 0, m0.sh, outer, n, -1, multiset{}, outer);
    RunsTrans(p, m0, m2, m, n, -1);
    ArrivedLeft(p, st4, Desc(NonRelocK(n), [], []), v, m, 0, m0.sh);
    if m.Running? {
      FrameNew(p, m0, m, locals, v.value);
    }
  }

  /** emitReturn: the run ends with the value. */
  lemma ReturnRuns(p: Program, st: State, d: Desc, v: Result<Value>, outer: multiset<nat>, m0: Machine, m1: Machine,
                   locals: seq<Value>, n: int) returns (m: Machine)
    requires Frame(m0, locals) && |locals| <= n
    requires Described(st, d, outer, |m0.sh.upvals|) && EmitReturn(st, d).Ok?
    requires n <= st.nextReg <= 253 && st.actVar <= st.nextReg
    requires Usable(st, d)
    requires Settled(p, EmitReturn(st, d).value)
    requires Arrived(p, st, d, v, m1, 0, m0.sh) && Runs(p, m0, m1, n, -1)
    ensures Reaches(p, m0, m)
    ensures m == if v.Ok? then Halted(v.value, m0.sh) else Failed(v.msg, m0.sh)
  {
    hide AnyReg, Emit, Described, Grows, Sound, Extends, Final, Arrived, Settled, EmitReturn, Loaded;
    var upvals := |m0.sh.upvals|;
    ReturnShape(st, d, outer, upvals, n);
    var (st1, d1) := AnyReg(st, d).value;
    var i := Instr(Return, d1.kind.r, 2);
    var st' := EmitReturn(st, d).value;
    DescribedParts(st1, d1, outer, upvals);
    assert multiset(st1.pending) + (multiset(d1.tj) + multiset(d1.fj) + outer) == multiset(st1.pending) + outer;
    ReturnSteps(st, d);
    EffectShape(st1, i, outer);
    SettledBack(p, st1, st');
    SettledFinal(p, st1, n, outer);
    var m2 := AnyRegRuns(p, st, d, st1, d1, v, m1, 0, m0.sh, outer, n);
    RunsTrans(p, m0, m1, m2, n, -1);
    LoadedFrom(p, st1, d1, v, m0, m2, locals, n);
    m := NextInstr(p, st1, i, st', d1.kind.r, v, m0, m2, locals, outer);
    LoadedParts(p, st1, d1.kind.r, v, m0, m2, locals);
  }

  lemma ReturnSteps(st: State, d: Desc)
    requires EmitReturn(st, d).Ok?
    ensures AnyReg(st, d).Ok?
    ensures var (st1, d1) := AnyReg(st, d).value;
      d1.kind.NonRelocK? ==> Emit(st1, Instr(Return, d1.kind.r, 2)) == EmitReturn(st, d)
  {
    hide AnyReg, Emit;
  }

  lemma ReturnWithRuns(p: Program, st: State, e: Expr, outer: multiset<nat>, m0: Machine, locals: seq<Value>,
                       ls: Loops, fuel: nat)
      returns (m: Machine)
    requires Frame(m0, locals) && Here(st, m0, 0) && |locals| == st.actVar
    requires Ready(st, e, outer, |m0.sh.upvals|) && ReturnWith(st, e).Ok? && Settled(p, ReturnWith(st, e).value)
    ensures Reaches(p, m0, m) && Lands(ReturnWith(st, e).value, ls, Exec(p.w, ReturnValue(e), locals, m0.sh, fuel), m)
  {
    hide Compile, AnyReg, EmitReturn, Described, Grows, Final, Arrived, Compilable, Settled, Extends;
    var n, upvals := st.actVar, |m0.sh.upvals|;
    ValueShape(st, e, outer, upvals);
    var (st1, d) := Compile(st, e).value;
    var st' := ReturnWith(st, e).value;
    ReturnShape(st1, d, outer, upvals, n);
    var (st2, d2) := AnyReg(st1, d).value;
    DoneExtends(st2, st', outer, 0);
    SettledBack(p, st2, st');
    SettledFinal(p, st2, n, outer);
    GrowsActVar(st1, Stop(st1, d), st2, n);
    ValueFinal(p, st1, d, st2, |st2.code|, n, outer);
    var v := Eval(p.w, e, locals, m0.sh);
    var m1 := ValueRuns(p, st, e, outer, m0, locals);
    m := ReturnRuns(p, st1, d, v, outer, m0, m1, locals, n);
  }

  lemma DoneExtends(st: State, st1: State, outer: multiset<nat>, decls: nat)
    requires Done(st, st1, outer, decls)
    ensures Extends(st, st1)
  {
  }

  /** Any statement without control flow. */
  lemma SimpleRuns(p: Program, st: State, s: Stmt, outer: multiset<nat>, m0: Machine, locals: seq<Value>,
                   ls: Loops, fuel: nat)
      returns (m: Machine)
    requires Frame(m0, locals) && Here(st, m0, 0) && |locals| == st.actVar
    requires SimpleReady(st, s, outer, |m0.sh.upvals|) && IsSimple(s) && Settled(p, CompileSimple(st, s).value)
    ensures Reaches(p, m0, m) && Lands(CompileSimple(st, s).value, ls, Exec(p.w, s, locals, m0.sh, fuel), m)
  {
    hide Compilable, Ready, Settled, Lands, Exec, Sound, Frame, Here;
    hide DeclareLocal, DeclareGlobal, StoreLocal, StoreUpvalue, StoreGlobal, Evaluate, ReturnWith;
    FrameLen(m0, locals);
    if !s.Skip? {
      SimpleReadyParts(st, s, outer, |m0.sh.upvals|);
    }
    match s {
      case VarLocal(e) => m := DeclareLocalRuns(p, st, e, outer, m0, locals, ls, fuel);
      case VarGlobal(name, e) => m := DeclareGlobalRuns(p, st, name, e, outer, m0, locals, ls, fuel);
      case SetLocal(x, e) => m := StoreLocalRuns(p, st, x, e, outer, m0, locals, ls, fuel);
      case SetUpvalue(u, e) => m := StoreUpvalueRuns(p, st, u, e, outer, m0, locals, ls, fuel);
      case SetGlobalVar(name, e) => m := StoreGlobalRuns(p, st, name, e, outer, m0, locals, ls, fuel);
      case Do(e) => m := EvaluateRuns(p, st, e, outer, m0, locals, ls, fuel);
      case ReturnValue(e) => m := ReturnWithRuns(p, st, e, outer, m0, locals, ls, fuel);
      case Skip =>
        m := m0;
        ReachesStep(p, m0);
        SkipLands(p, st, m0, locals, ls, fuel);
    }
  }

  lemma SkipLands(p: Program, st: State, m: Machine, locals: seq<Value>, ls: Loops, fuel: nat)
    requires Frame(m, locals) && Here(st, m, 0)
    ensures Lands(st, ls, Exec(p.w, Skip, locals, m.sh, fuel), m)
  {
  }

  // ----- conditions and loops -----

  /** A nil that becomes the false of a condition does not change its truth. */
  lemma JudgedArrives(p: Program, st: State, d: Desc, v: Result<Value>, m: Machine, sh: Shared)
      returns (v': Result<Value>)
    requires Arrived(p, st, d, v, m, 0, sh)
    ensures Arrived(p, st, Judged(d), v', m, 0, sh)
    ensures if v.Ok? then v'.Ok? && Falsey(p.w, v'.value) == Falsey(p.w, v.value) else v' == v
  {
    v' := v;
    if m.Running? && d.kind == PrimK(0) && AtEnd(p, st, d, v, m, 0) {
      v' := Ok(Bool(false));
      assert AtEnd(p, st, Judged(d), v', m, 0);
    } else if m.Running? && v.Ok? && AtJump(p, st, d, v.value, m, 0) {
      assert AtJump(p, st, Judged(d), v.value, m, 0);
    }
  }

  /** The condition has been decided: here when it holds, else at a jump of the list. */
  ghost predicate Decided(p: Program, st: State, st1: State, flist: seq<nat>, v: Result<Value>, m0: Machine,
                          m: Machine, locals: seq<Value>) {
    && m0.Running? && Reaches(p, m0, m)
    && if m.Running? then
         && v.Ok? && m.sh == m0.sh && Frame(m, locals) && m.ip > |st.code|
         && (if Falsey(p.w, v.value) then m.ip in flist else Here(st1, m, 0))
       else v.Err? && m == Failed(v.msg, m0.sh)
  }

  /** Jumps of a condition are new. */
  lemma ConditionJumps(st: State, c: Expr, outer: multiset<nat>, upvals: nat)
    requires Ready(st, c, outer, upvals) && Condition(st, c).Ok?
    ensures var (st', flist) := Condition(st, c).value;
      && |st'.code| > |st.code| && forall j | j in st'.pending || j in flist :: j > |st.code|
  {
    hide Compile, BranchOn, Described, Grows, Compilable;
    ValueShape(st, c, outer, upvals);
    NewJumps(st, c, st.actVar, outer, upvals);
    var (st1, d0) := Compile(st, c).value;
    var d := Judged(d0);
    JudgedShape(st1, d0, outer, upvals);
    BranchOnShape(st1, d, true, outer, upvals);
    BranchOnPending(st1, d, outer, upvals);
  }

  lemma ConditionRuns(p: Program, st: State, c: Expr, outer: multiset<nat>, m0: Machine, locals: seq<Value>)
      returns (m: Machine)
    requires Frame(m0, locals) && Here(st, m0, 0) && |locals| == st.actVar
    requires Ready(st, c, outer, |m0.sh.upvals|) && Condition(st, c).Ok? && Settled(p, Condition(st, c).value.0)
    ensures var (st', flist) := Condition(st, c).value;
      Decided(p, st, st', flist, Eval(p.w, c, locals, m0.sh), m0, m, locals)
  {
    hide Compile, BranchOn, Described, Grows, Final, Arrived, Compilable, Settled, Sound, Branched;
    var n, upvals := st.actVar, |m0.sh.upvals|;
    ValueShape(st, c, outer, upvals);
    ConditionJumps(st, c, outer, upvals);
    var (st1, d0) := Compile(st, c).value;
    var d := Judged(d0);
    JudgedShape(st1, d0, outer, upvals);
    BranchOnShape(st1, d, true, outer, upvals);
    var (st2, flist) := BranchOn(st1, d, true).value;
    SettledFinal(p, st2, n, outer);
    FinalBack(p, st1, Stop(st1, d), st2, |st2.code|, 0, n, NO_REG, -1, OwnOf(d0), multiset{}, outer) by {
      GrowsActVar(st1, Stop(st1, d), st2, NO_REG);
    }
    var m1 := ValueRuns(p, st, c, outer, m0, locals);
    var v := Eval(p.w, c, locals, m0.sh);
    var v' := JudgedArrives(p, st1, d0, v, m1, m0.sh);
    m := BranchOnRuns(p, st1, d, true, st2, flist, v', m1, 0, m0.sh, outer, n, -1, multiset{}, outer);
    RunsTrans(p, m0, m1, m, n, -1);
    BranchedParts(p, st2, flist, true, v', m, 0, m0.sh);
    if m.Running? {
      FrameKept(p, m0, m, locals, n);
    }
  }

  /** Reaching the end of the loop body or its `continue` leads back to the start. */
  lemma LoopEndJumps(st: State, ls: Loops, start: nat, outer: multiset<nat>, j: nat)
    requires Sound(st, |st.code|, multiset(st.pending) + (LoopJumps(ls) + outer)) && LoopEnd(st, ls, start).Ok?
    requires start < |st.code| && !Open(st.code, start)
    requires j in ls.conts || j in st.pending || j == |st.code|
    ensures var c := LoopEnd(st, ls, start).value.code;
      j < |c| && c[j].op == Jump && c[j].d != UNPATCHED && Target(c, j) == start && j != start
  {
    hide EmitJump, PatchTo, LoopEnd, Extends, PatchList, InRange, Bounded;
    LoopEndSteps(st, ls, start);
    LeaveShape(st, LoopJumps(ls) + outer);
    var (st1, jump) := EmitJump(st).value;
    var conts := ls.conts + jump;
    var lists := multiset(jump) + (LoopJumps(ls) + outer);
    assert lists == multiset(conts) + (multiset(ls.breaks) + outer);
    StillClosed(st, st1, start);
    ListIsOpen(st1.code, conts, lists);
    PatchToAt(st1, conts, start, j);
    ToHereCode(PatchTo(st1, conts, start).value, ls.breaks);
  }

  lemma ToHereCode(st: State, list: seq<nat>)
    requires ToHere(st, list).Ok?
    ensures ToHere(st, list).value.code == st.code
  {
  }

  lemma PatchToAt(st: State, list: seq<nat>, target: nat, j: nat)
    requires WfCode(st.code) && AllOpen(st.code, list) && j in list && !Open(st.code, target) && target < |st.code|
    requires PatchTo(st, list, target).Ok?
    ensures var c := PatchTo(st, list, target).value.code;
      j < |c| && c[j].op == Jump && c[j].d != UNPATCHED && Target(c, j) == target && j != target
  {
    assert Open(st.code, j);
    PatchListAt(st.code, list, target, NO_REG, target, j);
  }

  /** One step from the end of the body back to the start of the loop. */
  lemma BackToStart(p: Program, st: State, ls: Loops, start: nat, outer: multiset<nat>, m: Machine)
    requires Sound(st, |st.code|, multiset(st.pending) + (LoopJumps(ls) + outer)) && LoopEnd(st, ls, start).Ok?
    requires start < |st.code| && !Open(st.code, start) && Settled(p, LoopEnd(st, ls, start).value)
    requires m.Running? && (m.ip in ls.conts || Here(st, m, 0))
    ensures Steps(p, m, 1) == m.(ip := start)
  {
    hide LoopEnd, Sound;
    var st' := LoopEnd(st, ls, start).value;
    LoopEndJumps(st, ls, start, outer, m.ip);
    FinalWord(p, st', 0, |st'.code|, NO_REG, -1, multiset{}, multiset{}, m.ip);
    assert Steps(p, m, 1) == Steps(p, Step(p, m), 0);
  }

  // ----- all statements -----

  /** After k steps the run stands where the outcome says; a run that has used up its fuel has
      made at least that many steps. */
  ghost predicate Simulates(p: Program, st: State, ls: Loops, o: Outcome, m0: Machine, m: Machine, k: nat, fuel: nat) {
    Steps(p, m0, k) == m && Lands(st, ls, o, m) && (o.OutOfFuel? ==> fuel <= k)
  }

  /** A run before that only adds steps. */
  lemma SimulatesAfter(p: Program, st: State, ls: Loops, o: Outcome, m0: Machine, m1: Machine, m: Machine, i: nat,
                       k: nat, fuel: nat)
    requires Steps(p, m0, i) == m1 && Simulates(p, st, ls, o, m1, m, k, fuel)
    ensures Simulates(p, st, ls, o, m0, m, i + k, fuel)
  {
    StepsAdd(p, m0, i, k);
  }

  /** The same place, seen from a state that has the code and more jumps that come here. */
  lemma LandsAlso(st: State, ls: Loops, o: Outcome, m: Machine, st': State, ls': Loops)
    requires Lands(st, ls, o, m)
    requires o.Normal? ==> Here(st', m, 0)
    requires forall j | j in ls.breaks :: j in ls'.breaks
    requires forall j | j in ls.conts :: j in ls'.conts
    ensures Lands(st', ls', o, m)
  {
  }

  lemma LandsHere(st: State, ls: Loops, o: Outcome, m: Machine)
    requires Lands(st, ls, o, m) && o.Normal?
    ensures Here(st, m, 0) && Frame(m, o.locals) && m.sh == o.sh
  {
  }

  /** Running the code of any statement does what Exec says. */
  lemma {:induction false} CompiledRuns(p: Program, st: State, ls: Loops, s: Stmt, outer: multiset<nat>, m0: Machine,
                                        locals: seq<Value>, fuel: nat) returns (m: Machine, k: nat)
    requires Frame(m0, locals) && Here(st, m0, 0) && |locals| == st.actVar
    requires StmtReady(st, ls, s, outer, |m0.sh.upvals|) && Settled(p, CompileStmt(st, ls, s).value.0)
    ensures var (st', ls') := CompileStmt(st, ls, s).value;
      Simulates(p, st', ls', Exec(p.w, s, locals, m0.sh, fuel), m0, m, k, fuel)
    decreases fuel, s, 1
  {
    hide CompileStmt, StmtReady, Settled, Simulates, Frame, Here, Exec;
    FrameLen(m0, locals);
    match s {
      case Seq(s1, s2) => m, k := SeqRuns(p, st, ls, s1, s2, outer, m0, locals, fuel);
      case Block(body) => m, k := BlockRuns(p, st, ls, body, outer, m0, locals, fuel);
      case If(c, yes) => m, k := IfRuns(p, st, ls, c, yes, outer, m0, locals, fuel);
      case IfElse(c, yes, no) => m, k := IfElseRuns(p, st, ls, c, yes, no, outer, m0, locals, fuel);
      case While(c, body) => m, k := WhileRuns(p, st, ls, c, body, outer, m0, locals, fuel);
      case Break => m, k := LeaveRuns(p, st, ls, s, outer, m0, locals, fuel);
      case Continue => m, k := LeaveRuns(p, st, ls, s, outer, m0, locals, fuel);
      case _ => m, k := PlainRuns(p, st, ls, s, outer, m0, locals, fuel);
    }
  }

  lemma PlainRuns(p: Program, st: State, ls: Loops, s: Stmt, outer: multiset<nat>, m0: Machine,
                  locals: seq<Value>, fuel: nat) returns (m: Machine, k: nat)
    requires Frame(m0, locals) && Here(st, m0, 0) && |locals| == st.actVar && IsSimple(s)
    requires StmtReady(st, ls, s, outer, |m0.sh.upvals|) && Settled(p, CompileStmt(st, ls, s).value.0)
    ensures var (st', ls') := CompileStmt(st, ls, s).value;
      Simulates(p, st', ls', Exec(p.w, s, locals, m0.sh, fuel), m0, m, k, fuel)
  {
    hide CompileStmt, CompileSimple, Settled, Eval, SimpleReady;
    StmtReadyOk(st, ls, s, outer, |m0.sh.upvals|);
    PlainShape(st, ls, s, outer, |m0.sh.upvals|);
    var st1 := CompileSimple(st, s).value;
    SettledSame(p, EndStatement(st1), st1);
    m := SimpleRuns(p, st, s, LoopJumps(ls) + outer, m0, locals, ls, fuel);
    k :| Steps(p, m0, k) == m;
  }

  lemma StmtReadyOk(st: State, ls: Loops, s: Stmt, outer: multiset<nat>, upvals: nat)
    requires StmtReady(st, ls, s, outer, upvals)
    ensures CompileStmt(st, ls, s).Ok? && WfStmt(s, st.actVar, upvals)
  {
  }

  lemma HereBound(st: State, ls: Loops, s: Stmt, outer: multiset<nat>, m: Machine)
    requires Here(st, m, 0) && StmtReady(st, ls, s, outer, |m.sh.upvals|)
    ensures m.ip <= |st.code|
  {
    hide CompileStmt;
    if m.ip != |st.code| {
      ListOpen(st.code, multiset(st.pending) + (LoopJumps(ls) + outer), st.pending, m.ip);
    }
  }

  /** break and continue take no step of their own: where the run stands is a jump of the list. */
  lemma LeaveRuns(p: Program, st: State, ls: Loops, s: Stmt, outer: multiset<nat>, m0: Machine,
                  locals: seq<Value>, fuel: nat) returns (m: Machine, k: nat)
    requires Frame(m0, locals) && Here(st, m0, 0) && |locals| == st.actVar && (s.Break? || s.Continue?)
    requires StmtReady(st, ls, s, outer, |m0.sh.upvals|)
    ensures var (st', ls') := CompileStmt(st, ls, s).value;
      Simulates(p, st', ls', Exec(p.w, s, locals, m0.sh, fuel), m0, m, k, fuel)
  {
    hide CompileStmt, EmitJump, StmtReady;
    LeaveLoopShape(st, ls, s, outer, |m0.sh.upvals|);
    m, k := m0, 0;
  }

  lemma {:induction false} SeqRuns(p: Program, st: State, ls: Loops, s1: Stmt, s2: Stmt, outer: multiset<nat>,
                                   m0: Machine,
                                   locals: seq<Value>, fuel: nat) returns (m: Machine, k: nat)
    requires Frame(m0, locals) && Here(st, m0, 0) && |locals| == st.actVar
    requires StmtReady(st, ls, Seq(s1, s2), outer, |m0.sh.upvals|)
    requires Settled(p, CompileStmt(st, ls, Seq(s1, s2)).value.0)
    ensures var (st', ls') := CompileStmt(st, ls, Seq(s1, s2)).value;
      Simulates(p, st', ls', Exec(p.w, Seq(s1, s2), locals, m0.sh, fuel), m0, m, k, fuel)
    decreases fuel, Seq(s1, s2), 0
  {
    hide CompileStmt, StmtReady, Settled, Frame, Here, Extends, Between;
    FrameLen(m0, locals);
    StmtReadyOk(st, ls, Seq(s1, s2), outer, |m0.sh.upvals|);
    SeqShape(st, ls, s1, s2, outer, |m0.sh.upvals|);
    StmtReadyOk(st, ls, s1, outer, |m0.sh.upvals|);
    var (st1, ls1) := CompileStmt(st, ls, s1).value;
    StmtReadyOk(st1, ls1, s2, outer, |m0.sh.upvals|);
    var (st', ls') := CompileStmt(st1, ls1, s2).value;
    SettledBack(p, st1, st');
    var o := Exec(p.w, s1, locals, m0.sh, fuel);
    var m1, i := CompiledRuns(p, st, ls, s1, outer, m0, locals, fuel);
    m, k := m1, i;
    if o.Normal? {
      ExecLocals(p.w, s1, locals, m0.sh, fuel);
      LandsHere(st1, ls1, o, m1);
      FrameLen(m1, o.locals);
      var j: nat;
      m, j := CompiledRuns(p, st1, ls1, s2, outer, m1, o.locals, fuel);
      k := i + j;
      SimulatesAfter(p, st', ls', Exec(p.w, s2, o.locals, o.sh, fuel), m0, m1, m, i, j, fuel);
    } else {
      LandsAlso(st1, ls1, o, m1, st', ls');
    }
  }

  lemma FrameLess(m: Machine, locals: seq<Value>, n: nat)
    requires Frame(m, locals) && n <= |locals|
    ensures Frame(m, locals[..n])
  {
    assert m.regs[..n] == locals[..n];
  }

  lemma {:induction false} BlockRuns(p: Program, st: State, ls: Loops, body: Stmt, outer: multiset<nat>, m0: Machine,
                                     locals: seq<Value>, fuel: nat) returns (m: Machine, k: nat)
    requires Frame(m0, locals) && Here(st, m0, 0) && |locals| == st.actVar
    requires StmtReady(st, ls, Block(body), outer, |m0.sh.upvals|)
    requires Settled(p, CompileStmt(st, ls, Block(body)).value.0)
    ensures var (st', ls') := CompileStmt(st, ls, Block(body)).value;
      Simulates(p, st', ls', Exec(p.w, Block(body), locals, m0.sh, fuel), m0, m, k, fuel)
    decreases fuel, Block(body), 0
  {
    hide CompileStmt, StmtReady, Settled, Frame, Extends, Between;
    FrameLen(m0, locals);
    StmtReadyOk(st, ls, Block(body), outer, |m0.sh.upvals|);
    BlockShape(st, ls, body, outer, |m0.sh.upvals|);
    StmtReadyOk(st, ls, body, outer, |m0.sh.upvals|);
    var (st1, ls1) := CompileStmt(st, ls, body).value;
    SettledSame(p, CompileStmt(st, ls, Block(body)).value.0, st1);
    var o := Exec(p.w, body, locals, m0.sh, fuel);
    m, k := CompiledRuns(p, st, ls, body, outer, m0, locals, fuel);
    ExecLocals(p.w, body, locals, m0.sh, fuel);
    if o.Normal? || o.Broke? || o.Continued? {
      FrameLess(m, o.locals, |locals|);
    }
  }

  lemma {:induction false} IfRuns(p: Program, st: State, ls: Loops, c: Expr, yes: Stmt, outer: multiset<nat>,
                                  m0: Machine,
                                  locals: seq<Value>, fuel: nat) returns (m: Machine, k: nat)
    requires Frame(m0, locals) && Here(st, m0, 0) && |locals| == st.actVar
    requires StmtReady(st, ls, If(c, yes), outer, |m0.sh.upvals|) && Settled(p, CompileStmt(st, ls, If(c, yes)).value.0)
    ensures var (st', ls') := CompileStmt(st, ls, If(c, yes)).value;
      Simulates(p, st', ls', Exec(p.w, If(c, yes), locals, m0.sh, fuel), m0, m, k, fuel)
    decreases fuel, If(c, yes), 0
  {
    hide CompileStmt, Condition, StmtReady, Settled, Frame, Extends, Between, Ready;
    FrameLen(m0, locals);
    StmtReadyOk(st, ls, If(c, yes), outer, |m0.sh.upvals|);
    IfShape(st, ls, c, yes, outer, |m0.sh.upvals|);
    var (st1, flist) := Condition(st, c).value;
    StmtReadyOk(st1, ls, yes, multiset(flist) + outer, |m0.sh.upvals|);
    var (st2, ls2) := CompileStmt(st1, ls, yes).value;
    var (st', ls') := CompileStmt(st, ls, If(c, yes)).value;
    SettledSame(p, st', st2);
    SettledBack(p, st1, st2);
    var v := Eval(p.w, c, locals, m0.sh);
    var m1 := ConditionRuns(p, st, c, LoopJumps(ls) + outer, m0, locals);
    var i: nat :| Steps(p, m0, i) == m1;
    m, k := m1, i;
    if v.Ok? && !Falsey(p.w, v.value) {
      var j: nat;
      m, j := CompiledRuns(p, st1, ls, yes, multiset(flist) + outer, m1, locals, fuel);
      k := i + j;
      var o := Exec(p.w, yes, locals, m0.sh, fuel);
      SimulatesAfter(p, st2, ls2, o, m0, m1, m, i, j, fuel);
    }
  }

  lemma {:induction false} IfElseRuns(p: Program, st: State, ls: Loops, c: Expr, yes: Stmt, no: Stmt,
                                      outer: multiset<nat>, m0: Machine,
                                      locals: seq<Value>, fuel: nat) returns (m: Machine, k: nat)
    requires Frame(m0, locals) && Here(st, m0, 0) && |locals| == st.actVar
    requires StmtReady(st, ls, IfElse(c, yes, no), outer, |m0.sh.upvals|)
    requires Settled(p, CompileStmt(st, ls, IfElse(c, yes, no)).value.0)
    ensures var (st', ls') := CompileStmt(st, ls, IfElse(c, yes, no)).value;
      Simulates(p, st', ls', Exec(p.w, IfElse(c, yes, no), locals, m0.sh, fuel), m0, m, k, fuel)
    decreases fuel, IfElse(c, yes, no), 0
  {
    hide CompileStmt, Condition, Else, StmtReady, Settled, Frame, Extends, Between, Ready, Eval, Compile, Falsey;
    hide Final;
    FrameLen(m0, locals);
    var upvals := |m0.sh.upvals|;
    StmtReadyOk(st, ls, IfElse(c, yes, no), outer, upvals);
    IfElseShape(st, ls, c, yes, no, outer, upvals);
    var (st1, flist) := Condition(st, c).value;
    StmtReadyOk(st1, ls, yes, multiset(flist) + outer, upvals);
    var (st2, ls2) := CompileStmt(st1, ls, yes).value;
    var (st4, escape) := Else(st2, flist).value;
    StmtReadyOk(st4, ls2, no, multiset(escape) + outer, upvals);
    var (st5, ls5) := CompileStmt(st4, ls2, no).value;
    var (st', ls') := CompileStmt(st, ls, IfElse(c, yes, no)).value;
    SettledSame(p, st', st5);
    SettledBack(p, st4, st5);
    SettledBack(p, st2, st4);
    SettledBack(p, st1, st2);
    var v := Eval(p.w, c, locals, m0.sh);
    var m1 := ConditionRuns(p, st, c, LoopJumps(ls) + outer, m0, locals);
    var i: nat :| Steps(p, m0, i) == m1;
    m, k := m1, i;
    if v.Ok? && !Falsey(p.w, v.value) {
      var j: nat;
      m, j := CompiledRuns(p, st1, ls, yes, multiset(flist) + outer, m1, locals, fuel);
      k := i + j;
      SimulatesAfter(p, st2, ls2, Exec(p.w, yes, locals, m0.sh, fuel), m0, m1, m, i, j, fuel);
      LandsAlso(st2, ls2, Exec(p.w, yes, locals, m0.sh, fuel), m, st', ls');
    } else if v.Ok? {
      var j: nat;
      m, j := CompiledRuns(p, st4, ls2, no, multiset(escape) + outer, m1, locals, fuel);
      k := i + j;
      SimulatesAfter(p, st5, ls5, Exec(p.w, no, locals, m0.sh, fuel), m0, m1, m, i, j, fuel);
      LandsAlso(st5, ls5, Exec(p.w, no, locals, m0.sh, fuel), m, st', ls');
    }
  }

  lemma {:induction false} WhileRuns(p: Program, st: State, ls: Loops, c: Expr, body: Stmt, outer: multiset<nat>,
                                     m0: Machine,
                                     locals: seq<Value>, fuel: nat) returns (m: Machine, k: nat)
    requires Frame(m0, locals) && Here(st, m0, 0) && |locals| == st.actVar
    requires StmtReady(st, ls, While(c, body), outer, |m0.sh.upvals|)
    requires Settled(p, CompileStmt(st, ls, While(c, body)).value.0)
    ensures var (st', ls') := CompileStmt(st, ls, While(c, body)).value;
      Simulates(p, st', ls', Exec(p.w, While(c, body), locals, m0.sh, fuel), m0, m, k, fuel)
    decreases fuel, While(c, body), 0
  {
    hide CompileStmt, Condition, LoopEnd, StmtReady, Settled, Frame, Extends, Between, Ready, Eval, Compile, Falsey;
    hide Final;
    FrameLen(m0, locals);
    if fuel == 0 {
      m, k := m0, 0;
    } else {
      var s := While(c, body);
      StmtReadyOk(st, ls, s, outer, |m0.sh.upvals|);
      WhileShape(st, ls, c, body, outer, |m0.sh.upvals|);
      var (st1, flist) := Condition(st, c).value;
      var ls1 := Loops(flist, [], true);
      StmtReadyOk(st1, ls1, body, LoopJumps(ls) + outer, |m0.sh.upvals|);
      var (st2, ls2) := CompileStmt(st1, ls1, body).value;
      var st3 := LoopEnd(st2, ls2, |st.code|).value;
      var st' := CompileStmt(st, ls, s).value.0;
      SettledSame(p, st', st3);
      SettledBack(p, st2, st3);
      SettledBack(p, st1, st2);
      var v := Eval(p.w, c, locals, m0.sh);
      var m1 := ConditionRuns(p, st, c, LoopJumps(ls) + outer, m0, locals);
      var i: nat :| Steps(p, m0, i) == m1;
      m, k := m1, i;
      if v.Ok? && !Falsey(p.w, v.value) {
        HereBound(st, ls, s, outer, m0);
        assert i >= 1;
        var j: nat;
        var m2, o := m1, Exec(p.w, body, locals, m0.sh, fuel - 1);
        m2, j := CompiledRuns(p, st1, ls1, body, LoopJumps(ls) + outer, m1, locals, fuel - 1);
        SimulatesMore(p, st2, ls2, o, m0, m1, m2, i, j, fuel);
        ExecLocals(p.w, body, locals, m0.sh, fuel - 1);
        m, k := m2, i + j;
        if o.Normal? || o.Continued? {
          m, k := AgainRuns(p, st, ls, c, body, outer, m0, m2, k, o, fuel);
        } else if o.Broke? {
          FrameLen(m, o.locals);
          assert Here(st', m, 0);
        }
      } else if v.Ok? {
        assert m.ip in ls1.breaks;
      }
    }
  }

  /** From the end of the body, or a `continue`, through the jump back into the next round. */
  lemma {:induction false} AgainRuns(p: Program, st: State, ls: Loops, c: Expr, body: Stmt, outer: multiset<nat>,
                                     m0: Machine,
                                     m2: Machine, i: nat, o: Outcome, fuel: nat) returns (m: Machine, k: nat)
    requires fuel > 0 && (o.Normal? || o.Continued?)
    requires StmtReady(st, ls, While(c, body), outer, |o.sh.upvals|)
    requires Settled(p, CompileStmt(st, ls, While(c, body)).value.0)
    requires |o.locals| == st.actVar && Condition(st, c).Ok?
    requires var (st1, flist) := Condition(st, c).value;
      && CompileStmt(st1, Loops(flist, [], true), body).Ok?
      && var (st2, ls2) := CompileStmt(st1, Loops(flist, [], true), body).value;
      Steps(p, m0, i) == m2 && i >= 1 && Lands(st2, ls2, o, m2)
    ensures var (st', ls') := CompileStmt(st, ls, While(c, body)).value;
      Simulates(p, st', ls', Exec(p.w, While(c, body), o.locals, o.sh, fuel - 1), m0, m, k, fuel)
    decreases fuel - 1, While(c, body), 2
  {
    hide CompileStmt, Condition, LoopEnd, StmtReady, Settled, Extends, Sound, Simulates, Exec, Ready;
    StmtReadyOk(st, ls, While(c, body), outer, |o.sh.upvals|);
    WhileShape(st, ls, c, body, outer, |o.sh.upvals|);
    var (st1, flist) := Condition(st, c).value;
    var (st2, ls2) := CompileStmt(st1, Loops(flist, [], true), body).value;
    var st3 := LoopEnd(st2, ls2, |st.code|).value;
    var (st', ls') := CompileStmt(st, ls, While(c, body)).value;
    SettledSame(p, st', st3);
    BackToStart(p, st2, ls2, |st.code|, LoopJumps(ls) + outer, m2);
    var m3 := m2.(ip := |st.code|);
    StepsAdd(p, m0, i, 1);
    var j: nat;
    m, j := CompiledRuns(p, st, ls, While(c, body), outer, m3, o.locals, fuel - 1);
    k := i + 1 + j;
    SimulatesMore(p, st', ls', Exec(p.w, While(c, body), o.locals, o.sh, fuel - 1), m0, m3, m, i + 1, j, fuel);
  }

  lemma SimulatesMore(p: Program, st: State, ls: Loops, o: Outcome, m0: Machine, m1: Machine, m: Machine, i: nat,
                      k: nat, fuel: nat)
    requires fuel > 0 && i >= 1 && Steps(p, m0, i) == m1 && Simulates(p, st, ls, o, m1, m, k, fuel - 1)
    ensures Simulates(p, st, ls, o, m0, m, i + k, fuel)
  {
    StepsAdd(p, m0, i, k);
  }
}
