/** Where unary operators are emitted: `unary` keeps the position of its instruction in a
    uint16_t (the parameter of exprInit), so that position has to fit. */
module Positions {
  import opened Bytecode
  import opened Machine
  import opened Source
  import opened CodeGen

  /** The operator, emitted on what c left, has a position that 16 bits can hold. */
  predicate Held(c: Result<(State, Desc)>, op: Op) {
    c.Ok? ==>
      var r := EmitUnary(c.value.0, op, c.value.1);
      r.Ok? ==> |r.value.0.code| <= 0x1_0000
  }

  /** Every unary operator of e, compiled from st, has such a position. */
  predicate Short(st: State, e: Expr)
    decreases e, 0
  {
    match e
    case Minus(e1) => Short(st, e1) && Held(Compile(st, e1), Negate)
    case Bang(e1) => Short(st, e1) && Held(Compile(st, e1), Not)
    case Arith(_, l, r) =>
      Short(st, l) && (Compile(st, l).Ok? ==> ShortRight(AnyReg(Compile(st, l).value.0, Compile(st, l).value.1), r))
    case Compare(_, l, r) =>
      Short(st, l) && (Compile(st, l).Ok? ==> ShortRight(AnyReg(Compile(st, l).value.0, Compile(st, l).value.1), r))
    case And(l, r) =>
      && Short(st, l)
      && (Compile(st, l).Ok? ==> ShortBranch(BranchOn(Compile(st, l).value.0, Compile(st, l).value.1, true), r))
    case Or(l, r) =>
      && Short(st, l)
      && (Compile(st, l).Ok? ==> ShortBranch(BranchOn(Compile(st, l).value.0, Compile(st, l).value.1, false), r))
    case _ => true
  }

  predicate ShortRight(c: Result<(State, Desc)>, e: Expr)
    decreases e, 1
  {
    c.Ok? ==> Short(c.value.0, e)
  }

  predicate ShortBranch(c: Result<(State, seq<nat>)>, e: Expr)
    decreases e, 1
  {
    c.Ok? ==> Short(c.value.0, e)
  }

  /** The same for a statement. */
  predicate ShortStmt(st: State, ls: Loops, s: Stmt)
    decreases s
  {
    match s
    case Seq(s1, s2) =>
      ShortStmt(st, ls, s1) &&
      (CompileStmt(st, ls, s1).Ok? ==> ShortStmt(CompileStmt(st, ls, s1).value.0, CompileStmt(st, ls, s1).value.1, s2))
    case Block(body) => ShortStmt(st, ls, body)
    case If(c, yes) => Short(st, c) && (Condition(st, c).Ok? ==> ShortStmt(Condition(st, c).value.0, ls, yes))
    case IfElse(c, yes, no) =>
      Short(st, c) && (Condition(st, c).Ok? ==>
        var (st1, flist) := Condition(st, c).value;
        ShortStmt(st1, ls, yes) && (CompileStmt(st1, ls, yes).Ok? ==>
          var (st2, ls2) := CompileStmt(st1, ls, yes).value;
          Else(st2, flist).Ok? ==> ShortStmt(Else(st2, flist).value.0, ls2, no)))
    case While(c, body) =>
      Short(st, c) && (Condition(st, c).Ok? ==>
        ShortStmt(Condition(st, c).value.0, Loops(Condition(st, c).value.1, [], true), body))
    case VarLocal(e) => Short(st.(actVar := Cast8(st.actVar + 1)), e)
    case VarGlobal(name, e) => ShortRight(Named(st, name), e)
    case SetGlobalVar(name, e) => ShortRight(Named(st, name), e)
    case SetLocal(_, e) => Short(st, e)
    case SetUpvalue(_, e) => Short(st, e)
    case Do(e) => Short(st, e)
    case ReturnValue(e) => Short(st, e)
    case _ => true
  }

  /** After the name of a global became a constant. */
  function Named(st: State, name: string): Result<(State, Desc)> {
    var (st', k) :- MakeConst(st, Str(name));
    Ok((st', Desc(GlobalK(k), [], [])))
  }

  lemma ShortOperator(st: State, e: Expr, l: Expr, r: Expr)
    requires (e.Arith? || e.Compare?) && e.l == l && e.r == r && Short(st, e)
    ensures Short(st, l)
    ensures Compile(st, l).Ok? && AnyReg(Compile(st, l).value.0, Compile(st, l).value.1).Ok? ==>
              Short(AnyReg(Compile(st, l).value.0, Compile(st, l).value.1).value.0, r)
  {
    hide Compile, AnyReg;
  }

  lemma ShortConnective(st: State, l: Expr, r: Expr, truth: bool)
    requires Short(st, if truth then And(l, r) else Or(l, r))
    ensures Short(st, l)
    ensures Compile(st, l).Ok? && BranchOn(Compile(st, l).value.0, Compile(st, l).value.1, truth).Ok? ==>
              Short(BranchOn(Compile(st, l).value.0, Compile(st, l).value.1, truth).value.0, r)
  {
    hide Compile, BranchOn;
  }

  /** Code of up to 65536 instructions is always short enough. */
  lemma {:induction false} SmallIsShort(st: State, e: Expr)
    requires Compile(st, e).Ok? && |Compile(st, e).value.0.code| <= 0x1_0000
    ensures Short(st, e)
    decreases e
  {
    hide AnyReg, BranchOn, Discharge, EmitArith, EmitComp, EmitUnary;
    match e {
      case Minus(e1) => SmallIsShort(st, e1);
      case Bang(e1) => SmallIsShort(st, e1);
      case Arith(_, l, r) =>
        SmallIsShort(st, l);
        SmallIsShort(AnyReg(Compile(st, l).value.0, Compile(st, l).value.1).value.0, r);
      case Compare(_, l, r) =>
        SmallIsShort(st, l);
        SmallIsShort(AnyReg(Compile(st, l).value.0, Compile(st, l).value.1).value.0, r);
      case And(l, r) =>
        SmallIsShort(st, l);
        SmallIsShort(BranchOn(Compile(st, l).value.0, Compile(st, l).value.1, true).value.0, r);
      case Or(l, r) =>
        SmallIsShort(st, l);
        SmallIsShort(BranchOn(Compile(st, l).value.0, Compile(st, l).value.1, false).value.0, r);
      case _ =>
    }
  }

  /** Without unary operators any length will do. */
  lemma {:induction false} FreeIsShort(st: State, e: Expr)
    requires UnaryFree(e)
    ensures Short(st, e)
    decreases e, 1
  {
    hide AnyReg, BranchOn, Compile;
    match e {
      case Arith(_, l, r) => FreeIsShort(st, l); FreeAlways(r, e);
      case Compare(_, l, r) => FreeIsShort(st, l); FreeAlways(r, e);
      case And(l, r) => FreeIsShort(st, l); FreeAlways(r, e);
      case Or(l, r) => FreeIsShort(st, l); FreeAlways(r, e);
      case _ =>
    }
  }

  lemma {:induction false} FreeAlways(r: Expr, e: Expr)
    requires UnaryFree(r) && r < e
    ensures forall c {:trigger ShortRight(c, r)} :: ShortRight(c, r)
    ensures forall c {:trigger ShortBranch(c, r)} :: ShortBranch(c, r)
    decreases e, 0
  {
    forall c ensures ShortRight(c, r) {
      if c.Ok? {
        FreeIsShort(c.value.0, r);
      }
    }
    forall c ensures ShortBranch(c, r) {
      if c.Ok? {
        FreeIsShort(c.value.0, r);
      }
    }
  }

  lemma ShortIfElse(st: State, ls: Loops, c: Expr, yes: Stmt, no: Stmt)
    requires ShortStmt(st, ls, IfElse(c, yes, no))
    ensures Short(st, c)
    ensures Condition(st, c).Ok? ==>
              var (st1, flist) := Condition(st, c).value;
              && ShortStmt(st1, ls, yes)
              && (CompileStmt(st1, ls, yes).Ok? ==>
                    var (st2, ls2) := CompileStmt(st1, ls, yes).value;
                    Else(st2, flist).Ok? ==> ShortStmt(Else(st2, flist).value.0, ls2, no))
  {
    hide Condition, CompileStmt, Else, Short;
  }

  /** A statement is short enough when its code is. */
  lemma {:induction false} SmallStmtIsShort(st: State, ls: Loops, s: Stmt)
    requires CompileStmt(st, ls, s).Ok? && |CompileStmt(st, ls, s).value.0.code| <= 0x1_0000
    ensures ShortStmt(st, ls, s)
    decreases s
  {
    hide Condition, Else, LoopEnd, CompileSimple, Short, Compile;
    match s {
      case Seq(s1, s2) =>
        SmallStmtIsShort(st, ls, s1);
        SmallStmtIsShort(CompileStmt(st, ls, s1).value.0, CompileStmt(st, ls, s1).value.1, s2);
      case Block(body) => SmallStmtIsShort(st, ls, body);
      case If(c, yes) =>
        SmallCondition(st, c);
        SmallStmtIsShort(Condition(st, c).value.0, ls, yes);
      case IfElse(c, yes, no) =>
        SmallCondition(st, c);
        var (st1, flist) := Condition(st, c).value;
        SmallStmtIsShort(st1, ls, yes);
        var (st2, ls2) := CompileStmt(st1, ls, yes).value;
        SmallStmtIsShort(Else(st2, flist).value.0, ls2, no);
      case While(c, body) =>
        SmallCondition(st, c);
        SmallStmtIsShort(Condition(st, c).value.0, Loops(Condition(st, c).value.1, [], true), body);
      case Break =>
      case Continue =>
      case Skip =>
      case _ => SmallSimple(st, s);
    }
  }

  lemma SmallCondition(st: State, c: Expr)
    requires Condition(st, c).Ok? && |Condition(st, c).value.0.code| <= 0x1_0000
    ensures Short(st, c)
  {
    hide Compile, BranchOn, Short;
    SmallIsShort(st, c);
  }

  lemma SmallSimple(st: State, s: Stmt)
    requires CompileSimple(st, s).Ok? && |CompileSimple(st, s).value.code| <= 0x1_0000
    requires !s.Seq? && !s.Block? && !s.If? && !s.IfElse? && !s.While?
    ensures ShortStmt(st, Loops([], [], false), s) && forall ls :: ShortStmt(st, ls, s)
  {
    hide Compile, NextReg, AnyReg, ToReg, Operand, Emit, EmitReturn, Short, MakeConst;
    match s {
      case VarLocal(e) => SmallIsShort(st.(actVar := Cast8(st.actVar + 1)), e);
      case VarGlobal(name, e) => SmallIsShort(MakeConst(st, Str(name)).value.0, e);
      case SetGlobalVar(name, e) => SmallIsShort(MakeConst(st, Str(name)).value.0, e);
      case SetLocal(_, e) => SmallIsShort(st, e);
      case SetUpvalue(_, e) => SmallIsShort(st, e);
      case Do(e) => SmallIsShort(st, e);
      case ReturnValue(e) => SmallIsShort(st, e);
      case _ =>
    }
  }

  /** And when it has no unary operators. */
  lemma {:induction false} FreeStmtIsShort(st: State, ls: Loops, s: Stmt)
    requires UnaryFreeStmt(s)
    ensures ShortStmt(st, ls, s)
    decreases s
  {
    hide Condition, CompileStmt, Else, Short, MakeConst;
    match s {
      case Seq(s1, s2) =>
        FreeStmtIsShort(st, ls, s1);
        if CompileStmt(st, ls, s1).Ok? {
          FreeStmtIsShort(CompileStmt(st, ls, s1).value.0, CompileStmt(st, ls, s1).value.1, s2);
        }
      case Block(body) => FreeStmtIsShort(st, ls, body);
      case If(c, yes) =>
        FreeIsShort(st, c);
        if Condition(st, c).Ok? {
          FreeStmtIsShort(Condition(st, c).value.0, ls, yes);
        }
      case IfElse(c, yes, no) =>
        FreeIsShort(st, c);
        if Condition(st, c).Ok? {
          var (st1, flist) := Condition(st, c).value;
          FreeStmtIsShort(st1, ls, yes);
          if CompileStmt(st1, ls, yes).Ok? {
            var (st2, ls2) := CompileStmt(st1, ls, yes).value;
            if Else(st2, flist).Ok? {
              FreeStmtIsShort(Else(st2, flist).value.0, ls2, no);
            }
          }
        }
      case While(c, body) =>
        FreeIsShort(st, c);
        if Condition(st, c).Ok? {
          FreeStmtIsShort(Condition(st, c).value.0, Loops(Condition(st, c).value.1, [], true), body);
        }
      case VarLocal(e) => FreeIsShort(st.(actVar := Cast8(st.actVar + 1)), e);
      case VarGlobal(name, e) => if Named(st, name).Ok? { FreeIsShort(Named(st, name).value.0, e); }
      case SetGlobalVar(name, e) => if Named(st, name).Ok? { FreeIsShort(Named(st, name).value.0, e); }
      case SetLocal(_, e) => FreeIsShort(st, e);
      case SetUpvalue(_, e) => FreeIsShort(st, e);
      case Do(e) => FreeIsShort(st, e);
      case ReturnValue(e) => FreeIsShort(st, e);
      case _ =>
    }
  }

  /** The description names the emitted operator exactly when its position fits. */
  lemma PositionExact(st: State, op: Op, d: Desc)
    requires EmitUnary(st, op, d).Ok?
    ensures var (st', d') := EmitUnary(st, op, d).value;
      && |st'.code| > 0 && st'.code[|st'.code| - 1].op == op && d'.kind.RelocK?
      && (d'.kind.pos == |st'.code| - 1 <==> |st'.code| <= 0x1_0000)
  {
    hide AnyReg;
  }

  /** Otherwise exprToReg gives the register to another instruction, and the operator writes
      its value to register 0. */
  lemma FarOperator(st: State, op: Op, d: Desc, r: Reg)
    requires EmitUnary(st, op, d).Ok? && |EmitUnary(st, op, d).value.0.code| > 0x1_0000
    ensures var (st', d') := EmitUnary(st, op, d).value;
      && ToRegNoBranch(st', d', r).Ok?
      && var c := ToRegNoBranch(st', d', r).value.0.code;
      && |c| == |st'.code| && c[|c| - 1].a == 0
      && c == st'.code[(|c| - 1) % 0x1_0000 := st'.code[(|c| - 1) % 0x1_0000].(a := r)]
  {
    hide AnyReg;
    PositionExact(st, op, d);
  }
}
