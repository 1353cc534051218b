/** What operators, loads, stores and branches do, for the machine and for the evaluators alike, said
    of operands and results alone (src/vm.c, src/object.c). */
module Operators {
  import opened Bytecode
  import opened Machine
  import opened Source

  /** The sum of strings is the characters of the first and then those of the second; that of
      numbers is the world's; nothing else has a sum. */
  ghost predicate IsSum(w: World, b: Value, c: Value, r: Result<Value>) {
    if b.Str? && c.Str? then
      && r.Ok? && r.value.Str? && |r.value.s| == |b.s| + |c.s|
      && (forall i | 0 <= i < |b.s| :: r.value.s[i] == b.s[i])
      && (forall j | 0 <= j < |c.s| :: r.value.s[|b.s| + j] == c.s[j])
    else if b.Num? && c.Num? then r == Ok(Num(w.arith(Add, b.n, c.n)))
    else r == Err("Operands must be two numbers or two strings.")
  }

  /** The other operators of arithmetic take numbers, in their order. */
  ghost predicate IsArith(w: World, op: ArithOp, b: Value, c: Value, r: Result<Value>) {
    if op == Add then IsSum(w, b, c, r)
    else if b.Num? && c.Num? then r == Ok(Num(w.arith(op, b.n, c.n)))
    else r == Err("Operands must be numbers.")
  }

  /** Numbers are equal as the world has it, other values when they are the same; order is for
      numbers only. */
  ghost predicate IsComparison(w: World, op: CompOp, b: Value, c: Value, r: Result<Value>) {
    match op
    case Equal => r == Ok(Bool(if b.Num? && c.Num? then w.holds(Equal, b.n, c.n) else b == c))
    case Neq => r == Ok(Bool(if b.Num? && c.Num? then !w.holds(Equal, b.n, c.n) else b != c))
    case _ => r == if b.Num? && c.Num? then Ok(Bool(w.holds(op, b.n, c.n))) else Err("Operands must be numbers.")
  }

  ghost predicate IsNegation(w: World, v: Value, r: Result<Value>) {
    r == if v.Num? then Ok(Num(w.negate(v.n))) else Err("Operand must be a number.")
  }

  /** Exactly nil, false, and empty arrays and tables are false. */
  ghost predicate IsTrue(w: World, v: Value) { v !in {Nil, Bool(false)} && (v.Obj? ==> v.id !in w.empties) }

  // ----- the machine -----

  /** The value goes to register a and to no other, or the error is raised. */
  ghost predicate Continues(m: Machine, m': Machine, a: Reg, r: Result<Value>)
    requires m.Running?
  {
    if r.Ok? then
      && m'.Running? && m'.ip == m.ip + 1 && m'.sh == m.sh && m'.regs[a] == r.value
      && forall i | 0 <= i < 0x100 && i != a :: m'.regs[i] == m.regs[i]
    else m' == Failed(r.msg, m.sh)
  }

  /** The machine is at an instruction for this operator with these operands: registers, or a register
      and a constant. */
  predicate AtArith(p: Program, m: Machine, op: ArithOp, b: Value, c: Value) {
    && m.Running? && 0 <= m.ip < |p.code|
    && var i := p.code[m.ip];
    && b == m.regs[i.d % 0x100]
    && ((i.op == ArithVV(op) && c == m.regs[i.d / 0x100])
        || (i.op == ArithVK(op) && i.d / 0x100 < |p.consts| && c == p.consts[i.d / 0x100]))
  }

  predicate At(p: Program, m: Machine, op: Op) { m.Running? && 0 <= m.ip < |p.code| && p.code[m.ip].op == op }

  lemma ArithRuns(p: Program, m: Machine, op: ArithOp, b: Value, c: Value) returns (r: Result<Value>)
    requires AtArith(p, m, op, b, c)
    ensures IsArith(p.w, op, b, c, r) && Continues(m, Step(p, m), p.code[m.ip].a, r)
  {
    r := ArithValue(p.w, op, b, c);
  }

  lemma ComparisonRuns(p: Program, m: Machine, op: CompOp) returns (r: Result<Value>)
    requires At(p, m, Comp(op))
    ensures var i := p.code[m.ip];
      IsComparison(p.w, op, m.regs[i.d % 0x100], m.regs[i.d / 0x100], r) && Continues(m, Step(p, m), i.a, r)
  {
    var i := p.code[m.ip];
    r := CompValue(p.w, op, m.regs[i.d % 0x100], m.regs[i.d / 0x100]);
  }

  lemma NegationRuns(p: Program, m: Machine) returns (r: Result<Value>)
    requires At(p, m, Negate) && p.code[m.ip].d < 0x100
    ensures var i := p.code[m.ip]; IsNegation(p.w, m.regs[i.d], r) && Continues(m, Step(p, m), i.a, r)
  {
    r := NegateValue(p.w, m.regs[p.code[m.ip].d]);
  }

  lemma NotRuns(p: Program, m: Machine)
    requires At(p, m, Not) && p.code[m.ip].d < 0x100
    ensures var i := p.code[m.ip]; Continues(m, Step(p, m), i.a, Ok(Bool(!IsTrue(p.w, m.regs[i.d]))))
  {
  }

  /** A test goes on to its jump when the value is as the opcode says, else it passes the jump; a
      copying test copies either way. */
  lemma TestRuns(p: Program, m: Machine, cond: bool)
    requires (At(p, m, CopyJumpIf(cond)) || At(p, m, JumpIf(cond))) && p.code[m.ip].d < 0x100
    requires m.ip + 1 < |p.code| && p.code[m.ip + 1].op == Jump
    ensures var i, m' := p.code[m.ip], Step(p, m);
      && m'.Running? && m'.sh == m.sh && m'.ip == m.ip + (if IsTrue(p.w, m.regs[i.d]) == cond then 1 else 2)
      && m'.regs == if i.op == JumpIf(cond) then m.regs else m.regs[i.a := m.regs[i.d]]
  {
    var i := p.code[m.ip];
    if i.op == CopyJumpIf(cond) {
      var copied := m.regs[i.a := m.regs[i.d]];
    }
  }

  lemma PrimitiveRuns(p: Program, m: Machine)
    requires At(p, m, Primitive) && p.code[m.ip].d < 3
    ensures var i := p.code[m.ip];
      Continues(m, Step(p, m), i.a, Ok(if i.d == 0 then Nil else if i.d == 1 then Bool(true) else Bool(false)))
  {
  }

  lemma GlobalRuns(p: Program, m: Machine, name: string)
    requires At(p, m, GetGlobal) && p.code[m.ip].d < |p.consts| && p.consts[p.code[m.ip].d] == Str(name)
    ensures Continues(m, Step(p, m), p.code[m.ip].a,
        if name in m.sh.globals then Ok(m.sh.globals[name]) else Err("Undefined variable '" + name + "'."))
  {
  }

  /** A constant, another register, or an upvalue. */
  lemma LoadsRun(p: Program, m: Machine)
    requires At(p, m, ConstNum) || At(p, m, Mov) || At(p, m, GetUpval)
    requires var d := p.code[m.ip].d; if At(p, m, ConstNum) then d < |p.consts| else d < 0x100
    requires At(p, m, GetUpval) ==> p.code[m.ip].d < |m.sh.upvals|
    ensures var i := p.code[m.ip];
      Continues(m, Step(p, m), i.a,
                Ok(if i.op == ConstNum then p.consts[i.d] else if i.op == Mov then m.regs[i.d] else m.sh.upvals[i.d]))
  {
  }

  /** Only the global goes to the value of register A; setting one that is not there is an error,
      although it is there from then on. */
  lemma GlobalStoresRun(p: Program, m: Machine, name: string)
    requires At(p, m, DefineGlobal) || At(p, m, SetGlobal)
    requires p.code[m.ip].d < |p.consts| && p.consts[p.code[m.ip].d] == Str(name)
    ensures var i, m' := p.code[m.ip], Step(p, m);
      && m'.sh.upvals == m.sh.upvals && m'.sh.globals.Keys == m.sh.globals.Keys + {name}
      && (forall g | g in m'.sh.globals :: m'.sh.globals[g] == if g == name then m.regs[i.a] else m.sh.globals[g])
      && (if i.op == SetGlobal && name !in m.sh.globals then m'.Failed? && m'.msg == "Undefined variable '" + name + "'."
          else m'.Running? && m'.ip == m.ip + 1 && m'.regs == m.regs)
  {
  }

  lemma UpvalueStoreRuns(p: Program, m: Machine)
    requires At(p, m, SetUpval) && p.code[m.ip].a < |m.sh.upvals| && p.code[m.ip].d < 0x100
    ensures var i, m' := p.code[m.ip], Step(p, m);
      && m'.Running? && m'.ip == m.ip + 1 && m'.regs == m.regs && m'.sh.globals == m.sh.globals
      && |m'.sh.upvals| == |m.sh.upvals|
      && forall u | 0 <= u < |m.sh.upvals| :: m'.sh.upvals[u] == if u == i.a then m.regs[i.d] else m.sh.upvals[u]
  {
  }

  lemma ReturnRuns(p: Program, m: Machine)
    requires At(p, m, Return)
    ensures Step(p, m) == Halted(m.regs[p.code[m.ip].a], m.sh)
  {
  }

  // ----- the evaluator -----

  lemma LeavesEvaluate(w: World, name: string, x: Reg, u: Half, locals: seq<Value>, sh: Shared)
    ensures Eval(w, Prim(0), locals, sh) == Ok(Nil)
    ensures x < |locals| ==> Eval(w, Local(x), locals, sh) == Ok(locals[x])
    ensures u < |sh.upvals| ==> Eval(w, Upval(u), locals, sh) == Ok(sh.upvals[u])
    ensures Eval(w, Text(name), locals, sh) == Ok(Str(name)) && Eval(w, Number(u), locals, sh) == Ok(Num(u))
    ensures Eval(w, Prim(1), locals, sh) == Ok(Bool(true)) && Eval(w, Prim(2), locals, sh) == Ok(Bool(false))
    ensures Eval(w, Global(name), locals, sh) ==
        if name in sh.globals then Ok(sh.globals[name]) else Err("Undefined variable '" + name + "'.")
  {
  }

  /** An operand that fails is the answer, the left one first. */
  lemma ArithEvaluates(w: World, op: ArithOp, l: Expr, r: Expr, locals: seq<Value>, sh: Shared)
    ensures var v := Eval(w, Arith(op, l, r), locals, sh);
      var b, c := Eval(w, l, locals, sh), Eval(w, r, locals, sh);
      if b.Err? then v == b else if c.Err? then v == c else IsArith(w, op, b.value, c.value, v)
  {
  }

  lemma ComparisonEvaluates(w: World, op: CompOp, l: Expr, r: Expr, locals: seq<Value>, sh: Shared)
    ensures var v := Eval(w, Compare(op, l, r), locals, sh);
      var b, c := Eval(w, l, locals, sh), Eval(w, r, locals, sh);
      if b.Err? then v == b else if c.Err? then v == c else IsComparison(w, op, b.value, c.value, v)
  {
  }

  lemma UnaryEvaluates(w: World, e: Expr, locals: seq<Value>, sh: Shared)
    ensures var v := Eval(w, e, locals, sh);
      var minus, bang := Eval(w, Minus(e), locals, sh), Eval(w, Bang(e), locals, sh);
      if v.Err? then minus == bang == v
      else IsNegation(w, v.value, minus) && bang == Ok(Bool(!IsTrue(w, v.value)))
  {
  }

  lemma LogicEvaluates(w: World, l: Expr, r: Expr, locals: seq<Value>, sh: Shared)
    ensures var b, c := Eval(w, l, locals, sh), Eval(w, r, locals, sh);
      && Eval(w, And(l, r), locals, sh) == (if b.Ok? && IsTrue(w, b.value) then c else b)
      && Eval(w, Or(l, r), locals, sh) == (if b.Ok? && !IsTrue(w, b.value) then c else b)
  {
  }

  /** The error of an expression is that of its statement, which has done nothing then. */
  lemma FailuresRaise(w: World, s: Stmt, e: Expr, locals: seq<Value>, sh: Shared, fuel: nat)
    requires Eval(w, e, locals, sh).Err?
    requires s == VarLocal(e) || s == Do(e) || s == ReturnValue(e) || (s.VarGlobal? && s.e == e)
             || (s.SetLocal? && s.e == e) || (s.SetUpvalue? && s.e == e) || (s.SetGlobalVar? && s.e == e)
    ensures Exec(w, s, locals, sh, fuel) == Raised(Eval(w, e, locals, sh).msg, sh)
  {
    hide Eval;
  }

  /** What the value of an expression is for, in each statement that has one. */
  lemma ValuesGo(w: World, e: Expr, v: Value, locals: seq<Value>, sh: Shared, fuel: nat)
    requires Eval(w, e, locals, sh) == Ok(v)
    ensures Exec(w, VarLocal(e), locals, sh, fuel) == Normal(locals + [v], sh)
    ensures Exec(w, Do(e), locals, sh, fuel) == Normal(locals, sh)
    ensures Exec(w, ReturnValue(e), locals, sh, fuel) == Returned(v, sh)
  {
    hide Eval;
  }

  lemma GlobalsStore(w: World, name: string, e: Expr, v: Value, locals: seq<Value>, sh: Shared, fuel: nat)
    requires Eval(w, e, locals, sh) == Ok(v)
    ensures var sh' := Shared(sh.globals + map[name := v], sh.upvals);
      && Exec(w, VarGlobal(name, e), locals, sh, fuel) == Normal(locals, sh')
      && Exec(w, SetGlobalVar(name, e), locals, sh, fuel)
          == (if name in sh.globals then Normal(locals, sh') else Raised("Undefined variable '" + name + "'.", sh'))
  {
    hide Eval;
  }

  lemma VariablesStore(w: World, x: Reg, e: Expr, v: Value, locals: seq<Value>, sh: Shared, fuel: nat)
    requires Eval(w, e, locals, sh) == Ok(v)
    ensures x < |locals| ==>
              Exec(w, SetLocal(x, e), locals, sh, fuel) == Normal(locals[..x] + [v] + locals[x + 1..], sh)
    ensures x < |sh.upvals| ==>
              var upvals := sh.upvals[..x] + [v] + sh.upvals[x + 1..];
              Exec(w, SetUpvalue(x, e), locals, sh, fuel) == Normal(locals, Shared(sh.globals, upvals))
  {
    hide Eval;
    if x < |locals| {
      assert locals[x := v] == locals[..x] + [v] + locals[x + 1..];
    }
    if x < |sh.upvals| {
      assert sh.upvals[x := v] == sh.upvals[..x] + [v] + sh.upvals[x + 1..];
    }
  }

  /** A branch is taken exactly for a condition that is true; without `else` nothing is, and a loop
      is a branch into its body and the loop again.  A break leaves the loop, a continue starts
      its next turn. */
  lemma BranchesExecute(w: World, c: Expr, yes: Stmt, no: Stmt, locals: seq<Value>, sh: Shared, fuel: nat)
    ensures var r := Eval(w, c, locals, sh);
      var branch, loop := IfElse(c, yes, no), While(c, yes);
      if r.Err? then
        && Exec(w, branch, locals, sh, fuel) == Exec(w, If(c, yes), locals, sh, fuel) == Raised(r.msg, sh)
        && Exec(w, loop, locals, sh, fuel + 1) == Raised(r.msg, sh)
      else if IsTrue(w, r.value) then
        var o := Exec(w, yes, locals, sh, fuel);
        && Exec(w, branch, locals, sh, fuel) == Exec(w, If(c, yes), locals, sh, fuel) == o
        && Exec(w, loop, locals, sh, fuel + 1) ==
           match o
           case Normal(l, s) => Exec(w, loop, l, s, fuel)
           case Continued(l, s) => Exec(w, loop, l, s, fuel)
           case Broke(l, s) => Normal(l, s)
           case _ => o
      else
        && Exec(w, branch, locals, sh, fuel) == Exec(w, no, locals, sh, fuel)
        && Exec(w, If(c, yes), locals, sh, fuel) == Exec(w, loop, locals, sh, fuel + 1) == Normal(locals, sh)
  {
    hide Eval;
  }
}
