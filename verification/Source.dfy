/** The structured source language: expressions without calls and assignments, and statements.

    Names are already resolved: a local is its register, an upvalue its index. */
module Source {
  import opened Bytecode
  import opened Machine

  datatype Expr =
    | Prim(p: nat)  // 0 nil, 1 true, 2 false
    | Number(n: Double)
    | Text(s: string)
    | Local(x: Reg)
    | Upval(u: Half)
    | Global(name: string)
    | Minus(e: Expr)
    | Bang(e: Expr)
    | Arith(aop: ArithOp, l: Expr, r: Expr)
    | Compare(cop: CompOp, l: Expr, r: Expr)
    | And(l: Expr, r: Expr)
    | Or(l: Expr, r: Expr)

  /** The value of an expression in a frame with the given locals. */
  function Eval(w: World, e: Expr, locals: seq<Value>, sh: Shared): Result<Value> {
    match e
    case Prim(p) => Ok(if p < 3 then PrimitiveValue(p) else Nil)
    case Number(n) => Ok(Num(n))
    case Text(s) => Ok(Str(s))
    case Local(x) => Ok(if x < |locals| then locals[x] else Nil)
    case Upval(u) => Ok(if u < |sh.upvals| then sh.upvals[u] else Nil)
    case Global(name) => GlobalValue(sh, name)
    case Minus(e) => var v :- Eval(w, e, locals, sh); NegateValue(w, v)
    case Bang(e) => var v :- Eval(w, e, locals, sh); Ok(Bool(Falsey(w, v)))
    case Arith(op, l, r) =>
      var b :- Eval(w, l, locals, sh);
      var c :- Eval(w, r, locals, sh);
      ArithValue(w, op, b, c)
    case Compare(op, l, r) =>
      var b :- Eval(w, l, locals, sh);
      var c :- Eval(w, r, locals, sh);
      CompValue(w, op, b, c)
    case And(l, r) =>
      var b :- Eval(w, l, locals, sh);
      if Falsey(w, b) then Ok(b) else Eval(w, r, locals, sh)
    case Or(l, r) =>
      var b :- Eval(w, l, locals, sh);
      if Falsey(w, b) then Eval(w, r, locals, sh) else Ok(b)
  }

  /** Primitives exist, locals and upvalues are in scope. */
  predicate WfExpr(e: Expr, locals: nat, upvals: nat) {
    match e
    case Prim(p) => p < 3
    case Local(x) => x < locals
    case Upval(u) => u < upvals
    case Minus(e) => WfExpr(e, locals, upvals)
    case Bang(e) => WfExpr(e, locals, upvals)
    case Arith(_, l, r) => WfExpr(l, locals, upvals) && WfExpr(r, locals, upvals)
    case Compare(_, l, r) => WfExpr(l, locals, upvals) && WfExpr(r, locals, upvals)
    case And(l, r) => WfExpr(l, locals, upvals) && WfExpr(r, locals, upvals)
    case Or(l, r) => WfExpr(l, locals, upvals) && WfExpr(r, locals, upvals)
    case _ => true
  }

  /** The registers that evaluating e takes. */
  function Need(e: Expr): nat
    ensures Need(e) >= 1
  {
    match e
    case Minus(e) => Need(e)
    case Bang(e) => Need(e)
    case Arith(_, l, r) => Max(Need(l), Need(r) + 1)
    case Compare(_, l, r) => Max(Need(l), Need(r) + 1)
    case And(l, r) => Max(Need(l), Need(r))
    case Or(l, r) => Max(Need(l), Need(r))
    case _ => 1
  }

  function Max(a: nat, b: nat): nat { if a >= b then a else b }

  /** No unary operator: only those keep a 16-bit code position. */
  predicate UnaryFree(e: Expr) {
    match e
    case Minus(_) => false
    case Bang(_) => false
    case Arith(_, l, r) => UnaryFree(l) && UnaryFree(r)
    case Compare(_, l, r) => UnaryFree(l) && UnaryFree(r)
    case And(l, r) => UnaryFree(l) && UnaryFree(r)
    case Or(l, r) => UnaryFree(l) && UnaryFree(r)
    case _ => true
  }

  function Reads(e: Expr): set<int> {
    match e
    case Local(x) => {x}
    case Minus(e) => Reads(e)
    case Bang(e) => Reads(e)
    case Arith(_, l, r) => Reads(l) + Reads(r)
    case Compare(_, l, r) => Reads(l) + Reads(r)
    case And(l, r) => Reads(l) + Reads(r)
    case Or(l, r) => Reads(l) + Reads(r)
    case _ => {}
  }

  /** As the left operand of and/or, e is tested by an instruction that copies it to the
      destination x even when it does not jump.  `!e` is tested without a copy, and copying
      x to itself is harmless. */
  predicate Copying(e: Expr, x: int) {
    match e
    case Local(y) => y != x
    case Bang(_) => false
    case And(l, r) => Copying(l, x) || Copying(r, x)
    case Or(l, r) => Copying(l, x) || Copying(r, x)
    case _ => true
  }

  /** The destination may have been overwritten when the value of e is ready. */
  predicate Dirty(e: Expr, x: int) {
    match e
    case And(l, r) => Copying(l, x) || Dirty(r, x)
    case Or(l, r) => Copying(l, x) || Dirty(r, x)
    case _ => false
  }

  /** e can be computed into the local x: no operand of and/or reads x after a copy. */
  predicate Safe(e: Expr, x: int) {
    match e
    case And(l, r) => Safe(l, x) && Safe(r, x) && (Copying(l, x) ==> x !in Reads(r))
    case Or(l, r) => Safe(l, x) && Safe(r, x) && (Copying(l, x) ==> x !in Reads(r))
    case _ => true
  }

  lemma {:induction false} DirtyCopies(e: Expr, x: int)
    ensures Dirty(e, x) ==> Copying(e, x)
  {
    match e
    case And(l, r) => DirtyCopies(l, x); DirtyCopies(r, x);
    case Or(l, r) => DirtyCopies(l, x); DirtyCopies(r, x);
    case _ =>
  }

  /** A fresh destination is always safe. */
  lemma {:induction false} FreshSafe(e: Expr, x: int)
    requires x !in Reads(e)
    ensures Safe(e, x)
  {
    match e
    case And(l, r) => FreshSafe(l, x); FreshSafe(r, x);
    case Or(l, r) => FreshSafe(l, x); FreshSafe(r, x);
    case _ =>
  }

  /** Only the locals that e reads matter. */
  lemma {:induction false} EvalReads(w: World, e: Expr, a: seq<Value>, b: seq<Value>, sh: Shared)
    requires forall i | i in Reads(e) :: 0 <= i < |a| && i < |b| && a[i] == b[i]
    ensures Eval(w, e, a, sh) == Eval(w, e, b, sh)
    decreases e
  {
    match e
    case Minus(e1) => assert Reads(e) == Reads(e1); EvalReads(w, e1, a, b, sh);
    case Bang(e1) => assert Reads(e) == Reads(e1); EvalReads(w, e1, a, b, sh);
    case Arith(_, l, r) => EvalReads2(w, e, l, r, a, b, sh);
    case Compare(_, l, r) => EvalReads2(w, e, l, r, a, b, sh);
    case And(l, r) => EvalReads2(w, e, l, r, a, b, sh);
    case Or(l, r) => EvalReads2(w, e, l, r, a, b, sh);
    case Local(x) => assert x in Reads(e);
    case _ =>
  }

  lemma {:induction false} EvalReads2(w: World, e: Expr, l: Expr, r: Expr, a: seq<Value>, b: seq<Value>, sh: Shared)
    requires Reads(e) == Reads(l) + Reads(r) && l < e && r < e
    requires forall i | i in Reads(e) :: 0 <= i < |a| && i < |b| && a[i] == b[i]
    ensures Eval(w, l, a, sh) == Eval(w, l, b, sh) && Eval(w, r, a, sh) == Eval(w, r, b, sh)
    decreases e, 0
  {
    forall i | i in Reads(l) ensures 0 <= i < |a| && i < |b| && a[i] == b[i] {
      assert i in Reads(e);
    }
    EvalReads(w, l, a, b, sh);
    forall i | i in Reads(r) ensures 0 <= i < |a| && i < |b| && a[i] == b[i] {
      assert i in Reads(e);
    }
    EvalReads(w, r, a, b, sh);
  }

  lemma {:induction false} ReadsLocals(e: Expr, locals: nat, upvals: nat)
    requires WfExpr(e, locals, upvals)
    ensures forall i | i in Reads(e) :: 0 <= i < locals
  {
    match e
    case Minus(e) => ReadsLocals(e, locals, upvals);
    case Bang(e) => ReadsLocals(e, locals, upvals);
    case Arith(_, l, r) => ReadsLocals(l, locals, upvals); ReadsLocals(r, locals, upvals);
    case Compare(_, l, r) => ReadsLocals(l, locals, upvals); ReadsLocals(r, locals, upvals);
    case And(l, r) => ReadsLocals(l, locals, upvals); ReadsLocals(r, locals, upvals);
    case Or(l, r) => ReadsLocals(l, locals, upvals); ReadsLocals(r, locals, upvals);
    case _ =>
  }

  datatype Stmt =
    | Skip
    | Seq(s1: Stmt, s2: Stmt)
    | Block(body: Stmt)
    | VarLocal(e: Expr)                  // var x = e; in a scope: the next register becomes x
    | VarGlobal(name: string, e: Expr)   // var x = e; at top level
    | SetLocal(x: Reg, e: Expr)
    | SetUpvalue(u: Reg, e: Expr)
    | SetGlobalVar(name: string, e: Expr)
    | Do(e: Expr)
    | If(c: Expr, yes: Stmt)
    | IfElse(c: Expr, yes: Stmt, no: Stmt)
    | While(c: Expr, body: Stmt)
    | Break
    | Continue
    | ReturnValue(e: Expr)

  /** Locals that a statement leaves behind in its scope. */
  function Decls(s: Stmt): nat {
    match s
    case Seq(s1, s2) => Decls(s1) + Decls(s2)
    case VarLocal(_) => 1
    case _ => 0
  }

  /** Well formed in a scope with so many locals: what the parser accepts, and assignments to
      locals only of expressions that do not read the local after a copy into it. */
  predicate WfStmt(s: Stmt, locals: nat, upvals: nat) {
    match s
    case Skip => true
    case Seq(s1, s2) => WfStmt(s1, locals, upvals) && WfStmt(s2, locals + Decls(s1), upvals)
    case Block(body) => WfStmt(body, locals, upvals)
    case VarLocal(e) => WfExpr(e, locals, upvals)
    case VarGlobal(_, e) => WfExpr(e, locals, upvals)
    case SetLocal(x, e) => x < locals && WfExpr(e, locals, upvals) && Safe(e, x)
    case SetUpvalue(u, e) => u < upvals && u < NO_REG && WfExpr(e, locals, upvals)
    case SetGlobalVar(_, e) => WfExpr(e, locals, upvals)
    case Do(e) => WfExpr(e, locals, upvals)
    case If(c, yes) => WfExpr(c, locals, upvals) && WfStmt(yes, locals, upvals) && Decls(yes) == 0
    case IfElse(c, yes, no) =>
      && WfExpr(c, locals, upvals) && WfStmt(yes, locals, upvals) && WfStmt(no, locals, upvals)
      && Decls(yes) == 0 && Decls(no) == 0
    case While(c, body) => WfExpr(c, locals, upvals) && WfStmt(body, locals, upvals) && Decls(body) == 0
    case Break => true
    case Continue => true
    case ReturnValue(e) => WfExpr(e, locals, upvals)
  }

  /** There are registers enough. */
  predicate Fits(s: Stmt, locals: nat) {
    match s
    case Skip => true
    case Seq(s1, s2) => Fits(s1, locals) && Fits(s2, locals + Decls(s1))
    case Block(body) => Fits(body, locals)
    case VarLocal(e) => locals + 1 + Need(e) <= 254
    case VarGlobal(_, e) => locals + Need(e) <= 254
    case SetLocal(_, e) => locals + Need(e) <= 254
    case SetUpvalue(_, e) => locals + Need(e) <= 254
    case SetGlobalVar(_, e) => locals + Need(e) <= 254
    case Do(e) => locals + Need(e) <= 254
    case If(c, yes) => locals + Need(c) <= 254 && Fits(yes, locals)
    case IfElse(c, yes, no) => locals + Need(c) <= 254 && Fits(yes, locals) && Fits(no, locals)
    case While(c, body) => locals + Need(c) <= 254 && Fits(body, locals)
    case Break => true
    case Continue => true
    case ReturnValue(e) => locals + Need(e) <= 254
  }

  predicate UnaryFreeStmt(s: Stmt) {
    match s
    case Skip => true
    case Seq(s1, s2) => UnaryFreeStmt(s1) && UnaryFreeStmt(s2)
    case Block(body) => UnaryFreeStmt(body)
    case VarLocal(e) => UnaryFree(e)
    case VarGlobal(_, e) => UnaryFree(e)
    case SetLocal(_, e) => UnaryFree(e)
    case SetUpvalue(_, e) => UnaryFree(e)
    case SetGlobalVar(_, e) => UnaryFree(e)
    case Do(e) => UnaryFree(e)
    case If(c, yes) => UnaryFree(c) && UnaryFreeStmt(yes)
    case IfElse(c, yes, no) => UnaryFree(c) && UnaryFreeStmt(yes) && UnaryFreeStmt(no)
    case While(c, body) => UnaryFree(c) && UnaryFreeStmt(body)
    case Break => true
    case Continue => true
    case ReturnValue(e) => UnaryFree(e)
  }

  datatype Outcome =
    | Normal(locals: seq<Value>, sh: Shared)
    | Broke(locals: seq<Value>, sh: Shared)
    | Continued(locals: seq<Value>, sh: Shared)
    | Returned(v: Value, sh: Shared)
    | Raised(msg: string, sh: Shared)
    | OutOfFuel

  /** Structured semantics; fuel bounds the loop iterations along any path. */
  function Exec(w: World, s: Stmt, locals: seq<Value>, sh: Shared, fuel: nat): Outcome
    decreases fuel, s
  {
    match s
    case Skip => Normal(locals, sh)
    case Seq(s1, s2) =>
      var o := Exec(w, s1, locals, sh, fuel);
      if o.Normal? then Exec(w, s2, o.locals, o.sh, fuel) else o
    case Block(body) => LeaveScope(Exec(w, body, locals, sh, fuel), |locals|)
    case VarLocal(e) => Use(Eval(w, e, locals, sh), sh, v => Normal(locals + [v], sh))
    case VarGlobal(name, e) =>
      Use(Eval(w, e, locals, sh), sh, v => Normal(locals, sh.(globals := sh.globals[name := v])))
    case SetLocal(x, e) =>
      Use(Eval(w, e, locals, sh), sh, v => Normal(if x < |locals| then locals[x := v] else locals, sh))
    case SetUpvalue(u, e) =>
      Use(Eval(w, e, locals, sh), sh,
          v => Normal(locals, if u < |sh.upvals| then sh.(upvals := sh.upvals[u := v]) else sh))
    case SetGlobalVar(name, e) =>
      Use(Eval(w, e, locals, sh), sh,
          v => var sh' := sh.(globals := sh.globals[name := v]);
            if name in sh.globals then Normal(locals, sh') else Raised(Undefined(name), sh'))
    case Do(e) => Use(Eval(w, e, locals, sh), sh, v => Normal(locals, sh))
    case If(c, yes) =>
      var r := Eval(w, c, locals, sh);
      if r.Err? then Raised(r.msg, sh)
      else if Falsey(w, r.value) then Normal(locals, sh) else Exec(w, yes, locals, sh, fuel)
    case IfElse(c, yes, no) =>
      var r := Eval(w, c, locals, sh);
      if r.Err? then Raised(r.msg, sh)
      else Exec(w, if Falsey(w, r.value) then no else yes, locals, sh, fuel)
    case While(c, body) =>
      if fuel == 0 then OutOfFuel
      else
        var r := Eval(w, c, locals, sh);
        if r.Err? then Raised(r.msg, sh)
        else if Falsey(w, r.value) then Normal(locals, sh)
        else
          var o := Exec(w, body, locals, sh, fuel - 1);
          if o.Normal? || o.Continued? then Exec(w, s, o.locals, o.sh, fuel - 1)
          else if o.Broke? then Normal(o.locals, o.sh)
          else o
    case Break => Broke(locals, sh)
    case Continue => Continued(locals, sh)
    case ReturnValue(e) => Use(Eval(w, e, locals, sh), sh, v => Returned(v, sh))
  }

  function Use(r: Result<Value>, sh: Shared, k: Value -> Outcome): Outcome {
    if r.Ok? then k(r.value) else Raised(r.msg, sh)
  }

  /** Leaving a scope, in whatever way, drops the locals declared in it. */
  function LeaveScope(o: Outcome, n: nat): Outcome {
    if (o.Normal? || o.Broke? || o.Continued?) && n <= |o.locals| then
      o.(locals := o.locals[..n])
    else o
  }

  /** A statement leaves its declarations behind, and nobody changes the number of upvalues. */
  lemma {:induction false} ExecLocals(w: World, s: Stmt, locals: seq<Value>, sh: Shared, fuel: nat)
    requires WfStmt(s, |locals|, |sh.upvals|)
    ensures var o := Exec(w, s, locals, sh, fuel);
      && (o.Normal? ==> |o.locals| == |locals| + Decls(s))
      && (o.Broke? || o.Continued? ==> |locals| <= |o.locals| <= |locals| + Decls(s))
      && (o.Normal? || o.Broke? || o.Continued? ==> |o.sh.upvals| == |sh.upvals|)
    decreases fuel, s
  {
    hide Eval, WfExpr, Safe;
    match s {
      case Seq(s1, s2) =>
        ExecLocals(w, s1, locals, sh, fuel);
        var o := Exec(w, s1, locals, sh, fuel);
        if o.Normal? {
          ExecLocals(w, s2, o.locals, o.sh, fuel);
        }
      case Block(body) => ExecLocals(w, body, locals, sh, fuel);
      case If(c, yes) => ExecLocals(w, yes, locals, sh, fuel);
      case IfElse(c, yes, no) => ExecLocals(w, yes, locals, sh, fuel); ExecLocals(w, no, locals, sh, fuel);
      case While(c, body) =>
        if fuel > 0 {
          ExecLocals(w, body, locals, sh, fuel - 1);
          var o := Exec(w, body, locals, sh, fuel - 1);
          if o.Normal? || o.Continued? {
            ExecLocals(w, s, o.locals, o.sh, fuel - 1);
          }
        }
      case _ =>
    }
  }
}
