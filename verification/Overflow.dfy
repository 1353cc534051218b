/** Where registers run out: regReserve counts in 8 bits and never reports that there is no
    register left (src/parse.c). The expressions are g - (g - (... - last)), which hold one
    register for each operand. */
module Overflow {
  import opened Bytecode
  import opened Machine
  import opened Source
  import opened CodeGen

  // ----- the expressions and their values -----

  /** k operands g in front of the last one. */
  function Nest(g: string, k: nat, last: Expr): Expr {
    if k == 0 then last else Arith(Sub, Global(g), Nest(g, k - 1, last))
  }

  /** Their values, for the value x of g and v of the last operand. */
  function NestValue(w: World, x: Double, k: nat, v: Double): Double {
    if k == 0 then v else w.arith(Sub, x, NestValue(w, x, k - 1, v))
  }

  lemma {:induction false} NestEval(w: World, g: string, x: Double, k: nat, last: Expr, v: Double,
                                    locals: seq<Value>, sh: Shared)
    requires g in sh.globals && sh.globals[g] == Num(x) && Eval(w, last, locals, sh) == Ok(Num(v))
    ensures Eval(w, Nest(g, k, last), locals, sh) == Ok(Num(NestValue(w, x, k, v)))
    decreases k
  {
    if k > 0 {
      NestEval(w, g, x, k - 1, last, v, locals, sh);
    }
  }

  // ----- code generation -----

  /** A state without pending jumps and without locals, that knows the constant. */
  ghost predicate Knows(st: State, g: string, i: nat) {
    st.pending == [] && st.actVar == 0 && i <= 0xffff && i < |st.consts| && Find(st.consts, Str(g)) == i
  }

  function GetG(r: Reg, i: Half): Instr { Instr(GetGlobal, r, i) }
  function SubOf(a: Reg, b: Reg, c: Reg): Instr { InstrABC(ArithVV(Sub), a, b, c) }

  /** What compiling into the next register leaves, but for maxReg. */
  ghost predicate Leaves(st: State, res: Result<(State, Desc)>, code: seq<Instr>, r: Reg, nextReg: Reg) {
    && res.Ok? && res.value.1 == Desc(NonRelocK(r), [], [])
    && res.value.0 == st.(code := st.code + code, nextReg := nextReg, maxReg := res.value.0.maxReg)
  }

  function IntoNext(st: State, e: Expr): Result<(State, Desc)> {
    var (st1, d) :- Compile(st, e);
    NextReg(st1, d)
  }

  lemma EmitOne(st: State, i: Instr)
    requires st.pending == []
    ensures Emit(st, i) == Ok(st.(code := st.code + [i]))
  {
  }

  /** An instruction that waits for its register gets the next one. */
  lemma RelocNext(st: State, pos: nat)
    requires pos < |st.code|
    ensures var st1 := RegReserve(st);
      NextReg(st, Desc(RelocK(pos), [], [])) ==
        Ok((st1.(code := st.code[pos := st.code[pos].(a := st.nextReg)]), Desc(NonRelocK(st.nextReg), [], [])))
  {
    var st1 := RegReserve(st);
    assert Cast8(st1.nextReg - 1) == st.nextReg;
  }

  lemma GlobalCompiled(st: State, g: string, i: Half)
    requires Knows(st, g, i)
    ensures Compile(st, Global(g)) == Ok((st, Desc(GlobalK(i), [], [])))
  {
  }

  lemma GlobalDischarged(st: State, i: Half)
    requires st.pending == []
    ensures Discharge(st, Desc(GlobalK(i), [], [])) ==
        Ok((st.(code := st.code + [GetG(0, i)]), Desc(RelocK(|st.code|), [], [])))
  {
    EmitOne(st, GetG(0, i));
  }

  /** A global in the next register. */
  lemma GlobalNext(st: State, i: Half)
    requires st.pending == []
    ensures AnyReg(st, Desc(GlobalK(i), [], [])) == NextReg(st, Desc(GlobalK(i), [], []))
    ensures Leaves(st, NextReg(st, Desc(GlobalK(i), [], [])), [GetG(st.nextReg, i)], st.nextReg, Cast8(st.nextReg + 1))
  {
    hide ToReg, Emit, Place;
    GlobalDischarged(st, i);
    var st1 := st.(code := st.code + [GetG(0, i)]);
    RelocNext(st1, |st.code|);
    assert st1.code[|st.code| := GetG(st.nextReg, i)] == st.code + [GetG(st.nextReg, i)];
    SameNext(st, st1, Desc(GlobalK(i), [], []), Desc(RelocK(|st.code|), [], []));
  }

  /** What is loaded on discharge goes on as the instruction that loads it. */
  lemma SameNext(st: State, st1: State, d: Desc, d1: Desc)
    requires Discharge(st, d) == Ok((st1, d1)) && d1.kind.RelocK?
    ensures NextReg(st, d) == NextReg(st1, d1) && AnyReg(st, d) == NextReg(st1, d1)
    ensures Discharge(st1, d1) == Ok((st1, d1))
  {
    hide ToReg;
  }

  // ----- an operator -----

  /** The right operand of an operator goes to the next register. */
  lemma RightNext(st: State, d: Desc)
    requires d.kind.RelocK? || (d.kind.GlobalK? && !HasJump(d) && st.pending == [])
    requires NextReg(st, d).Ok? && NextReg(st, d).value.1.kind.NonRelocK? && !HasJump(NextReg(st, d).value.1)
    ensures var (st1, e) := NextReg(st, d).value; ArithOperand(st, d) == Ok(Right(st1, e, false, e.kind.r))
  {
    hide NextReg;
    var (st1, e) := NextReg(st, d).value;
    assert AnyReg(st1, e) == Ok((st1, e));
    if d.kind.GlobalK? {
      GlobalDischarged(st, d.kind.k);
      SameNext(st, st.(code := st.code + [GetG(0, d.kind.k)]), d, Desc(RelocK(|st.code|), [], []));
    }
  }

  /** A description that exprNextReg discharges into an instruction without a register. */
  ghost predicate Waiting(st: State, d: Desc) {
    st.pending == [] && (d.kind.RelocK? || (d.kind.GlobalK? && !HasJump(d)))
  }

  /** g minus an operand that leaves its value in register rc; st1 is the state after g. */
  lemma SubCompiled(st: State, st1: State, g: string, i: Half, e: Expr, inner: seq<Instr>, rc: Reg, next: Reg)
    requires Knows(st, g, i) && NextReg(st, Desc(GlobalK(i), [], [])) == Ok((st1, Desc(NonRelocK(st.nextReg), [], [])))
    requires Leaves(st, NextReg(st, Desc(GlobalK(i), [], [])), [GetG(st.nextReg, i)], st.nextReg, Cast8(st.nextReg + 1))
    requires Compile(st1, e).Ok? && Waiting(Compile(st1, e).value.0, Compile(st1, e).value.1)
    requires Leaves(st1, IntoNext(st1, e), inner, rc, next)
    ensures var r := Compile(st, Arith(Sub, Global(g), e));
      && r.Ok? && r.value.1 == Desc(RelocK(|st.code| + 1 + |inner|), [], [])
      && r.value.0 == st.(code := st.code + ([GetG(st.nextReg, i)] + inner + [SubOf(0, st.nextReg, rc)]),
          nextReg := Cast8(next - 2), maxReg := r.value.0.maxReg)
  {
    hide NextReg, EmitArith, Compile, AnyReg;
    var n := st.nextReg;
    GlobalNext(st, i);
    GlobalCompiled(st, g, i);
    var (st2, d) := Compile(st1, e).value;
    var st3 := NextReg(st2, d).value.0;
    SubEmitted(st2, d, n, rc);
    assert st3.code + [SubOf(0, n, rc)] == st.code + ([GetG(n, i)] + inner + [SubOf(0, n, rc)]);
    ArithCompiled(st, g, e);
  }

  lemma SubEmitted(st: State, d: Desc, n: Reg, rc: Reg)
    requires Waiting(st, d) && NextReg(st, d).Ok? && NextReg(st, d).value.1 == Desc(NonRelocK(rc), [], [])
    requires NextReg(st, d).value.0.actVar == 0 && NextReg(st, d).value.0.pending == []
    ensures var st3 := NextReg(st, d).value.0;
      EmitArith(st, Sub, Desc(NonRelocK(n), [], []), d)
        == Ok((st3.(code := st3.code + [SubOf(0, n, rc)], nextReg := Cast8(st3.nextReg - 2)),
            Desc(RelocK(|st3.code|), [], [])))
  {
    hide NextReg, ArithOperand, Emit;
    RightNext(st, d);
    var (st3, e3) := NextReg(st, d).value;
    var left := Desc(NonRelocK(n), [], []);
    assert Operand(st3, left) == Ok((st3, left));
    var st4 := Release(Release(st3, left), e3);
    assert st4 == st3.(nextReg := Cast8(st3.nextReg - 2));
    EmitOne(st4, SubOf(0, n, rc));
  }

  lemma ArithCompiled(st: State, g: string, e: Expr)
    ensures Compile(st, Arith(Sub, Global(g), e)) ==
      (var (st1, d1) :- Compile(st, Global(g));
       var (st2, d1') :- AnyReg(st1, d1);
       var (st3, d2) :- Compile(st2, e);
       EmitArith(st3, Sub, d1', d2))
  {
    hide AnyReg, EmitArith, EmitComp, EmitUnary, BranchOn, Append, Discharge, MakeConst, Emit;
  }

  /** The same, in the next register. */
  lemma SubNext(st: State, st1: State, g: string, i: Half, e: Expr, inner: seq<Instr>, rc: Reg, next: Reg)
    requires Knows(st, g, i) && NextReg(st, Desc(GlobalK(i), [], [])) == Ok((st1, Desc(NonRelocK(st.nextReg), [], [])))
    requires Leaves(st, NextReg(st, Desc(GlobalK(i), [], [])), [GetG(st.nextReg, i)], st.nextReg, Cast8(st.nextReg + 1))
    requires Compile(st1, e).Ok? && Waiting(Compile(st1, e).value.0, Compile(st1, e).value.1)
    requires Leaves(st1, IntoNext(st1, e), inner, rc, next)
    ensures var a := Cast8(next - 2);
      Leaves(st, IntoNext(st, Arith(Sub, Global(g), e)), [GetG(st.nextReg, i)] + inner + [SubOf(a, st.nextReg, rc)],
          a, Cast8(next - 1))
    ensures Compile(st, Arith(Sub, Global(g), e)).Ok? && Compile(st, Arith(Sub, Global(g), e)).value.1.kind.RelocK?
    ensures Waiting(Compile(st, Arith(Sub, Global(g), e)).value.0, Compile(st, Arith(Sub, Global(g), e)).value.1)
  {
    hide Compile, NextReg;
    SubCompiled(st, st1, g, i, e, inner, rc, next);
    var (st2, d) := Compile(st, Arith(Sub, Global(g), e)).value;
    RelocNext(st2, d.kind.pos);
    var body := [GetG(st.nextReg, i)] + inner;
    var a := Cast8(next - 2);
    assert st2.code == st.code + (body + [SubOf(0, st.nextReg, rc)]);
    assert st2.code[d.kind.pos := SubOf(a, st.nextReg, rc)] == st.code + (body + [SubOf(a, st.nextReg, rc)]);
  }

  // ----- the last operand -----

  /** It is g, or g and g, with the value of g either way. */
  function Last(g: string, connective: bool): Expr {
    if connective then And(Global(g), Global(g)) else Global(g)
  }

  /** A connective in register r tests the first value with a jump over the second. */
  function LastCode(r: Reg, i: Half, connective: bool): seq<Instr> {
    if connective then [GetG(r, i), Instr(JumpIf(false), 0, r), Instr(Jump, Cast8(r + 1), JUMP_BIAS + 1), GetG(r, i)]
    else [GetG(r, i)]
  }

  /** The same when register 255 holds the first value: it is copied to register 0. */
  function WrappedCode(i: Half): seq<Instr> {
    [GetG(255, i), Instr(CopyJumpIf(false), 0, 255), Instr(Jump, 0, JUMP_BIAS + 1), GetG(0, i)]
  }

  /** The first three instructions, before patching. */
  function Tested(n: Reg, i: Half): seq<Instr> {
    [GetG(n, i), Instr(CopyJumpIf(false), NO_REG, n), Instr(Jump, Cast8(n + 1), UNPATCHED)]
  }

  /** After the first operand of the connective; register 255 is never freed. */
  lemma FirstTested(st: State, i: Half)
    requires st.pending == [] && st.actVar == 0
    ensures var r := BranchOn(st, Desc(GlobalK(i), [], []), true);
      && r.Ok? && r.value.1 == [|st.code| + 2]
      && r.value.0 == st.(code := st.code + Tested(st.nextReg, i),
          nextReg := if st.nextReg == 255 then 0 else st.nextReg, maxReg := r.value.0.maxReg)
  {
    var n, p := st.nextReg, |st.code|;
    GlobalDischarged(st, i);
    var st1, d1 := st.(code := st.code + [GetG(0, i)]), Desc(RelocK(p), [], []);
    var st2 := RegReserve(st1).(code := st.code + [GetG(n, i)]);
    assert Put(st1.code, p, GetG(n, i)) == st2.code;
    assert BranchOperand(st1, d1) == Ok((st2, Desc(NonRelocK(n), [], [])));
    EmitOne(st2, Instr(CopyJumpIf(false), NO_REG, n));
    var st3 := st2.(code := st2.code + [Instr(CopyJumpIf(false), NO_REG, n)]);
    var jump := Instr(Jump, Cast8(st.nextReg + 1), UNPATCHED);
    EmitOne(st3, jump);
    var st4 := st3.(code := st3.code + [jump]);
    var none: seq<nat> := [];
    assert st4.code == st.code + Tested(n, i) && [p + 2] + none == [p + 2] && none + [p + 2] == [p + 2];
    assert EmitJump(st3) == Ok((st4, [p + 2]));
    assert Branch(st1, d1, false) == Ok((ExprFree(st4, Desc(NonRelocK(n), [], [])), [p + 2]));
  }

  lemma ConnectiveCompiled(st: State, g: string, i: Half)
    requires Knows(st, g, i)
    ensures var r := Compile(st, Last(g, true));
      && r.Ok? && r.value.1 == Desc(RelocK(|st.code| + 3), [], [|st.code| + 2])
      && r.value.0 == st.(code := st.code + (Tested(st.nextReg, i) + [GetG(0, i)]),
          nextReg := if st.nextReg == 255 then 0 else st.nextReg, maxReg := r.value.0.maxReg)
  {
    hide BranchOn, Emit;
    GlobalCompiled(st, g, i);
    FirstTested(st, i);
    var st2 := BranchOn(st, Desc(GlobalK(i), [], []), true).value.0;
    GlobalCompiled(st2, g, i);
    GlobalDischarged(st2, i);
    var none: seq<nat> := [];
    assert none + [|st.code| + 2] == [|st.code| + 2];
    assert st2.code + [GetG(0, i)] == st.code + (Tested(st.nextReg, i) + [GetG(0, i)]);
  }

  lemma ConnectivePatched(c: seq<Instr>, n: Reg, m: Reg, i: Half)
    requires (m == n <= 254) || (n == 255 && m == 0)
    ensures var d := Desc(NonRelocK(m), [], [|c| + 2]);
      var code := c + (Tested(n, i) + [GetG(m, i)]);
      && !NoValue(code, d.tj) && !NoValue(code, d.fj)
      && PatchBoth(code, d, |code|, m, |code|, |code|) ==
          Ok(c + (if n == 255 then WrappedCode(i) else LastCode(n, i, true)))
  {
    var p := |c|;
    var code := c + (Tested(n, i) + [GetG(m, i)]);
    assert |code| == p + 4 && [p + 2][1..] == [];
    assert At(code, p + 1) == Instr(CopyJumpIf(false), NO_REG, n) &&
        At(code, p + 2) == Instr(Jump, Cast8(n + 1), UNPATCHED);
    var t := if n == 255 then Instr(CopyJumpIf(false), 0, 255) else Instr(JumpIf(false), 0, n);
    var c1 := Put(code, p + 1, t);
    assert PatchTest(code, p + 2, m) == (c1, true);
    var c2 := Put(c1, p + 2, Instr(Jump, Cast8(n + 1), JUMP_BIAS + 1));
    assert PatchOne(code, p + 2, p + 4, m, p + 4) == Ok(c2);
    assert c2 == c + (if n == 255 then WrappedCode(i) else LastCode(n, i, true));
    var d := Desc(NonRelocK(m), [], [p + 2]);
    assert !NoValue(code, d.tj);
    assert !NoValue(code, d.fj);
    assert PatchList(code, d.fj, p + 4, m, p + 4) == Ok(c2);
  }

  lemma ConnectiveNext(st: State, c: seq<Instr>, n: Reg, i: Half)
    requires st.code == c + (Tested(n, i) + [GetG(0, i)])
    requires st.pending == [] && st.nextReg == (if n == 255 then 0 else n)
    ensures var code := c + (if n == 255 then WrappedCode(i) else LastCode(n, i, true));
      NextReg(st, Desc(RelocK(|c| + 3), [], [|c| + 2])) ==
          Ok((RegReserve(st).(code := code), Desc(NonRelocK(st.nextReg), [], [])))
  {
    hide PatchBoth, NoValue;
    var m, d := st.nextReg, Desc(RelocK(|c| + 3), [], [|c| + 2]);
    ConnectivePatched(c, n, m, i);
    var st2 := RegReserve(st);
    assert Cast8(st2.nextReg - 1) == m;
    var st3 := st2.(code := c + (Tested(n, i) + [GetG(m, i)]));
    assert Put(st.code, |c| + 3, GetG(m, i)) == st3.code;
    assert ToRegNoBranch(st2, d, m) == Ok((st3, d.(kind := NonRelocK(m))));
    assert Resolve(st3, d.(kind := NonRelocK(m)), m) ==
        Ok(st3.(code := c + (if n == 255 then WrappedCode(i) else LastCode(n, i, true))));
    assert ToReg(st2, d, m) ==
        Ok((st3.(code := c + (if n == 255 then WrappedCode(i) else LastCode(n, i, true))), Desc(NonRelocK(m), [], [])));
  }

  lemma LastNext(st: State, g: string, i: Half, connective: bool)
    requires Knows(st, g, i)
    ensures Compile(st, Last(g, connective)).Ok?
    ensures Waiting(Compile(st, Last(g, connective)).value.0, Compile(st, Last(g, connective)).value.1)
    ensures if connective && st.nextReg == 255 then Leaves(st, IntoNext(st, Last(g, connective)), WrappedCode(i), 0, 1)
            else Leaves(st, IntoNext(st, Last(g, connective)), LastCode(st.nextReg, i, connective),
                st.nextReg, Cast8(st.nextReg + 1))
  {
    hide Compile, NextReg;
    if connective {
      ConnectiveCompiled(st, g, i);
      var (st1, d) := Compile(st, Last(g, true)).value;
      ConnectiveNext(st1, st.code, st.nextReg, i);
    } else {
      GlobalCompiled(st, g, i);
      GlobalNext(st, i);
    }
  }

  // ----- the nest -----

  /** The state after g is loaded. */
  lemma KnowsAfter(st: State, g: string, i: Half)
    requires Knows(st, g, i)
    ensures Leaves(st, NextReg(st, Desc(GlobalK(i), [], [])), [GetG(st.nextReg, i)], st.nextReg, Cast8(st.nextReg + 1))
    ensures NextReg(st, Desc(GlobalK(i), [], [])).Ok?
    ensures |NextReg(st, Desc(GlobalK(i), [], [])).value.0.code| == |st.code| + 1
    ensures var (st1, d) := NextReg(st, Desc(GlobalK(i), [], [])).value;
      Knows(st1, g, i) && st1.nextReg == Cast8(st.nextReg + 1) && d == Desc(NonRelocK(st.nextReg), [], []) &&
      st.pending == []
  {
    hide NextReg;
    GlobalNext(st, i);
  }

  /** With registers enough: the operands in order, then the operators from the last one out. */
  function NestCode(n: Reg, k: nat, i: Half, connective: bool): seq<Instr>
    decreases k
  {
    if k == 0 then LastCode(n, i, connective)
    else [GetG(n, i)] + NestCode(Cast8(n + 1), k - 1, i, connective) + [SubOf(n, n, Cast8(n + 1))]
  }

  lemma {:induction false} NestNext(st: State, g: string, i: Half, k: nat, connective: bool)
    requires Knows(st, g, i) && (connective ==> st.nextReg + k <= 254)
    ensures Compile(st, Nest(g, k, Last(g, connective))).Ok?
    ensures Waiting(Compile(st, Nest(g, k, Last(g, connective))).value.0,
        Compile(st, Nest(g, k, Last(g, connective))).value.1)
    ensures Leaves(st, IntoNext(st, Nest(g, k, Last(g, connective))), NestCode(st.nextReg, k, i, connective),
        st.nextReg, Cast8(st.nextReg + 1))
    decreases k
  {
    hide Compile, NextReg, Leaves, IntoNext, Waiting, Knows, Last;
    if k == 0 {
      LastNext(st, g, i, connective);
    } else {
      KnowsAfter(st, g, i);
      var st1 := NextReg(st, Desc(GlobalK(i), [], [])).value.0;
      NestNext(st1, g, i, k - 1, connective);
      SubNext(st, st1, g, i, Nest(g, k - 1, Last(g, connective)), NestCode(st1.nextReg, k - 1, i, connective),
          st1.nextReg, Cast8(st1.nextReg + 1));
    }
  }

  /** When the connective is in register 255 its value goes to register 0, and every operator
      above it is one register off. */
  function SlippedCode(n: Reg, i: Half): seq<Instr>
    decreases 255 - n
  {
    if n == 255 then WrappedCode(i)
    else [GetG(n, i)] + SlippedCode(n + 1, i) + [SubOf(n + 1, n, Slipped(n + 1))]
  }

  /** Where the value of the nest from register n on is then. */
  function Slipped(n: Reg): Reg { if n == 255 then 0 else n + 1 }

  lemma {:induction false} SlippedNext(st: State, g: string, i: Half, k: nat)
    requires Knows(st, g, i) && st.nextReg + k == 255
    ensures Compile(st, Nest(g, k, Last(g, true))).Ok?
    ensures Waiting(Compile(st, Nest(g, k, Last(g, true))).value.0, Compile(st, Nest(g, k, Last(g, true))).value.1)
    ensures Leaves(st, IntoNext(st, Nest(g, k, Last(g, true))), SlippedCode(st.nextReg, i),
        Slipped(st.nextReg), Cast8(Slipped(st.nextReg) + 1))
    decreases k
  {
    hide Compile, NextReg, Leaves, IntoNext, Waiting, Knows, Last;
    if k == 0 {
      LastNext(st, g, i, true);
    } else {
      KnowsAfter(st, g, i);
      var st1 := NextReg(st, Desc(GlobalK(i), [], [])).value.0;
      SlippedNext(st1, g, i, k - 1);
      SubNext(st, st1, g, i, Nest(g, k - 1, Last(g, true)), SlippedCode(st1.nextReg, i), Slipped(st1.nextReg),
          Cast8(Slipped(st1.nextReg) + 1));
    }
  }

  // ----- running -----

  ghost predicate CodeAt(p: Program, pos: nat, c: seq<Instr>) {
    pos + |c| <= |p.code| && p.code[pos..pos + |c|] == c
  }

  lemma CodeSplit(p: Program, pos: nat, a: seq<Instr>, b: seq<Instr>)
    requires CodeAt(p, pos, a + b)
    ensures CodeAt(p, pos, a) && CodeAt(p, pos + |a|, b)
  {
    assert p.code[pos..pos + |a|] == p.code[pos..pos + |a + b|][..|a|];
    assert p.code[pos + |a|..pos + |a| + |b|] == p.code[pos..pos + |a + b|][|a|..];
  }

  lemma CodeFirst(p: Program, pos: nat, c: seq<Instr>)
    requires CodeAt(p, pos, c) && c != []
    ensures pos < |p.code| && p.code[pos] == c[0]
  {
    assert p.code[pos] == p.code[pos..pos + |c|][0];
  }

  /** What the runs need to know of g: constant i is its name, and its value is a number. */
  ghost predicate Holds(p: Program, i: Half, g: string, x: Double, sh: Shared) {
    i < |p.consts| && p.consts[i] == Str(g) && g in sh.globals && sh.globals[g] == Num(x)
  }

  lemma LoadRuns(p: Program, pos: nat, r: Reg, i: Half, g: string, x: Double, regs: Regs, sh: Shared)
    requires Holds(p, i, g, x, sh) && CodeAt(p, pos, [GetG(r, i)])
    ensures Steps(p, Running(pos, regs, sh), 1) == Running(pos + 1, regs[r := Num(x)], sh)
  {
    CodeFirst(p, pos, [GetG(r, i)]);
    var m := Running(pos, regs, sh);
    assert Steps(p, m, 1) == Step(p, m);
  }

  lemma SubRuns(p: Program, pos: nat, a: Reg, b: Reg, c: Reg, x: Double, y: Double, regs: Regs, sh: Shared)
    requires CodeAt(p, pos, [SubOf(a, b, c)]) && regs[b] == Num(x) && regs[c] == Num(y)
    ensures Steps(p, Running(pos, regs, sh), 1) == Running(pos + 1, regs[a := Num(p.w.arith(Sub, x, y))], sh)
  {
    CodeFirst(p, pos, [SubOf(a, b, c)]);
    var i, m := SubOf(a, b, c), Running(pos, regs, sh);
    assert i.B() == b && i.C() == c;
    assert Steps(p, m, 1) == Step(p, m);
  }

  /** g and g: the value is a number, so the test does not jump. */
  lemma TestRuns(p: Program, pos: nat, r: Reg, t: Reg, i: Half, g: string, x: Double, regs: Regs, sh: Shared)
    requires Holds(p, i, g, x, sh)
    requires if r == 255 then t == 0 && CodeAt(p, pos, WrappedCode(i))
               else t == r && CodeAt(p, pos, LastCode(r, i, true))
    ensures var regs1 := regs[r := Num(x)];
      Steps(p, Running(pos, regs, sh), 3) == Running(pos + 4, if r == 255 then regs1[0 := Num(x)] else regs1, sh)
  {
    hide Step, Steps, CodeAt, Holds;
    var c := if r == 255 then WrappedCode(i) else LastCode(r, i, true);
    CodeFour(p, pos, c);
    LoadRuns(p, pos, r, i, g, x, regs, sh);
    var m, regs1 := Running(pos, regs, sh), regs[r := Num(x)];
    NoJump(p, pos + 1, c[1], regs1, sh);
    var regs2 := if r == 255 then regs1[0 := Num(x)] else regs1;
    LoadRuns(p, pos + 3, t, i, g, x, regs2, sh);
    assert regs2[t := Num(x)] == regs2;
    StepsAdd(p, m, 1, 1);
    StepsAdd(p, m, 2, 1);
  }

  lemma CodeFour(p: Program, pos: nat, c: seq<Instr>)
    requires CodeAt(p, pos, c) && |c| == 4
    ensures CodeAt(p, pos, [c[0]]) && CodeAt(p, pos + 1, [c[1]]) && CodeAt(p, pos + 3, [c[3]])
  {
    assert c == [c[0]] + c[1..] == [c[0]] + ([c[1]] + c[2..]) == c[..3] + [c[3]];
    CodeSplit(p, pos, [c[0]], c[1..]);
    assert c[1..] == [c[1]] + c[2..];
    CodeSplit(p, pos + 1, [c[1]], c[2..]);
    CodeSplit(p, pos, c[..3], [c[3]]);
  }

  lemma NoJump(p: Program, pos: nat, i: Instr, regs: Regs, sh: Shared)
    requires CodeAt(p, pos, [i]) && (i.op == CopyJumpIf(false) || i.op == JumpIf(false))
    requires i.d < 0x100 && regs[i.d].Num?
    ensures Steps(p, Running(pos, regs, sh), 1) ==
        Running(pos + 2, if i.op.CopyJumpIf? then regs[i.a := regs[i.d]] else regs, sh)
  {
    CodeFirst(p, pos, [i]);
    var m := Running(pos, regs, sh);
    assert Steps(p, m, 1) == Step(p, m);
  }

  /** The register of place n: register 0 comes again after 255. */
  function Register(n: nat): Reg
    requires n <= 0x100
  {
    if n == 0x100 then 0 else n
  }

  /** The value of the nest from place n on is in its register, the registers before it are what
      they were, and so is register 0, unless the nest reaches it. */
  ghost predicate Nested(w: World, x: Double, n: nat, k: nat, regs: Regs, regs': Regs)
    requires 1 <= n && n + k <= 0x100
  {
    && regs'[Register(n)] == Num(NestValue(w, x, k, x))
    && (forall j | 0 < j < n :: regs'[j] == regs[j])
    && regs'[0] == if n + k == 0x100 then Num(x) else regs[0]
  }

  lemma {:induction false} NestRuns(p: Program, pos: nat, n: nat, k: nat, i: Half, connective: bool, g: string,
                                    x: Double, regs: Regs, sh: Shared)
      returns (t: nat, regs': Regs)
    requires 1 <= n && n + k <= 0x100 && (connective ==> n + k <= 254)
    requires Holds(p, i, g, x, sh) && CodeAt(p, pos, NestCode(Register(n), k, i, connective))
    ensures Steps(p, Running(pos, regs, sh), t) == Running(pos + |NestCode(Register(n), k, i, connective)|, regs', sh)
    ensures Nested(p.w, x, n, k, regs, regs')
    decreases k
  {
    hide Step, Steps, LastCode, Nested, CodeAt, Holds;
    var m := Running(pos, regs, sh);
    if k == 0 {
      t, regs' := LastRuns(p, pos, n, i, connective, g, x, regs, sh);
    } else {
      var next, inner, last := Register(n + 1), NestCode(Register(n + 1), k - 1, i, connective), SubOf(n, n,
          Register(n + 1));
      assert NestCode(n, k, i, connective) == [GetG(n, i)] + (inner + [last]);
      CodeSplit(p, pos, [GetG(n, i)], inner + [last]);
      CodeSplit(p, pos + 1, inner, [last]);
      LoadRuns(p, pos, n, i, g, x, regs, sh);
      var t1, regs1 := NestRuns(p, pos + 1, n + 1, k - 1, i, connective, g, x, regs[n := Num(x)], sh);
      NestedStep(p.w, x, n, k, regs, regs1);
      SubRuns(p, pos + 1 + |inner|, n, n, next, x, NestValue(p.w, x, k - 1, x), regs1, sh);
      regs' := regs1[n := Num(p.w.arith(Sub, x, NestValue(p.w, x, k - 1, x)))];
      StepsAdd(p, m, 1, t1);
      StepsAdd(p, m, 1 + t1, 1);
      t := 1 + t1 + 1;
    }
  }

  lemma NestedStep(w: World, x: Double, n: nat, k: nat, regs: Regs, regs1: Regs)
    requires 1 <= n && 1 <= k && n + k <= 0x100 && Nested(w, x, n + 1, k - 1, regs[n := Num(x)], regs1)
    ensures regs1[n] == Num(x) && regs1[Register(n + 1)] == Num(NestValue(w, x, k - 1, x))
    ensures Nested(w, x, n, k, regs, regs1[n := Num(w.arith(Sub, x, NestValue(w, x, k - 1, x)))])
  {
  }

  lemma LastRuns(p: Program, pos: nat, n: nat, i: Half, connective: bool, g: string, x: Double, regs: Regs, sh: Shared)
      returns (t: nat, regs': Regs)
    requires 1 <= n <= 0x100 && (connective ==> n <= 254)
    requires Holds(p, i, g, x, sh) && CodeAt(p, pos, NestCode(Register(n), 0, i, connective))
    ensures Steps(p, Running(pos, regs, sh), t) == Running(pos + |NestCode(Register(n), 0, i, connective)|, regs', sh)
    ensures Nested(p.w, x, n, 0, regs, regs')
  {
    hide Step, Steps;
    regs' := regs[Register(n) := Num(x)];
    if connective {
      TestRuns(p, pos, n, n, i, g, x, regs, sh);
      t := 3;
    } else {
      LoadRuns(p, pos, Register(n), i, g, x, regs, sh);
      t := 1;
    }
  }

  /** The slipped code leaves x in register 0, the value of the nest where it says, and the
      registers in between as they were. */
  ghost predicate SlippedTo(w: World, x: Double, n: Reg, regs: Regs, regs': Regs) {
    && regs'[0] == Num(x) && regs'[Slipped(n)] == Num(NestValue(w, x, 255 - n, x))
    && forall j | 0 < j < n :: regs'[j] == regs[j]
  }

  lemma {:induction false} SlippedRuns(p: Program, pos: nat, n: Reg, i: Half, g: string, x: Double, regs: Regs,
                                       sh: Shared)
      returns (t: nat, regs': Regs)
    requires Holds(p, i, g, x, sh) && CodeAt(p, pos, SlippedCode(n, i)) && n >= 1
    ensures Steps(p, Running(pos, regs, sh), t) == Running(pos + |SlippedCode(n, i)|, regs', sh)
    ensures SlippedTo(p.w, x, n, regs, regs')
    decreases 255 - n
  {
    hide Step;
    var m := Running(pos, regs, sh);
    if n == 255 {
      regs' := regs[255 := Num(x)][0 := Num(x)];
      TestRuns(p, pos, 255, 0, i, g, x, regs, sh);
      t := 3;
    } else {
      var inner, last := SlippedCode(n + 1, i), SubOf(n + 1, n, Slipped(n + 1));
      assert SlippedCode(n, i) == [GetG(n, i)] + (inner + [last]);
      CodeSplit(p, pos, [GetG(n, i)], inner + [last]);
      CodeSplit(p, pos + 1, inner, [last]);
      LoadRuns(p, pos, n, i, g, x, regs, sh);
      var t1, regs1 := SlippedRuns(p, pos + 1, n + 1, i, g, x, regs[n := Num(x)], sh);
      SubRuns(p, pos + 1 + |inner|, n + 1, n, Slipped(n + 1), x, NestValue(p.w, x, 255 - n - 1, x), regs1, sh);
      regs' := regs1[n + 1 := Num(p.w.arith(Sub, x, NestValue(p.w, x, 255 - n - 1, x)))];
      StepsAdd(p, m, 1, t1);
      StepsAdd(p, m, 1 + t1, 1);
      t := 1 + t1 + 1;
    }
  }

  // ----- whole functions -----

  function Difference(g: string, h: string, k: nat, connective: bool): Expr {
    Arith(Sub, Global(h), Nest(g, k, Last(g, connective)))
  }

  /** `g; h; return h - (g - (... - last));` with k operands g and the last one. */
  function Function(g: string, h: string, k: nat, connective: bool): Stmt {
    Seq(Do(Global(g)), Seq(Do(Global(h)), ReturnValue(Difference(g, h, k, connective))))
  }

  const NO_LOOPS := Loops([], [], false)

  function Known(g: string, h: string): State {
    State([GetG(0, 0), GetG(0, 1)], [Str(g), Str(h)], 0, 0, 1, [])
  }

  lemma GlobalsKnown(g: string, h: string)
    requires g != h
    ensures CompileStmt(InitialState(0), NO_LOOPS, Do(Global(g))).Ok?
    ensures var st := CompileStmt(InitialState(0), NO_LOOPS, Do(Global(g))).value.0;
      CompileStmt(st, NO_LOOPS, Do(Global(h))) == Ok((Known(g, h), NO_LOOPS))
    ensures CompileStmt(InitialState(0), NO_LOOPS, Do(Global(g))).value.1 == NO_LOOPS
    ensures Knows(Known(g, h), g, 0) && Knows(Known(g, h), h, 1)
  {
    var st0 := InitialState(0).(consts := [Str(g)]);
    var st1 := State([GetG(0, 0)], [Str(g)], 0, 0, 1, []);
    var none: seq<Value> := [];
    assert none + [Str(g)] == [Str(g)];
    FindOne(g, h);
    assert MakeConst(InitialState(0), Str(g)) == Ok((st0, 0));
    GlobalStatement(InitialState(0), g, st0, 0, 1);
    assert st0.code + [GetG(0, 0)] == [GetG(0, 0)];
    GlobalStatement(st1, h, st1.(consts := [Str(g), Str(h)]), 1, 1);
    assert [GetG(0, 0)] + [GetG(0, 1)] == [GetG(0, 0), GetG(0, 1)];
  }

  lemma FindOne(g: string, h: string)
    requires g != h
    ensures Find([Str(g)], Str(h)) == 1 && Find([Str(g), Str(h)], Str(g)) == 0 && Find([Str(g), Str(h)], Str(h)) == 1
    ensures [Str(g)] + [Str(h)] == [Str(g), Str(h)] && Find([], Str(g)) == 0 && [] + [Str(g)] == [Str(g)]
  {
    assert [Str(g)][1..] == [] && [Str(g), Str(h)][1..] == [Str(h)];
  }

  /** A statement `g;`, for st0 the state with the constant. */
  lemma GlobalStatement(st: State, g: string, st0: State, i: Half, max: Reg)
    requires Compile(st, Global(g)) == Ok((st0, Desc(GlobalK(i), [], [])))
    requires st0.pending == [] && st0.nextReg == st0.actVar == 0
    requires max == if st0.maxReg >= 1 then st0.maxReg else 1
    ensures CompileStmt(st, NO_LOOPS, Do(Global(g))) ==
        Ok((st0.(code := st0.code + [GetG(0, i)], maxReg := max), NO_LOOPS))
  {
    hide Compile;
    GlobalDischarged(st0, i);
    var st1 := st0.(code := st0.code + [GetG(0, i)]);
    RelocNext(st1, |st0.code|);
    SameNext(st0, st1, Desc(GlobalK(i), [], []), Desc(RelocK(|st0.code|), [], []));
    assert st1.code[|st0.code| := GetG(0, i)] == st1.code;
  }

  /** Whether the last operand is written to register 0, over the first one: the 257th register
      is asked for, or a connective wants register 255. */
  predicate Overflows(k: nat, connective: bool) { if connective then k == 254 else k == 255 }

  /** The operands after the first one, and where their value is. */
  function Inner(k: nat, connective: bool): seq<Instr> {
    if connective && k == 254 then SlippedCode(1, 0) else NestCode(1, k, 0, connective)
  }

  function ValueReg(k: nat, connective: bool): Reg { if connective && k == 254 then 2 else 1 }

  function FunctionCode(k: nat, connective: bool): seq<Instr> {
    var rc := ValueReg(k, connective);
    [GetG(0, 0), GetG(0, 1), GetG(0, 1)] + Inner(k, connective) + [SubOf(rc - 1, 0, rc), Instr(Return, rc - 1, 2)]
  }

  lemma DifferenceNext(g: string, h: string, k: nat, connective: bool)
    requires g != h && (connective ==> k <= 254)
    ensures Compile(Known(g, h), Difference(g, h, k, connective)).Ok?
    ensures Compile(Known(g, h), Difference(g, h, k, connective)).value.1.kind.RelocK?
    ensures var rc := ValueReg(k, connective);
      Leaves(Known(g, h), IntoNext(Known(g, h), Difference(g, h, k, connective)),
             [GetG(0, 1)] + Inner(k, connective) + [SubOf(rc - 1, 0, rc)], rc - 1, rc)
  {
    hide Compile, NextReg, NestCode, SlippedCode;
    var st := Known(g, h);
    FindOne(g, h);
    GlobalNext(st, 1);
    var st1 := NextReg(st, Desc(GlobalK(1), [], [])).value.0;
    if connective && k == 254 {
      SlippedNext(st1, g, 0, k);
    } else {
      NestNext(st1, g, 0, k, connective);
    }
    var rc := ValueReg(k, connective);
    SubNext(st, st1, h, 1, Nest(g, k, Last(g, connective)), Inner(k, connective), rc, rc + 1);
  }

  lemma DifferenceCompiled(g: string, h: string, k: nat, connective: bool)
    requires g != h && (connective ==> k <= 254)
    ensures ReturnWith(Known(g, h), Difference(g, h, k, connective)).Ok?
    ensures var st := ReturnWith(Known(g, h), Difference(g, h, k, connective)).value;
      st.code == FunctionCode(k, connective) && st.consts == [Str(g), Str(h)] && st.pending == []
  {
    hide Compile, NextReg, Inner;
    DifferenceNext(g, h, k, connective);
    var rc := ValueReg(k, connective);
    var (st2, d) := Compile(Known(g, h), Difference(g, h, k, connective)).value;
    var st3 := NextReg(st2, d).value.0;
    ReturnLast(st2, d);
    EmitOne(st3, Instr(Return, rc - 1, 2));
    var a, b := [GetG(0, 1)] + Inner(k, connective), [SubOf(rc - 1, 0, rc)];
    assert st3.code == [GetG(0, 0), GetG(0, 1)] + (a + b);
    assert st3.code + [Instr(Return, rc - 1, 2)] == FunctionCode(k, connective);
  }

  lemma ReturnLast(st: State, d: Desc)
    requires d.kind.RelocK? && NextReg(st, d).Ok?
    ensures EmitReturn(st, d) == Emit(NextReg(st, d).value.0, Instr(Return, RegOf(NextReg(st, d).value.1), 2))
  {
    hide NextReg, Emit;
  }

  lemma FunctionCompiled(g: string, h: string, k: nat, connective: bool)
    requires g != h && (connective ==> k <= 254)
    ensures CompileBody(0, Function(g, h, k, connective)).Ok?
    ensures var st := CompileBody(0, Function(g, h, k, connective)).value;
      st.code == FunctionCode(k, connective) && st.consts == [Str(g), Str(h)]
  {
    hide CompileStmt, CompileBody, ReturnWith, FunctionCode;
    GlobalsKnown(g, h);
    DifferenceCompiled(g, h, k, connective);
    FunctionEnds(k, connective);
    var st1 := CompileStmt(InitialState(0), NO_LOOPS, Do(Global(g))).value.0;
    BodyOf(Do(Global(g)), Do(Global(h)), Difference(g, h, k, connective), st1, Known(g, h));
  }

  /** Two statements and a return. */
  lemma BodyOf(s1: Stmt, s2: Stmt, e: Expr, st1: State, st2: State)
    requires CompileStmt(InitialState(0), NO_LOOPS, s1) == Ok((st1, NO_LOOPS))
    requires CompileStmt(st1, NO_LOOPS, s2) == Ok((st2, NO_LOOPS))
    requires ReturnWith(st2, e).Ok?
    requires var f := ReturnWith(st2, e).value; f.pending == [] && f.code != [] && f.code[|f.code| - 1].op == Return
    ensures CompileBody(0, Seq(s1, Seq(s2, ReturnValue(e)))).Ok?
    ensures var f, st := ReturnWith(st2, e).value, CompileBody(0, Seq(s1, Seq(s2, ReturnValue(e)))).value;
      st.code == f.code && st.consts == f.consts
  {
    hide ReturnWith, CompileStmt;
    var rest, st0 := Seq(s2, ReturnValue(e)), InitialState(0);
    ReturnOf(st2, e);
    SeqOf(st1, s2, ReturnValue(e), st2);
    SeqOf(st0, s1, rest, st1);
  }

  lemma SeqOf(st: State, s: Stmt, rest: Stmt, st': State)
    requires CompileStmt(st, NO_LOOPS, s) == Ok((st', NO_LOOPS))
    ensures CompileStmt(st, NO_LOOPS, Seq(s, rest)) == CompileStmt(st', NO_LOOPS, rest)
  {
  }

  lemma ReturnOf(st: State, e: Expr)
    requires ReturnWith(st, e).Ok?
    ensures CompileStmt(st, NO_LOOPS, ReturnValue(e)) == Ok((EndStatement(ReturnWith(st, e).value), NO_LOOPS))
  {
    hide ReturnWith;
  }

  lemma FunctionEnds(k: nat, connective: bool)
    ensures var c := FunctionCode(k, connective); c != [] && c[|c| - 1].op == Return
  {
  }

  /** The function returns h minus the rest, except when the last operand has overwritten h:
      then it returns g minus the rest. So 256 plain operands are computed right, and 255 when the
      last one is a connective; one more of either is wrong, unless both differences happen to
      agree. */
  lemma FunctionRuns(g: string, h: string, x: Double, y: Double, k: nat, connective: bool, w: World, regs: Regs,
                     sh: Shared)
      returns (t: nat)
    requires g != h && g in sh.globals && h in sh.globals && sh.globals[g] == Num(x) && sh.globals[h] == Num(y)
    requires k <= (if connective then 254 else 255)
    ensures CompileBody(0, Function(g, h, k, connective)).Ok?
    ensures var f := CompileBody(0, Function(g, h, k, connective)).value;
      Steps(Program(f.code, f.consts, w), Running(0, regs, sh), t)
        == Halted(Num(w.arith(Sub, if Overflows(k, connective) then x else y, NestValue(w, x, k, x))), sh)
  {
    hide CompileBody, Step, Nest, NestCode, SlippedCode;
    FunctionCompiled(g, h, k, connective);
    var f := CompileBody(0, Function(g, h, k, connective)).value;
    var p, m := Program(f.code, f.consts, w), Running(0, regs, sh);
    var inner, rc := Inner(k, connective), ValueReg(k, connective);
    FunctionParts(p, k, connective);
    LoadRuns(p, 0, 0, 0, g, x, regs, sh);
    var regs1 := regs[0 := Num(x)];
    LoadRuns(p, 1, 0, 1, h, y, regs1, sh);
    LoadRuns(p, 2, 0, 1, h, y, regs1[0 := Num(y)], sh);
    var regs2 := regs[0 := Num(y)];
    assert regs1[0 := Num(y)] == regs2 && regs2[0 := Num(y)] == regs2;
    var t1: nat, regs3: Regs;
    if connective && k == 254 {
      t1, regs3 := SlippedRuns(p, 3, 1, 0, g, x, regs2, sh);
    } else {
      t1, regs3 := NestRuns(p, 3, 1, k, 0, connective, g, x, regs2, sh);
    }
    var v := if Overflows(k, connective) then x else y;
    assert regs3[0] == Num(v) && regs3[rc] == Num(NestValue(w, x, k, x));
    SubRuns(p, 3 + |inner|, rc - 1, 0, rc, v, NestValue(w, x, k, x), regs3, sh);
    var result := Num(w.arith(Sub, v, NestValue(w, x, k, x)));
    ReturnRuns(p, 4 + |inner|, rc - 1, regs3[rc - 1 := result], sh);
    StepsAdd(p, m, 1, 1);
    StepsAdd(p, m, 2, 1);
    StepsAdd(p, m, 3, t1);
    StepsAdd(p, m, 3 + t1, 1);
    StepsAdd(p, m, 4 + t1, 1);
    t := 5 + t1;
  }

  lemma ReturnRuns(p: Program, pos: nat, a: Reg, regs: Regs, sh: Shared)
    requires CodeAt(p, pos, [Instr(Return, a, 2)])
    ensures Steps(p, Running(pos, regs, sh), 1) == Halted(regs[a], sh)
  {
    CodeFirst(p, pos, [Instr(Return, a, 2)]);
    var m := Running(pos, regs, sh);
    assert Steps(p, m, 1) == Step(p, m);
  }

  lemma FunctionParts(p: Program, k: nat, connective: bool)
    requires p.code == FunctionCode(k, connective)
    ensures CodeAt(p, 0, [GetG(0, 0)]) && CodeAt(p, 1, [GetG(0, 1)])
    ensures CodeAt(p, 2, [GetG(0, 1)]) && CodeAt(p, 3, Inner(k, connective))
    ensures var rc, end := ValueReg(k, connective), 3 + |Inner(k, connective)|;
      CodeAt(p, end, [SubOf(rc - 1, 0, rc)]) && CodeAt(p, end + 1, [Instr(Return, rc - 1, 2)])
  {
    var rc := ValueReg(k, connective);
    EndsApart(p, [GetG(0, 0), GetG(0, 1), GetG(0, 1)], Inner(k, connective),
        [SubOf(rc - 1, 0, rc), Instr(Return, rc - 1, 2)]);
  }

  lemma EndsApart(p: Program, a: seq<Instr>, inner: seq<Instr>, b: seq<Instr>)
    requires |a| == 3 && |b| == 2 && p.code == a + inner + b
    ensures CodeAt(p, 0, [a[0]]) && CodeAt(p, 1, [a[1]]) && CodeAt(p, 2, [a[2]]) && CodeAt(p, 3, inner)
    ensures CodeAt(p, 3 + |inner|, [b[0]]) && CodeAt(p, 4 + |inner|, [b[1]])
  {
    var n := 3 + |inner|;
    assert p.code[0..1] == [a[0]] && p.code[1..2] == [a[1]] && p.code[2..3] == [a[2]];
    assert p.code[3..n] == inner;
    assert p.code[n] == b[0] && p.code[n + 1] == b[1];
    assert p.code[n..n + 1] == [b[0]] && p.code[n + 1..n + 2] == [b[1]];
  }

  lemma LastEval(w: World, g: string, x: Double, connective: bool, locals: seq<Value>, sh: Shared)
    requires g in sh.globals && sh.globals[g] == Num(x)
    ensures Eval(w, Last(g, connective), locals, sh) == Ok(Num(x))
  {
  }

  /** What the function should return. */
  lemma FunctionExec(g: string, h: string, x: Double, y: Double, k: nat, connective: bool, w: World,
                     locals: seq<Value>, sh: Shared, fuel: nat)
    requires g in sh.globals && h in sh.globals && sh.globals[g] == Num(x) && sh.globals[h] == Num(y)
    ensures Exec(w, Function(g, h, k, connective), locals, sh, fuel) ==
        Returned(Num(w.arith(Sub, y, NestValue(w, x, k, x))), sh)
  {
    hide Nest;
    LastEval(w, g, x, connective, locals, sh);
    NestEval(w, g, x, k, Last(g, connective), x, locals, sh);
    assert Eval(w, Global(g), locals, sh) == Ok(Num(x)) && Eval(w, Global(h), locals, sh) == Ok(Num(y));
    var e := Difference(g, h, k, connective);
    assert Eval(w, e, locals, sh) == Ok(Num(w.arith(Sub, y, NestValue(w, x, k, x))));
    assert Exec(w, Do(Global(g)), locals, sh, fuel) == Exec(w, Do(Global(h)), locals, sh, fuel) == Normal(locals, sh);
    assert Exec(w, Seq(Do(Global(h)), ReturnValue(e)), locals, sh, fuel) == Exec(w, ReturnValue(e), locals, sh, fuel);
  }
}
