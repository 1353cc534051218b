/** Where compilation is wrong: a unary operator keeps the position of its instruction in 16 bits
    (exprInit in src/parse.c), so that past 65536 instructions its result register is written
    into another instruction. */
module FarNot {
  import opened Bytecode
  import opened Machine
  import opened Source
  import opened CodeGen

  /** n statements `nil;`. */
  function Nils(n: nat): Stmt {
    if n == 0 then Skip else Seq(Nils(n - 1), Do(Prim(0)))
  }

  /** They, and then `return !x;`, in a function of x. */
  function NilsThenNot(n: nat): Stmt { Seq(Nils(n), ReturnValue(Bang(Local(0)))) }

  const NO_LOOPS := Loops([], [], false)

  function LoadNil(): Instr { Instr(Primitive, 1, 0) }

  function Loaded(n: nat): State {
    State(seq(n, _ => LoadNil()), [], 1, 1, if n == 0 then 1 else 2, [])
  }

  lemma EmitOne(st: State, i: Instr)
    requires st.pending == []
    ensures Emit(st, i) == Ok(st.(code := st.code + [i]))
  {
  }

  lemma NilCode(n: nat)
    ensures CompileStmt(Loaded(n), NO_LOOPS, Do(Prim(0))) == Ok((Loaded(n + 1), NO_LOOPS))
  {
    var st, d := Loaded(n), Desc(PrimK(0), [], []);
    var st1 := RegReserve(st);
    EmitOne(st1, LoadNil());
    assert st.code + [LoadNil()] == Loaded(n + 1).code;
    var st2 := st1.(code := Loaded(n + 1).code);
    assert Compile(st, Prim(0)) == Ok((st, d));
    assert ToRegNoBranch(st1, d, 1) == Ok((st2, Desc(NonRelocK(1), [], [])));
    assert ToReg(st1, d, 1) == Ok((st2, Desc(NonRelocK(1), [], [])));
    assert NextReg(st, d) == Ok((st2, Desc(NonRelocK(1), [], [])));
    assert Evaluate(st, Prim(0)) == Ok(st2);
    assert EndStatement(st2) == Loaded(n + 1);
  }

  lemma {:induction false} NilsCode(n: nat)
    ensures CompileStmt(InitialState(1), NO_LOOPS, Nils(n)) == Ok((Loaded(n), NO_LOOPS))
    decreases n
  {
    if n == 0 {
      assert Loaded(0) == InitialState(1);
    } else {
      NilsCode(n - 1);
      NilCode(n - 1);
    }
  }

  /** What the function compiles to: the operator writes register 0, and register 1 is returned. */
  lemma FarNotCode(n: nat)
    requires n == 0x1_0000
    ensures CompileBody(1, NilsThenNot(n)).Ok?
    ensures CompileBody(1, NilsThenNot(n)).value.code ==
        seq(n, _ => LoadNil()) + [Instr(Not, 0, 0), Instr(Return, 1, 2)]
  {
    hide CompileStmt, Nils;
    NilsCode(n);
    var st, d := Loaded(n), Desc(NonRelocK(0), [], []);
    ReturnCode(n);
    NilsThenReturn(n);
  }

  lemma ReturnCode(n: nat)
    requires n == 0x1_0000
    ensures ReturnWith(Loaded(n), Bang(Local(0)))
        == Ok(Loaded(n).(code := Loaded(n).code + [Instr(Not, 0, 0), Instr(Return, 1, 2)], nextReg := 2))
  {
    var st := Loaded(n);
    var i, j := Instr(Not, 0, 0), Instr(Return, 1, 2);
    EmitOne(st, i);
    var st1 := st.(code := st.code + [i]);
    var d0, d1 := Desc(NonRelocK(0), [], []), Desc(RelocK(0), [], []);
    assert Compile(st, Local(0)) == Ok((st, Desc(LocalK(0), [], [])));
    assert AnyReg(st, Desc(LocalK(0), [], [])) == Ok((st, d0));
    assert EmitUnary(st, Not, Desc(LocalK(0), [], [])) == Ok((st1, d1));
    assert Compile(st, Bang(Local(0))) == Ok((st1, d1));
    var st2 := RegReserve(st1);
    assert st1.code[0] == LoadNil() && Put(st1.code, 0, LoadNil()) == st1.code;
    assert ToReg(st2, d1, 1) == Ok((st2, Desc(NonRelocK(1), [], [])));
    assert AnyReg(st1, d1) == Ok((st2, Desc(NonRelocK(1), [], [])));
    EmitOne(st2, j);
    assert st1.code + [j] == st.code + [i, j];
  }

  lemma NilsThenReturn(n: nat)
    requires n == 0x1_0000 && CompileStmt(InitialState(1), NO_LOOPS, Nils(n)) == Ok((Loaded(n), NO_LOOPS))
    requires ReturnWith(Loaded(n), Bang(Local(0))).Ok?
    requires var c := ReturnWith(Loaded(n), Bang(Local(0))).value;
      c.pending == [] && c.code != [] && c.code[|c.code| - 1].op == Return
    ensures CompileBody(1, NilsThenNot(n)).Ok?
    ensures CompileBody(1, NilsThenNot(n)).value.code == ReturnWith(Loaded(n), Bang(Local(0))).value.code
  {
    hide ReturnWith, Nils, Loaded;
  }

  lemma {:induction false} NilsRun(p: Program, n: nat, k: nat, regs: Regs, sh: Shared)
    requires n <= |p.code| && k <= n && forall i | 0 <= i < n :: p.code[i] == LoadNil()
    ensures Steps(p, Running(0, regs, sh), k) == Running(k, if k == 0 then regs else regs[1 := Nil], sh)
    decreases k
  {
    if k > 0 {
      NilsRun(p, n, k - 1, regs, sh);
      StepsAdd(p, Running(0, regs, sh), k - 1, 1);
      var m := Steps(p, Running(0, regs, sh), k - 1);
      assert Steps(p, m, 1) == Step(p, m);
      assert m.regs[1 := Nil] == regs[1 := Nil];
    }
  }

  lemma {:induction false} NilsExec(w: World, n: nat, locals: seq<Value>, sh: Shared, fuel: nat)
    ensures Exec(w, Nils(n), locals, sh, fuel) == Normal(locals, sh)
    decreases n
  {
    if n > 0 {
      NilsExec(w, n - 1, locals, sh, fuel);
    }
  }

  lemma FarNotExec(w: World, n: nat, regs: Regs, sh: Shared, fuel: nat)
    ensures Exec(w, NilsThenNot(n), regs[..1], sh, fuel) == Returned(Bool(Falsey(w, regs[0])), sh)
  {
    NilsExec(w, n, regs[..1], sh, fuel);
    assert Eval(w, Local(0), regs[..1], sh) == Ok(regs[0]);
    assert Eval(w, Bang(Local(0)), regs[..1], sh) == Ok(Bool(Falsey(w, regs[0])));
  }

  /** The function returns nil, whatever x is, where its body returns a boolean. */
  lemma FarNotFails(n: nat, w: World, regs: Regs, sh: Shared, fuel: nat)
    requires n == 0x1_0000
    ensures CompileBody(1, NilsThenNot(n)).Ok?
    ensures var f := CompileBody(1, NilsThenNot(n)).value;
      Steps(Program(f.code, f.consts, w), Running(0, regs, sh), n + 2) == Halted(Nil, sh)
    ensures Exec(w, NilsThenNot(n), regs[..1], sh, fuel) == Returned(Bool(Falsey(w, regs[0])), sh)
  {
    hide CompileBody, Nils;
    FarNotCode(n);
    FarNotExec(w, n, regs, sh, fuel);
    var f := CompileBody(1, NilsThenNot(n)).value;
    var p, m0 := Program(f.code, f.consts, w), Running(0, regs, sh);
    NilsRun(p, n, n, regs, sh);
    var m := Steps(p, m0, n);
    StepsAdd(p, m0, n, 2);
    assert p.code[n] == Instr(Not, 0, 0) && p.code[n + 1] == Instr(Return, 1, 2);
    assert Steps(p, m, 2) == Step(p, Step(p, m));
  }
}
