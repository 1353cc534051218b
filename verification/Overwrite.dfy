/** Where compilation is wrong: `x = y and x` tests y with an instruction that copies it to x
    even when it does not jump (src/vm.c), and only then reads x. */
module Overwrite {
  import opened Bytecode
  import opened Machine
  import opened Source
  import opened CodeGen

  function Assigned(x: Reg, y: Reg): Expr { And(Local(y), Local(x)) }

  function TestAndJump(x: Reg, y: Reg, a: Reg): seq<Instr> {
    [Instr(CopyJumpIf(false), x, y), Instr(Jump, a, JUMP_BIAS)]
  }

  lemma Tested(st: State, y: Reg)
    requires st.code == [] && st.pending == []
    ensures BranchOn(st, Desc(LocalK(y), [], []), true)
        == Ok((ExprFree(st.(code := [Instr(CopyJumpIf(false), NO_REG, y), Instr(Jump, st.nextReg, UNPATCHED)]),
            Desc(NonRelocK(y), [], [])), [1]))
  {
    var d := Desc(NonRelocK(y), [], []);
    assert Discharge(st, Desc(LocalK(y), [], [])) == Ok((st, d));
    var st2 := st.(code := [Instr(CopyJumpIf(false), NO_REG, y)]);
    assert [] + [Instr(CopyJumpIf(false), NO_REG, y)] == st2.code;
    assert Emit(st, Instr(CopyJumpIf(false), NO_REG, y)) == Ok(st2);
    var st3 := st2.(code := [Instr(CopyJumpIf(false), NO_REG, y), Instr(Jump, st.nextReg, UNPATCHED)]);
    assert st2.code + [Instr(Jump, st.nextReg, UNPATCHED)] == st3.code && [1] + [] == [1];
    assert EmitJump(st2) == Ok((st3, [1]));
    assert Branch(st, d, false) == Ok((ExprFree(st3, d), [1]));
    var none: seq<nat> := [];
    assert none + [1] == [1] && none + none == none;
    assert ToHere(ExprFree(st3, d), []) == Ok(ExprFree(st3, d));
  }

  /** What the assignment compiles to: no instruction reads x. */
  lemma AssignmentCode(params: Reg, x: Reg, y: Reg)
    requires x < params && y < params <= 254 && x != y
    ensures var r := StoreLocal(InitialState(params), x, Assigned(x, y));
      r.Ok? && r.value.code == TestAndJump(x, y, params)
  {
    var st := InitialState(params);
    Tested(st, y);
    var code := [Instr(CopyJumpIf(false), NO_REG, y), Instr(Jump, params, UNPATCHED)];
    var st1 := st.(code := code);
    assert ExprFree(st1, Desc(NonRelocK(y), [], [])) == st1;
    var d := Desc(LocalK(x), [], []);
    assert Compile(st1, Local(x)) == Ok((st1, d));
    assert [] + [1] == [1];
    var d1 := Desc(NonRelocK(x), [], [1]);
    assert Compile(st, Local(y)) == Ok((st, Desc(LocalK(y), [], [])));
    assert Compile(st, Assigned(x, y)) == Ok((st1, d1));
    assert !NoValue(code, [1]) by {
      assert [1][1..] == [];
    }
    Patched(code, params, x, y);
    assert Resolve(st1, d1, x) == Ok(st1.(code := TestAndJump(x, y, params)));
  }

  lemma Patched(code: seq<Instr>, a: Reg, x: Reg, y: Reg)
    requires code == [Instr(CopyJumpIf(false), NO_REG, y), Instr(Jump, a, UNPATCHED)] && x != y && x != NO_REG
    ensures PatchBoth(code, Desc(NonRelocK(x), [], [1]), 2, x, 2, 2) == Ok(TestAndJump(x, y, a))
  {
    assert PatchTest(code, 1, x) == (code[0 := Instr(CopyJumpIf(false), x, y)], true);
    assert [1][1..] == [];
    var c := code[0 := Instr(CopyJumpIf(false), x, y)];
    assert c[1 := JumpTo(c[1], 1, 2)] == TestAndJump(x, y, a);
    assert PatchOne(code, 1, 2, x, 2) == Ok(TestAndJump(x, y, a));
  }

  /** Safe shuts the assignment out. The machine leaves y in x, and so the assignment is right
      exactly when y is falsey or already equal to x. */
  lemma AssignmentRuns(params: Reg, x: Reg, y: Reg, w: World, regs: Regs, sh: Shared) returns (k: nat)
    requires x < params && y < params <= 254 && x != y
    ensures !Safe(Assigned(x, y), x) && StoreLocal(InitialState(params), x, Assigned(x, y)).Ok?
    ensures var st := StoreLocal(InitialState(params), x, Assigned(x, y)).value;
      Steps(Program(st.code, st.consts, w), Running(0, regs, sh), k) == Running(|st.code|, regs[x := regs[y]], sh)
    ensures Eval(w, Assigned(x, y), regs[..params], sh) == Ok(regs[y]) <==> Falsey(w, regs[y]) || regs[x] == regs[y]
  {
    hide StoreLocal;
    assert x in Reads(Local(x));
    AssignmentCode(params, x, y);
    var r := StoreLocal(InitialState(params), x, Assigned(x, y)).value;
    var p, m0 := Program(r.code, r.consts, w), Running(0, regs, sh);
    var m1 := Step(p, m0);
    k := if Falsey(w, regs[y]) then 2 else 1;
    assert Steps(p, m0, 1) == m1;
    assert Steps(p, m0, 2) == Step(p, m1);
  }
}
