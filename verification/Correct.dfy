/** What a compiled function does from its first instruction to its last. */
module Correct {
  import opened Bytecode
  import opened Machine
  import opened Source
  import opened CodeGen
  import opened Shape
  import opened ExprShape
  import opened ExprRuns
  import opened StmtShape
  import opened StmtRuns

  function ProgramOf(params: Reg, body: Stmt, w: World): Program
    requires CompileBody(params, body).Ok?
  {
    Program(CompileBody(params, body).value.code, CompileBody(params, body).value.consts, w)
  }

  /** A call: the arguments are in the first registers. */
  function Call(regs: Regs, sh: Shared): Machine { Running(0, regs, sh) }

  // ----- inside the code -----

  ghost predicate Inside(p: Program, m: Machine) { m.Running? ==> 0 <= m.ip < |p.code| }

  lemma StepInside(p: Program, frame: int, m: Machine)
    requires Complete(p.code, frame) && Inside(p, m)
    ensures Inside(p, Step(p, m))
  {
    if m.Running? {
      assert CompleteAt(p.code, m.ip, frame);
      if m.ip + 1 < |p.code| {
        assert CompleteAt(p.code, m.ip + 1, frame);
      }
    }
  }

  /** No run leaves the code of a complete function. */
  lemma {:induction false} StaysInside(p: Program, frame: int, m: Machine, k: nat)
    requires Complete(p.code, frame) && Inside(p, m)
    ensures Inside(p, Steps(p, m, k))
    decreases k
  {
    hide Complete, Step;
    if k > 0 {
      StepInside(p, frame, m);
      StaysInside(p, frame, Step(p, m), k - 1);
    }
  }

  // ----- inside the frame -----

  /** The machines differ in nothing but registers from b on. */
  ghost predicate Agree(m: Machine, m': Machine, b: int) {
    if m.Running? then
      m'.Running? && m'.ip == m.ip && m'.sh == m.sh && forall r | 0 <= r < b && r < 0x100 :: m'.regs[r] == m.regs[r]
    else m' == m
  }

  lemma StepAgrees(p: Program, frame: int, m: Machine, m': Machine)
    requires Complete(p.code, frame) && Inside(p, m) && Agree(m, m', frame)
    ensures Agree(Step(p, m), Step(p, m'), frame)
  {
    if m.Running? {
      assert CompleteAt(p.code, m.ip, frame);
    }
  }

  lemma {:induction false} RunsAgree(p: Program, frame: int, m: Machine, m': Machine, k: nat)
    requires Complete(p.code, frame) && Inside(p, m) && Agree(m, m', frame)
    ensures Agree(Steps(p, m, k), Steps(p, m', k), frame)
    decreases k
  {
    hide Complete, Step, Agree, Inside;
    if k > 0 {
      StepInside(p, frame, m);
      StepAgrees(p, frame, m, m');
      RunsAgree(p, frame, Step(p, m), Step(p, m'), k - 1);
    }
  }

  /** A function never reads or writes a register from maxReg on: every instruction that a call
      comes to stays below, and what was in the other registers makes no difference. So the frame
      that incFrame pushes with stackUsed = maxReg is enough. */
  lemma FrameSuffices(params: Reg, body: Stmt, w: World, regs: Regs, regs': Regs, sh: Shared, k: nat)
    requires BodyOk(params, body, |sh.upvals|) && CompileBody(params, body).Ok?
    requires forall r | 0 <= r < CompileBody(params, body).value.maxReg && r < 0x100 :: regs'[r] == regs[r]
    ensures var frame := CompileBody(params, body).value.maxReg;
      var p, m := ProgramOf(params, body, w), Steps(ProgramOf(params, body, w), Call(regs, sh), k);
      && (m.Running? ==> 0 <= m.ip < |p.code| && Within(p.code[m.ip], frame))
      && Agree(m, Steps(p, Call(regs', sh), k), frame)
  {
    hide CompileBody, Step, Steps;
    var p, f := ProgramOf(params, body, w), CompileBody(params, body).value;
    PatchingIsComplete(params, body, |sh.upvals|);
    CompleteNonempty(f.code, f.maxReg);
    StaysInside(p, f.maxReg, Call(regs, sh), k);
    RunsAgree(p, f.maxReg, Call(regs, sh), Call(regs', sh), k);
    var m := Steps(p, Call(regs, sh), k);
    if m.Running? {
      assert CompleteAt(p.code, m.ip, f.maxReg);
    }
  }

  // ----- whole runs -----

  /** The outcome of a call, as the machine shows it. */
  function Shown(o: Outcome): Machine
    requires o.Normal? || o.Returned? || o.Raised?
  {
    match o
    case Normal(_, sh) => Halted(Nil, sh)
    case Returned(v, sh) => Halted(v, sh)
    case Raised(msg, sh) => Failed(msg, sh)
  }

  lemma SettledFinished(p: Program, st: State)
    requires p.code == st.code && p.consts == st.consts
    ensures Settled(p, st)
  {
  }

  /** The implicit return at the end of a function. */
  lemma FinishRuns(p: Program, st: State, m0: Machine, m: Machine, k: nat, upvals: nat) returns (k': nat)
    requires Sound(st, |st.code|, multiset(st.pending) + multiset{}) && st.actVar == st.nextReg == 0
    requires Finish(st).Ok? && Settled(p, Finish(st).value) && p.code == Finish(st).value.code
    requires Here(st, m, 0) && Steps(p, m0, k) == m && Inside(p, m)
    ensures Steps(p, m0, k') == Halted(Nil, m.sh)
  {
    hide EmitReturn, Sound, Described, Settled;
    if st.code == [] || st.pending != [] || st.code[|st.code| - 1].op != Return {
      NothingShape(st, |m.sh.upvals|);
      FinalConsts(p, Finish(st).value, 0, |Finish(st).value.code|, NO_REG, -1, multiset{}, multiset{}) by {
        SettledFor(p, Finish(st).value, NO_REG, -1, multiset{});
      }
      FinishConsts(p, st, |m.sh.upvals|);
      RunsRefl(p, m, 0, -1);
      var m' := ReturnRuns(p, st, Nothing(), Ok(Nil), multiset{}, m, m, [], 0);
      var i: nat :| Steps(p, m, i) == m';
      StepsAdd(p, m0, k, i);
      k' := k + i;
    } else {
      k' := k;
    }
  }

  lemma FinishConsts(p: Program, st: State, upvals: nat)
    requires Sound(st, |st.code|, multiset(st.pending) + multiset{}) && st.actVar == st.nextReg == 0
    requires Finish(st).Ok? && Settled(p, Finish(st).value)
    ensures st.consts <= p.consts
  {
    hide Finish, Sound;
    FinishShape(st, upvals);
  }

  /** The code of every function body does what the body says: it returns the same value, fails
      with the same error, and leaves the same globals and upvalues; or it runs on for as long
      as the loops of the body do. */
  lemma BodyRuns(params: Reg, body: Stmt, w: World, regs: Regs, sh: Shared, fuel: nat) returns (k: nat)
    requires BodyOk(params, body, |sh.upvals|) && CompileBody(params, body).Ok?
    ensures var m := Steps(ProgramOf(params, body, w), Call(regs, sh), k);
      match Exec(w, body, regs[..params], sh, fuel)
      case Broke(_, _) => false
      case Continued(_, _) => false
      case OutOfFuel => m.Running? && fuel <= k
      case o => m == Shown(o)
  {
    hide CompileStmt, CompileBody, Finish, StmtReady, Sound, Extends, Settled, Simulates, Exec;
    var upvals := |sh.upvals|;
    var st0, ls0 := InitialState(params), Loops([], [], false);
    BodySteps(params, body);
    BodyEnd(params, body, upvals);
    var (st1, ls1) := CompileStmt(st0, ls0, body).value;
    var st2 := EndStatement(st1.(actVar := 0));
    var f := Finish(st2).value;
    var p := ProgramOf(params, body, w);
    FinishShape(st2, upvals);
    SettledFinished(p, f);
    SettledBack(p, st2, f);
    SettledBack(p, st1, st2);
    var m;
    m, k := CompiledRuns(p, st0, ls0, body, multiset{}, Call(regs, sh), regs[..params], fuel);
    var o := Exec(w, body, regs[..params], sh, fuel);
    SimulatesParts(p, st1, ls1, o, Call(regs, sh), m, k, fuel);
    if o.Normal? {
      PatchingIsComplete(params, body, upvals);
      CompleteNonempty(f.code, f.maxReg);
      StaysInside(p, f.maxReg, Call(regs, sh), k);
      k := FinishRuns(p, st2, Call(regs, sh), m, k, upvals);
    }
  }

  lemma CompleteNonempty(code: seq<Instr>, frame: int)
    requires Complete(code, frame)
    ensures |code| > 0
  {
  }

  lemma SimulatesParts(p: Program, st: State, ls: Loops, o: Outcome, m0: Machine, m: Machine, k: nat, fuel: nat)
    requires Simulates(p, st, ls, o, m0, m, k, fuel)
    ensures Steps(p, m0, k) == m && Lands(st, ls, o, m) && (o.OutOfFuel? ==> fuel <= k)
  {
  }

  /** A machine that has stopped does not go on. */
  lemma Absorbs(p: Program, m0: Machine, i: nat, k: nat)
    requires !Steps(p, m0, i).Running? && i <= k
    ensures Steps(p, m0, k) == Steps(p, m0, i)
  {
    StepsAdd(p, m0, i, k - i);
    StepsDone(p, Steps(p, m0, i), k - i);
  }

  lemma GoesOnOrStops(params: Reg, body: Stmt, w: World, regs: Regs, sh: Shared, fuel: nat) returns (k: nat)
    requires BodyOk(params, body, |sh.upvals|) && CompileBody(params, body).Ok?
    ensures var m := Steps(ProgramOf(params, body, w), Call(regs, sh), k); m != Stuck && (m.Running? ==> fuel <= k)
  {
    hide CompileBody, Exec, Step, Steps, BodyOk;
    k := BodyRuns(params, body, w, regs, sh, fuel);
  }

  /** No reachable state of a compiled function is stuck: no instruction reads a constant or an
      upvalue that is not there, no test is without its jump, and no jump leaves the code. */
  lemma NeverStuck(params: Reg, body: Stmt, w: World, regs: Regs, sh: Shared, k: nat)
    requires BodyOk(params, body, |sh.upvals|) && CompileBody(params, body).Ok?
    ensures Steps(ProgramOf(params, body, w), Call(regs, sh), k) != Stuck
  {
    hide CompileBody, Step;
    var p, m0 := ProgramOf(params, body, w), Call(regs, sh);
    var i := GoesOnOrStops(params, body, w, regs, sh, k);
    if !Steps(p, m0, k).Running? {
      if i <= k {
        if !Steps(p, m0, i).Running? {
          Absorbs(p, m0, i, k);
        }
      } else {
        Absorbs(p, m0, k, i);
      }
    }
  }

  /** A call stops exactly when some fuel is enough for the body, and then as the body does. */
  lemma StopsAsBody(params: Reg, body: Stmt, w: World, regs: Regs, sh: Shared, m: Machine)
    requires BodyOk(params, body, |sh.upvals|) && CompileBody(params, body).Ok? && !m.Running?
    ensures Reaches(ProgramOf(params, body, w), Call(regs, sh), m) <==>
            exists fuel: nat ::
              var o := Exec(w, body, regs[..params], sh, fuel);
              (o.Normal? || o.Returned? || o.Raised?) && Shown(o) == m
  {
    hide CompileBody, Exec;
    var p, m0 := ProgramOf(params, body, w), Call(regs, sh);
    if k: nat :| Steps(p, m0, k) == m {
      var i := BodyRuns(params, body, w, regs, sh, k + 1);
      if i <= k && !Steps(p, m0, i).Running? {
        Absorbs(p, m0, i, k);
      }
      if k <= i {
        Absorbs(p, m0, k, i);
      }
      var o := Exec(w, body, regs[..params], sh, k + 1);
      assert (o.Normal? || o.Returned? || o.Raised?) && Shown(o) == m;
    }
    if fuel: nat :| var o := Exec(w, body, regs[..params], sh, fuel);
                    (o.Normal? || o.Returned? || o.Raised?) && Shown(o) == m {
      var i := BodyRuns(params, body, w, regs, sh, fuel);
      assert Steps(p, m0, i) == m;
    }
  }
}
