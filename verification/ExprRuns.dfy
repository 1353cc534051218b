/** Compiled expressions compute what Eval says.

    The code that finally runs (p) is any later form of the code emitted so far: jumps still
    open may lead anywhere, and tests without destination may copy to a register from n on.
    Facts proved about all such p stay true while the compiler goes on patching. */
module ExprRuns {
  import opened Bytecode
  import opened Machine
  import opened Source
  import opened CodeGen
  import opened Positions
  import opened Shape
  import opened ExprShape

  // ----- agreement of two machines -----

  ghost predicate SameBelow(a: Regs, b: Regs, n: int, x: int) {
    forall i {:trigger b[i]} | 0 <= i < n && i < 0x100 && i != x :: a[i] == b[i]
  }

  /** m is reached from m0, with the registers below n unchanged but for x. */
  ghost predicate Runs(p: Program, m0: Machine, m: Machine, n: int, x: int) {
    && m0.Running? && Reaches(p, m0, m)
    && (m.Running? ==> m.sh == m0.sh && SameBelow(m0.regs, m.regs, n, x))
  }

  lemma RunsRefl(p: Program, m: Machine, n: int, x: int)
    requires m.Running?
    ensures Runs(p, m, m, n, x)
  {
    ReachesStep(p, m);
  }

  lemma RunsTrans(p: Program, m0: Machine, m1: Machine, m2: Machine, n: int, x: int)
    requires Runs(p, m0, m1, n, x) && (m1.Running? ==> Runs(p, m1, m2, n, x)) && (!m1.Running? ==> m2 == m1)
    ensures Runs(p, m0, m2, n, x)
  {
    if m1.Running? {
      ReachesTrans(p, m0, m1, m2);
    }
  }

  lemma RunsMono(p: Program, m0: Machine, m: Machine, n: int, x: int, n': int, x': int)
    requires Runs(p, m0, m, n, x) && n' <= n && (x == -1 || x == x')
    ensures Runs(p, m0, m, n', x')
  {
  }

  lemma RunsStep(p: Program, m: Machine, n: int, x: int)
    requires m.Running?
    requires var m' := Step(p, m); m'.Running? ==> m'.sh == m.sh && SameBelow(m.regs, m'.regs, n, x)
    ensures Runs(p, m, Step(p, m), n, x)
  {
    ReachesStep(p, m);
  }

  // ----- where a run stands -----

  /** At the end of the code, or at a pending jump that leads there. */
  ghost predicate Here(st: State, m: Machine, lo: int) {
    m.Running? && lo <= m.ip && (m.ip == |st.code| || m.ip in st.pending)
  }

  /** The value of a description whose code has been run. */
  ghost function KindValue(p: Program, st: State, k: Kind, m: Machine): Result<Value>
    requires m.Running? && KindOk(st, k, |m.sh.upvals|) && st.consts <= p.consts
  {
    match k
    case PrimK(b) => Ok(PrimitiveValue(b))
    case TextK(s) => Ok(Str(s))
    case NumK(n) => Ok(Num(n))
    case RelocK(pos) => Compute(p.w, st.code[pos], p.consts, m.regs, m.sh)
    case NonRelocK(r) => Ok(m.regs[r])
    case LocalK(r) => Ok(m.regs[r])
    case GlobalK(c) => GlobalValue(m.sh, p.consts[c].s)
    case UpvalK(u) => Ok(m.sh.upvals[u])
  }

  /** A jump of the lists leaves the value in the tested register, and where its test copies
      to; without such a test the value is the truth itself. */
  ghost predicate LeftBy(p: Program, code: seq<Instr>, m: Machine, v: Value) {
    && m.Running? && 1 <= m.ip <= |code| && m.ip <= |p.code|
    && var t := code[m.ip - 1];
       var f := p.code[m.ip - 1];
      if IsCopy(t) then
        t.d < 0x100 && m.regs[t.d] == v && (IsCopy(f) ==> m.regs[f.a] == v)
      else v == Bool(!Falsey(p.w, v))
  }

  /** The run has come to the value v of d: at its end, at a jump of its lists, or at an error. */
  ghost predicate Arrived(p: Program, st: State, d: Desc, v: Result<Value>, m: Machine, lo: int, sh: Shared) {
    if m.Running? then
      && m.sh == sh && KindOk(st, d.kind, |sh.upvals|) && st.consts <= p.consts
      && (AtEnd(p, st, d, v, m, lo) || (v.Ok? && AtJump(p, st, d, v.value, m, lo)))
    else v.Err? && m == Failed(v.msg, sh)
  }

  ghost predicate AtEnd(p: Program, st: State, d: Desc, v: Result<Value>, m: Machine, lo: int)
    requires m.Running? && KindOk(st, d.kind, |m.sh.upvals|) && st.consts <= p.consts
  {
    && (if d.kind.RelocK? then m.ip == d.kind.pos && lo <= m.ip else Here(st, m, lo))
    && KindValue(p, st, d.kind, m) == v
  }

  ghost predicate AtJump(p: Program, st: State, d: Desc, v: Value, m: Machine, lo: int)
    requires m.Running?
  {
    && lo < m.ip && m.ip in (if Falsey(p.w, v) then d.fj else d.tj)
    && LeftBy(p, st.code, m, v)
  }

  /** Words of the jumps in out are not ours to speak about. */
  ghost predicate Excluded(code: seq<Instr>, i: int, out: multiset<nat>)
    requires 0 <= i < |code|
  {
    || (code[i].op == Jump && code[i].d == UNPATCHED && i in out)
    || (IsCopy(code[i]) && code[i].a == NO_REG && i + 1 in out)
  }

  /** p is what the code of st becomes, from lo up to hi. */
  ghost predicate Final(p: Program, st: State, lo: int, hi: int, n: int, x: int, own: multiset<nat>,
                        out: multiset<nat>) {
    && 0 <= lo && hi <= |st.code| && hi <= |p.code| && st.consts <= p.consts
    && forall i {:trigger LaterAt(st.code, p.code, i, n, x, own)} | lo <= i < hi && !Excluded(st.code, i, out) ::
         LaterAt(st.code, p.code, i, n, x, own)
  }

  /** What the code finally becomes is also what it becomes from an earlier state. */
  lemma FinalBack(p: Program, st: State, hi: int, st': State, hi': int, lo: int, n: int, n': int, x: int,
                  own: multiset<nat>, own': multiset<nat>, out: multiset<nat>)
    requires Grows(st, hi, st', n') && Final(p, st', lo, hi', n, x, own', out) && hi <= hi' && n <= n'
    requires forall j: nat | lo < j <= hi && j in own' :: j in own || j in out
    ensures Final(p, st, lo, hi, n, x, own, out)
  {
    forall i | lo <= i < hi && !Excluded(st.code, i, out) ensures LaterAt(st.code, p.code, i, n, x, own) {
      assert LaterAt(st.code, st'.code, i, n', -1, multiset{});
      assert !Excluded(st'.code, i, out);
      assert LaterAt(st'.code, p.code, i, n, x, own');
    }
  }

  /** Speaking about fewer words. */
  lemma FinalOuter(p: Program, st: State, lo: int, hi: int, n: int, x: int, own: multiset<nat>, out: multiset<nat>,
                   out': multiset<nat>)
    requires Final(p, st, lo, hi, n, x, own, out) && forall j | j in out :: j in out'
    ensures Final(p, st, lo, hi, n, x, own, out')
  {
    forall i | lo <= i < hi && !Excluded(st.code, i, out') ensures LaterAt(st.code, p.code, i, n, x, own) {
      assert !Excluded(st.code, i, out);
    }
  }

  /** When every jump but those in out is resolved, the other words do not change at all. */
  lemma FinalTight(p: Program, st: State, lo: int, hi: int, n: int, x: int, own: multiset<nat>, out: multiset<nat>,
                   n': int)
    requires Final(p, st, lo, hi, n, x, own, out) && Tidy(st.code, out) && hi < |st.code|
    ensures FinalNew(p, st, lo, hi, n', out)
  {
    forall i | lo <= i < hi && !Excluded(st.code, i, out) ensures LaterAt(st.code, p.code, i, n', -1, multiset{}) {
      assert LaterAt(st.code, p.code, i, n, x, own);
      assert WfAt(st.code, i);
      assert out[i] == if Open(st.code, i) then 1 else 0;
      assert out[i + 1] == if Open(st.code, i + 1) then 1 else 0;
    }
  }

  /** A resolved word is final. */
  lemma FinalWord(p: Program, st: State, lo: int, hi: int, n: int, x: int, own: multiset<nat>, out: multiset<nat>,
                  i: int)
    requires Final(p, st, lo, hi, n, x, own, out) && lo <= i < hi
    requires !(st.code[i].op == Jump && st.code[i].d == UNPATCHED) && !(IsCopy(st.code[i]) && st.code[i].a == NO_REG)
    ensures i < |p.code| && p.code[i] == st.code[i]
  {
    assert LaterAt(st.code, p.code, i, n, x, own);
  }

  // ----- emitting -----

  /** Emitting resolves the pending jumps to the new instruction. */
  lemma EmitTargets(st: State, i: Instr, outer: multiset<nat>, j: nat)
    requires Tidy(st.code, multiset(st.pending) + outer) && Emit(st, i).Ok? && j in st.pending
    ensures var c := Emit(st, i).value.code;
      j < |st.code| && c[j].op == Jump && c[j].d != UNPATCHED && Target(c, j) == |st.code|
  {
    var len := |st.code|;
    PendingOpen(st, outer);
    assert Open(st.code, j);
    PatchListAt(st.code, st.pending, len, NO_REG, len, j);
  }

  /** From wherever the run stands, it goes on at the new instruction. */
  lemma EmitRuns(p: Program, st: State, i: Instr, outer: multiset<nat>, m: Machine, lo: int,
                 st': State, n: int, x: int, own: multiset<nat>, out: multiset<nat>) returns (m': Machine)
    requires Tidy(st.code, multiset(st.pending) + outer) && Emit(st, i) == Ok(st') && Here(st, m, lo)
    requires Final(p, st', lo, |st.code|, n, x, own, out)
    ensures m' == m.(ip := |st.code|) && lo <= |st.code| && Runs(p, m, m', 0x100, -1)
  {
    m' := m.(ip := |st.code|);
    if m.ip == |st.code| {
      RunsRefl(p, m, 0x100, -1);
    } else {
      EmitTargets(st, i, outer, m.ip);
      FinalWord(p, st', lo, |st.code|, n, x, own, out, m.ip);
      RunsStep(p, m, 0x100, -1);
    }
  }

  // ----- jumps that stay open -----

  lemma ListOpen(code: seq<Instr>, lists: multiset<nat>, list: seq<nat>, j: nat)
    requires Tidy(code, lists) && multiset(list) <= lists && j in list
    ensures Open(code, j) && 1 <= j < |code|
  {
    assert multiset(list)[j] >= 1;
    assert lists[j] >= 1;
    assert WfAt(code, 0);
  }

  /** A run that stands at a jump still stands there while the jump is open. */
  lemma JumpKept(p: Program, st: State, d: Desc, st': State, d': Desc, v: Value, m: Machine, lo: int,
                 hi: int, n: int, lists: multiset<nat>, lists': multiset<nat>)
    requires m.Running? && AtJump(p, st, d, v, m, lo) && Grows(st, hi, st', n)
    requires Tidy(st.code, lists) && multiset(d.tj) <= lists && multiset(d.fj) <= lists
    requires Tidy(st'.code, lists') && multiset(d'.tj) <= lists' && multiset(d'.fj) <= lists'
    requires m.ip in (if Falsey(p.w, v) then d'.fj else d'.tj)
    ensures AtJump(p, st', d', v, m, lo)
  {
    ListOpen(st.code, lists, if Falsey(p.w, v) then d.fj else d.tj, m.ip);
    ListOpen(st'.code, lists', if Falsey(p.w, v) then d'.fj else d'.tj, m.ip);
    assert KeptAt(st.code, st'.code, m.ip);
  }

  lemma JumpStays(p: Program, st: State, d: Desc, st': State, d': Desc, v: Value, m: Machine, lo: int,
                  hi: int, n: int, outer: multiset<nat>, upvals: nat)
    requires m.Running? && AtJump(p, st, d, v, m, lo) && Grows(st, hi, st', n)
    requires Described(st, d, outer, upvals) && Described(st', d', outer, upvals) && d.tj == d'.tj && d.fj == d'.fj
    ensures AtJump(p, st', d', v, m, lo)
  {
    JumpKept(p, st, d, st', d', v, m, lo, hi, n, Lists(st, d) + outer, Lists(st', d') + outer);
  }

  // ----- discharging and placing -----

  lemma DischargeRuns(p: Program, st: State, d: Desc, st': State, d': Desc, v: Result<Value>, m: Machine, lo: int,
                      sh: Shared, outer: multiset<nat>, n: int, x: int, own: multiset<nat>, out: multiset<nat>)
      returns (m': Machine)
    requires Described(st, d, outer, |sh.upvals|) && Discharge(st, d) == Ok((st', d'))
    requires Arrived(p, st, d, v, m, lo, sh) && Final(p, st', lo, Stop(st', d'), n, x, own, out)
    ensures Arrived(p, st', d', v, m', lo, sh)
    ensures if m.Running? then Runs(p, m, m', 0x100, -1) else m' == m
  {
    hide Emit, Tidy, InRange, Bounded, Later, Kept, Final, Described, KindOk, Falsey, Grows, LeftBy, Runs, AtJump;
    hide Lists;
    m' := m;
    if m.Running? {
      RunsRefl(p, m, 0x100, -1);
      DischargeShape(st, d, outer, |sh.upvals|);
      if v.Ok? && AtJump(p, st, d, v.value, m, lo) {
        JumpStays(p, st, d, st', d', v.value, m, lo, Stop(st, d), NO_REG, outer, |sh.upvals|);
      } else if d.kind.UpvalK? || d.kind.GlobalK? {
        m' := LoadRuns(p, st, d, st', d', v, m, lo, sh, outer, n, x, own, out);
      }
    }
  }

  /** A global or an upvalue is about to be loaded. */
  lemma LoadRuns(p: Program, st: State, d: Desc, st': State, d': Desc, v: Result<Value>, m: Machine, lo: int,
                 sh: Shared, outer: multiset<nat>, n: int, x: int, own: multiset<nat>, out: multiset<nat>)
      returns (m': Machine)
    requires Described(st, d, outer, |sh.upvals|) && (d.kind.UpvalK? || d.kind.GlobalK?)
    requires Discharge(st, d) == Ok((st', d')) && m.Running? && m.sh == sh && st.consts <= p.consts
    requires AtEnd(p, st, d, v, m, lo) && Final(p, st', lo, |st.code|, n, x, own, out)
    ensures Arrived(p, st', d', v, m', lo, sh) && Runs(p, m, m', 0x100, -1)
  {
    var i := if d.kind.UpvalK? then Instr(GetUpval, 0, d.kind.k) else Instr(GetGlobal, 0, d.kind.k);
    assert Lists(st, d) + outer == multiset(st.pending) + (multiset(d.tj) + multiset(d.fj) + outer);
    EmitReloc(st, d, i, outer, |sh.upvals|);
    m' := EmitRuns(p, st, i, multiset(d.tj) + multiset(d.fj) + outer, m, lo, st', n, x, own, out);
  }

  /** A value instruction at m.ip that is not going to change any more. */
  lemma ValueStep(p: Program, m: Machine, i: Instr, v: Result<Value>, n: int, x: int)
    requires m.Running? && 0 <= m.ip < |p.code| && p.code[m.ip] == i && IsValueOp(i.op)
    requires Fetchable(i, p.consts, |m.sh.upvals|) && Compute(p.w, i, p.consts, m.regs, m.sh) == v
    requires i.a >= n || i.a == x
    ensures Runs(p, m, Step(p, m), n, x)
    ensures Step(p, m) == if v.Ok? then m.(ip := m.ip + 1, regs := m.regs[i.a := v.value]) else Failed(v.msg, m.sh)
  {
    RunsStep(p, m, n, x);
  }

  /** The value of d is loaded into i.a by the instruction i, emitted here. */
  lemma EmitLoadRuns(p: Program, st: State, d: Desc, i: Instr, st1: State, v: Result<Value>, m: Machine, lo: int,
                     sh: Shared, outer: multiset<nat>, n: int, x: int, own: multiset<nat>, out: multiset<nat>)
      returns (m': Machine)
    requires Described(st, d, outer, |sh.upvals|) && !d.kind.RelocK? && m.Running? && m.sh == sh && n <= 0x100
    requires st1 == st.(consts := st1.consts) && st.consts <= st1.consts && Emit(st1, i).Ok?
    requires IsValueOp(i.op) && i.a < NO_REG && Within(i, st.maxReg) && Fetchable(i, st1.consts, |sh.upvals|)
    requires Final(p, Emit(st1, i).value, lo, |st.code| + 1, n, x, own, out) && (i.a >= n || i.a == x)
    requires AtEnd(p, st, d, v, m, lo)
    requires Compute(p.w, i, p.consts, m.regs, m.sh) == KindValue(p, st, d.kind, m)
    ensures Arrived(p, Emit(st1, i).value, d.(kind := NonRelocK(i.a)), v, m', lo, sh) && Runs(p, m, m', n, x)
  {
    hide Tidy, InRange, Bounded;
    var st' := Emit(st1, i).value;
    var own' := multiset(d.tj) + multiset(d.fj) + outer;
    assert Lists(st, d) + outer == multiset(st.pending) + own';
    EmitLoad(st, d, i, st1, outer, |sh.upvals|);
    EmitSound(st1, i, own');
    FinalShort(p, st', lo, |st.code| + 1, |st.code|, n, x, own, out);
    var m1 := EmitRuns(p, st1, i, own', m, lo, st', n, x, own, out);
    FinalWord(p, st', lo, |st.code| + 1, n, x, own, out, |st.code|);
    ValueStep(p, m1, i, v, n, x);
    m' := Step(p, m1);
    RunsMono(p, m, m1, 0x100, -1, n, x);
    RunsTrans(p, m, m1, m', n, x);
  }

  lemma FinalShort(p: Program, st: State, lo: int, hi: int, hi': int, n: int, x: int, own: multiset<nat>,
                   out: multiset<nat>)
    requires Final(p, st, lo, hi, n, x, own, out) && hi' <= hi
    ensures Final(p, st, lo, hi', n, x, own, out)
  {
    forall i | lo <= i < hi' && !Excluded(st.code, i, out) ensures LaterAt(st.code, p.code, i, n, x, own) {
    }
  }

  lemma PlaceRuns(p: Program, st: State, d: Desc, r: Reg, st': State, v: Result<Value>, m: Machine, lo: int,
                  sh: Shared, outer: multiset<nat>, n: int, x: int, own: multiset<nat>, out: multiset<nat>)
      returns (m': Machine)
    requires Described(st, d, outer, |sh.upvals|) && Place(st, d.kind, r) == Ok(st')
    requires !d.kind.LocalK? && !d.kind.GlobalK? && !d.kind.UpvalK? && r < NO_REG && r < st.maxReg && n <= 0x100
    requires Final(p, st', lo, |st'.code|, n, x, own, out) && (r >= n || r == x)
    requires Arrived(p, st, d, v, m, lo, sh)
    ensures Arrived(p, st', d.(kind := NonRelocK(r)), v, m', lo, sh)
    ensures if m.Running? then Runs(p, m, m', n, x) else m' == m
  {
    hide Emit, Place, Tidy, InRange, Bounded, KindValue, Final;
    m' := m;
    if m.Running? {
      if v.Ok? && AtJump(p, st, d, v.value, m, lo) {
        PlaceShape(st, d, r, outer, |sh.upvals|);
        RunsRefl(p, m, n, x);
        FinalConsts(p, st', lo, |st'.code|, n, x, own, out);
        JumpStays(p, st, d, st', d.(kind := NonRelocK(r)), v.value, m, lo, Stop(st, d), NO_REG, outer, |sh.upvals|);
      } else {
        m' := PlaceEndRuns(p, st, d, r, st', v, m, lo, sh, outer, n, x, own, out);
      }
    }
  }

  lemma FinalConsts(p: Program, st: State, lo: int, hi: int, n: int, x: int, own: multiset<nat>, out: multiset<nat>)
    requires Final(p, st, lo, hi, n, x, own, out)
    ensures st.consts <= p.consts
    ensures forall i | 0 <= i < |st.consts| :: p.consts[i] == st.consts[i]
  {
  }

  lemma PlaceEndRuns(p: Program, st: State, d: Desc, r: Reg, st': State, v: Result<Value>, m: Machine, lo: int,
                     sh: Shared, outer: multiset<nat>, n: int, x: int, own: multiset<nat>, out: multiset<nat>)
      returns (m': Machine)
    requires Described(st, d, outer, |sh.upvals|) && Place(st, d.kind, r) == Ok(st')
    requires !d.kind.LocalK? && !d.kind.GlobalK? && !d.kind.UpvalK? && r < NO_REG && r < st.maxReg && n <= 0x100
    requires Final(p, st', lo, |st'.code|, n, x, own, out) && (r >= n || r == x)
    requires m.Running? && m.sh == sh && st.consts <= p.consts && AtEnd(p, st, d, v, m, lo)
    ensures Arrived(p, st', d.(kind := NonRelocK(r)), v, m', lo, sh) && Runs(p, m, m', n, x)
  {
    hide Emit, Tidy, InRange, Bounded, MakeConst;
    match d.kind
    case RelocK(pos) =>
      m' := RelocRuns(p, st, d, r, st', v, m, lo, sh, outer, n, x, own, out);
    case PrimK(b) =>
      m' := EmitLoadRuns(p, st, d, Instr(Primitive, r, Cast16(b)), st, v, m, lo, sh, outer, n, x, own, out);
    case TextK(s) =>
      m' := ConstRuns(p, st, d, Str(s), r, st', v, m, lo, sh, outer, n, x, own, out);
    case NumK(c) =>
      m' := ConstRuns(p, st, d, Num(c), r, st', v, m, lo, sh, outer, n, x, own, out);
    case NonRelocK(r') =>
      if r' != r {
        m' := EmitLoadRuns(p, st, d, Instr(Mov, r, r'), st, v, m, lo, sh, outer, n, x, own, out);
      } else {
        m' := m;
        RunsRefl(p, m, n, x);
      }
  }

  lemma ConstRuns(p: Program, st: State, d: Desc, c: Value, r: Reg, st': State, v: Result<Value>, m: Machine, lo: int,
                  sh: Shared, outer: multiset<nat>, n: int, x: int, own: multiset<nat>, out: multiset<nat>)
      returns (m': Machine)
    requires Described(st, d, outer, |sh.upvals|) && !d.kind.RelocK? && m.Running? && m.sh == sh && n <= 0x100
    requires MakeConst(st, c).Ok?
    requires Emit(MakeConst(st, c).value.0, Instr(ConstNum, r, MakeConst(st, c).value.1)) == Ok(st')
    requires Final(p, st', lo, |st'.code|, n, x, own, out) && (r >= n || r == x) && r < NO_REG && r < st.maxReg
    requires st.consts <= p.consts && AtEnd(p, st, d, v, m, lo) && v == Ok(c)
    ensures Arrived(p, st', d.(kind := NonRelocK(r)), v, m', lo, sh) && Runs(p, m, m', n, x)
  {
    var (st1, k) := MakeConst(st, c).value;
    FinalConsts(p, st', lo, |st'.code|, n, x, own, out);
    assert st'.consts == st1.consts && p.consts[k] == c;
    m' := EmitLoadRuns(p, st, d, Instr(ConstNum, r, k), st1, v, m, lo, sh, outer, n, x, own, out);
  }

  lemma RelocRuns(p: Program, st: State, d: Desc, r: Reg, st': State, v: Result<Value>, m: Machine, lo: int,
                  sh: Shared, outer: multiset<nat>, n: int, x: int, own: multiset<nat>, out: multiset<nat>)
      returns (m': Machine)
    requires Described(st, d, outer, |sh.upvals|) && Place(st, d.kind, r) == Ok(st') && d.kind.RelocK?
    requires Final(p, st', lo, |st'.code|, n, x, own, out) && (r >= n || r == x) && r < NO_REG && r < st.maxReg
    requires m.Running? && m.sh == sh && st.consts <= p.consts && AtEnd(p, st, d, v, m, lo)
    ensures Arrived(p, st', d.(kind := NonRelocK(r)), v, m', lo, sh) && Runs(p, m, m', n, x)
  {
    hide Emit, Tidy, InRange, Bounded;
    var pos := d.kind.pos;
    FinalWord(p, st', lo, |st'.code|, n, x, own, out, pos);
    ValueStep(p, m, st'.code[pos], v, n, x);
    m' := Step(p, m);
  }

  lemma ToRegNoBranchRuns(p: Program, st: State, d: Desc, r: Reg, st': State, d': Desc, v: Result<Value>, m: Machine,
                          lo: int, sh: Shared, outer: multiset<nat>, n: int, x: int, own: multiset<nat>, out: multiset<nat>)
      returns (m': Machine)
    requires Described(st, d, outer, |sh.upvals|) && ToRegNoBranch(st, d, r) == Ok((st', d'))
    requires r < NO_REG && r < st.maxReg && n <= NO_REG
    requires Final(p, st', lo, |st'.code|, n, x, own, out) && (r >= n || r == x)
    requires Arrived(p, st, d, v, m, lo, sh)
    ensures Arrived(p, st', d', v, m', lo, sh)
    ensures if m.Running? then Runs(p, m, m', n, x) else m' == m
  {
    hide Discharge, Place, Described, Grows, Final, Arrived;
    var (st1, d1) := Discharge(st, d).value;
    DischargeShape(st, d, outer, |sh.upvals|);
    PlaceShape(st1, d1, r, outer, |sh.upvals|);
    GrowsActVar(st1, Stop(st1, d1), st', NO_REG);
    FinalBack(p, st1, Stop(st1, d1), st', |st'.code|, lo, n, NO_REG, x, own, own, out);
    var m1 := DischargeRuns(p, st, d, st1, d1, v, m, lo, sh, outer, n, x, own, out);
    m' := PlaceRuns(p, st1, d1, r, st', v, m1, lo, sh, outer, n, x, own, out);
    if m.Running? {
      RunsMono(p, m, m1, 0x100, -1, n, x);
      RunsTrans(p, m, m1, m', n, x);
    }
  }

  // ----- resolving jumps -----

  /** What patching does to jump j and to its test. */
  ghost predicate Patched(code: seq<Instr>, c: seq<Instr>, j: nat, end: nat, ot: nat, r: Reg) {
    && 1 <= j < |code| == |c| && c[j].op == Jump && !Open(c, j)
    && Target(c, j) == (if IsCopy(code[j - 1]) then end else ot)
    && (IsCopy(code[j - 1]) ==> c[j - 1] == Resolved(code[j - 1], r))
  }

  lemma PatchedWords(code: seq<Instr>, list: seq<nat>, end: nat, r: Reg, ot: nat, j: nat)
    requires WfCode(code) && AllOpen(code, list) && end !in list && ot !in list
    requires PatchList(code, list, end, r, ot).Ok? && j in list
    ensures Patched(code, PatchList(code, list, end, r, ot).value, j, end, ot, r)
  {
    assert WfAt(code, 0);
    assert Open(code, j);
    PatchListAt(code, list, end, r, ot, j);
    PatchListAt(code, list, end, r, ot, j - 1);
    PatchListCloses(code, list, end, r, ot);
    assert Open(code, j - 1) ==> !IsCopy(code[j - 1]);
  }

  /** Words that are resolved already are left alone. */
  lemma UnpatchedWord(code: seq<Instr>, list: seq<nat>, end: nat, r: Reg, ot: nat, i: nat)
    requires WfCode(code) && AllOpen(code, list) && end !in list && ot !in list
    requires PatchList(code, list, end, r, ot).Ok? && i < |code| && !Open(code, i)
    requires IsCopy(code[i]) ==> code[i].a != NO_REG
    ensures |PatchList(code, list, end, r, ot).value| == |code|
    ensures PatchList(code, list, end, r, ot).value[i] == code[i]
  {
    PatchListAt(code, list, end, r, ot, i);
    assert WfAt(code, i);
    if i + 1 in list {
      assert Open(code, i + 1);
    }
  }

  lemma PatchBothWords(code: seq<Instr>, d: Desc, r: Reg, f: nat, t: nat, outer: multiset<nat>, truth: bool, j: nat)
    requires PatchBoth(code, d, |code|, r, f, t).Ok?
    requires Tidy(code, multiset(d.fj) + (multiset(d.tj) + outer)) && !Open(code, f) && !Open(code, t) && r != NO_REG
    requires j in (if truth then d.tj else d.fj)
    ensures Patched(code, PatchBoth(code, d, |code|, r, f, t).value, j, |code|, if truth then t else f, r)
  {
    var end := |code|;
    var lists := multiset(d.fj) + (multiset(d.tj) + outer);
    ListIsOpen(code, d.fj, lists);
    assert !Open(code, end);
    PatchListTidy(code, d.fj, end, r, f, lists);
    assert lists - multiset(d.fj) == multiset(d.tj) + outer;
    PatchListCloses(code, d.fj, end, r, f);
    var c1 := PatchList(code, d.fj, end, r, f).value;
    ListIsOpen(c1, d.tj, multiset(d.tj) + outer);
    assert !Open(c1, end) && !Open(c1, t);
    if truth {
      PatchListKept(code, d.fj, end, r, f);
      assert Open(c1, j);
      assert WfAt(c1, 0);
      assert KeptAt(code, c1, j);
      PatchedWords(c1, d.tj, end, r, t, j);
    } else {
      PatchedWords(code, d.fj, end, r, f, j);
      UnpatchedWord(c1, d.tj, end, r, t, j);
      if IsCopy(code[j - 1]) {
        assert WfAt(c1, j - 1);
        UnpatchedWord(c1, d.tj, end, r, t, j - 1);
      }
    }
  }

  /** A jump with a value lands at the end with the value in r. */
  lemma LandWithValue(p: Program, code: seq<Instr>, st': State, j: nat, ot: nat, r: Reg, v: Value, m: Machine,
                      lo: int, n: int, x: int, own: multiset<nat>, out: multiset<nat>) returns (m': Machine)
    requires Patched(code, st'.code, j, |code|, ot, r) && IsCopy(code[j - 1]) && r < NO_REG
    requires LeftBy(p, code, m, v) && m.ip == j && lo < j && Final(p, st', lo, |code|, n, x, own, out)
    ensures m' == m.(ip := |code|) && m.regs[r] == v && Runs(p, m, m', 0x100, -1)
  {
    FinalWord(p, st', lo, |code|, n, x, own, out, j);
    FinalWord(p, st', lo, |code|, n, x, own, out, j - 1);
    m' := Step(p, m);
    RunsStep(p, m, 0x100, -1);
  }

  /** A jump without a value lands on the load of its truth. */
  lemma LandOnLoad(p: Program, code: seq<Instr>, st': State, j: nat, truth: bool, r: Reg, v: Value, m: Machine,
                   lo: int, n: int, x: int, own: multiset<nat>, out: multiset<nat>) returns (m': Machine)
    requires |code| >= 3 && Patched(code, st'.code, j, |code|, if truth then |code| - 1 else |code| - 3, r)
    requires !IsCopy(code[j - 1]) && r < NO_REG && (r >= n || r == x) && n <= 0x100
    requires LeftBy(p, code, m, v) && m.ip == j && lo <= j && truth == !Falsey(p.w, v)
    requires Final(p, st', lo, |code|, n, x, own, out) && lo <= |code| - 3
    requires st'.code[|code| - 3] == Instr(Primitive, r, 2) && st'.code[|code| - 1] == Instr(Primitive, r, 1)
    requires st'.code[|code| - 2].op == Jump && st'.code[|code| - 2].d == 0x8001
    ensures m' == m.(ip := |code|, regs := m.regs[r := v]) && Runs(p, m, m', n, x)
  {
    var end := |code|;
    FinalWord(p, st', lo, end, n, x, own, out, j);
    var m1 := Step(p, m);
    assert m1 == m.(ip := if truth then end - 1 else end - 3);
    RunsStep(p, m, n, x);
    if truth {
      FinalWord(p, st', lo, end, n, x, own, out, end - 1);
      ValueStep(p, m1, Instr(Primitive, r, 1), Ok(Bool(true)), n, x);
      m' := Step(p, m1);
      RunsTrans(p, m, m1, m', n, x);
    } else {
      FinalWord(p, st', lo, end, n, x, own, out, end - 3);
      ValueStep(p, m1, Instr(Primitive, r, 2), Ok(Bool(false)), n, x);
      var m2 := Step(p, m1);
      RunsTrans(p, m, m1, m2, n, x);
      FinalWord(p, st', lo, end, n, x, own, out, end - 2);
      m' := Step(p, m2);
      RunsStep(p, m2, n, x);
      RunsTrans(p, m, m2, m', n, x);
    }
  }

  lemma ResolveJump(p: Program, st: State, d: Desc, r: Reg, st': State, v: Value, m: Machine, lo: int,
                    outer: multiset<nat>, upvals: nat, n: int, x: int, own: multiset<nat>, out: multiset<nat>)
      returns (m': Machine)
    requires Described(st, d, outer, upvals) && d.kind == NonRelocK(r) && HasJump(d) && Resolve(st, d, r) == Ok(st')
    requires m.Running? && AtJump(p, st, d, v, m, lo) && r < st.maxReg
    requires Final(p, st', lo, |st'.code|, n, x, own, out) && (r >= n || r == x) && n <= NO_REG
    ensures m'.Running? && lo <= m'.ip == |st'.code| && m'.regs[r] == v && Runs(p, m, m', n, x)
  {
    hide Tidy, InRange, Bounded;
    var truth := !Falsey(p.w, v);
    var j := m.ip;
    var lists := Lists(st, d) + outer;
    if NoValue(st.code, d.tj) || NoValue(st.code, d.fj) {
      m' := ResolveWithLoads(p, st, d, r, st', v, m, lo, outer, upvals, n, x, own, out);
    } else {
      assert multiset(d.fj) + (multiset(d.tj) + (multiset(st.pending) + outer)) == lists;
      assert !Open(st.code, |st.code|);
      PatchBothWords(st.code, d, r, |st.code|, |st.code|, multiset(st.pending) + outer, truth, j);
      AllValued(st.code, if truth then d.tj else d.fj, lists, j);
      m' := LandWithValue(p, st.code, st', j, |st.code|, r, v, m, lo, n, x, own, out);
      RunsMono(p, m, m', 0x100, -1, n, x);
    }
  }

  lemma AllValued(code: seq<Instr>, list: seq<nat>, lists: multiset<nat>, j: nat)
    requires Tidy(code, lists) && multiset(list) <= lists && j in list && !NoValue(code, list)
    ensures 1 <= j < |code| && IsCopy(code[j - 1])
  {
    ListIsOpen(code, list, lists);
    ListOpen(code, lists, list, j);
    if !IsCopy(code[j - 1]) {
      NoValueAt(code, list, j);
    }
  }

  lemma ResolveWithLoads(p: Program, st: State, d: Desc, r: Reg, st': State, v: Value, m: Machine, lo: int,
                         outer: multiset<nat>, upvals: nat, n: int, x: int, own: multiset<nat>, out: multiset<nat>)
      returns (m': Machine)
    requires Described(st, d, outer, upvals) && d.kind == NonRelocK(r) && HasJump(d) && Resolve(st, d, r) == Ok(st')
    requires NoValue(st.code, d.tj) || NoValue(st.code, d.fj)
    requires m.Running? && AtJump(p, st, d, v, m, lo) && r < st.maxReg
    requires Final(p, st', lo, |st'.code|, n, x, own, out) && (r >= n || r == x) && n <= NO_REG
    ensures m'.Running? && lo <= m'.ip == |st'.code| && m'.regs[r] == v && Runs(p, m, m', n, x)
  {
    hide Resolve, Loads, Patched, LeftBy, Final, Described;
    var truth := !Falsey(p.w, v);
    PatchedAfterLoads(p, st, d, r, v, m, lo, outer, upvals);
    var code := Loads(st, r).value.code;
    var end := |code|;
    PatchedIndex(code, st'.code, m.ip, end, if truth then end - 1 else end - 3, r);
    if IsCopy(code[m.ip - 1]) {
      m' := LandWithValue(p, code, st', m.ip, if truth then end - 1 else end - 3, r, v, m, lo, n, x, own, out);
      RunsMono(p, m, m', 0x100, -1, n, x);
    } else {
      LoadsStay(st, d, r, outer, upvals);
      m' := LandOnLoad(p, code, st', m.ip, truth, r, v, m, lo, n, x, own, out);
    }
  }

  lemma PatchedAfterLoads(p: Program, st: State, d: Desc, r: Reg, v: Value, m: Machine, lo: int,
                          outer: multiset<nat>, upvals: nat)
    requires Described(st, d, outer, upvals) && d.kind == NonRelocK(r) && HasJump(d) && Resolve(st, d, r).Ok?
    requires NoValue(st.code, d.tj) || NoValue(st.code, d.fj)
    requires m.Running? && AtJump(p, st, d, v, m, lo) && r < st.maxReg
    ensures Loads(st, r).Ok?
    ensures var st1 := Loads(st, r).value;
      var end := |st1.code|;
      && end >= |st.code| + 4 && m.ip < |st.code| && AtJump(p, st1, d, v, m, lo)
      && Patched(st1.code, Resolve(st, d, r).value.code, m.ip, end, if Falsey(p.w, v) then end - 3 else end - 1, r)
  {
    hide Tidy, Resolve, Loads, PatchBoth, Patched, Described, Sound, Grows, Falsey, AtJump;
    JumpAfterLoads(p, st, d, r, v, m, lo, outer, upvals);
    ResolveSteps(st, d, r);
    DescribedTidy(st, d, outer, upvals);
    LoadsShape(st, d, r, outer, upvals);
    var st1 := Loads(st, r).value;
    var end := |st1.code|;
    SoundTidy(st1, end, Lists(st1, d) + outer);
    assert multiset(d.fj) + (multiset(d.tj) + (multiset(st1.pending) + outer)) == Lists(st1, d) + outer;
    InOneList(p, st1, d, v, m, lo);
    PatchBothWords(st1.code, d, r, end - 3, end - 1, multiset(st1.pending) + outer, !Falsey(p.w, v), m.ip);
  }

  lemma InOneList(p: Program, st: State, d: Desc, v: Value, m: Machine, lo: int)
    requires m.Running? && AtJump(p, st, d, v, m, lo)
    ensures m.ip in (if !Falsey(p.w, v) then d.tj else d.fj)
  {
  }

  /** The loads do not touch the jump. */
  lemma JumpAfterLoads(p: Program, st: State, d: Desc, r: Reg, v: Value, m: Machine, lo: int, outer: multiset<nat>,
                       upvals: nat)
    requires Described(st, d, outer, upvals) && d.kind == NonRelocK(r) && HasJump(d) && Resolve(st, d, r).Ok?
    requires NoValue(st.code, d.tj) || NoValue(st.code, d.fj)
    requires m.Running? && AtJump(p, st, d, v, m, lo) && r < st.maxReg
    ensures Loads(st, r).Ok? && m.ip < |st.code| && AtJump(p, Loads(st, r).value, d, v, m, lo)
  {
    hide Tidy, Resolve, Loads, PatchBoth, LeftBy, Described, Sound, Grows;
    ResolveSteps(st, d, r);
    DescribedTidy(st, d, outer, upvals);
    LoadsShape(st, d, r, outer, upvals);
    var st1 := Loads(st, r).value;
    SoundTidy(st1, |st1.code|, Lists(st1, d) + outer);
    ListOpen(st.code, Lists(st, d) + outer, if Falsey(p.w, v) then d.fj else d.tj, m.ip);
    JumpKept(p, st, d, st1, d, v, m, lo, |st.code|, NO_REG, Lists(st, d) + outer, Lists(st1, d) + outer);
  }

  lemma SoundTidy(st: State, hi: int, lists: multiset<nat>)
    requires Sound(st, hi, lists)
    ensures Tidy(st.code, lists)
  {
  }

  lemma DescribedTidy(st: State, d: Desc, outer: multiset<nat>, upvals: nat)
    requires Described(st, d, outer, upvals)
    ensures Tidy(st.code, Lists(st, d) + outer)
  {
  }

  lemma PatchedIndex(code: seq<Instr>, c: seq<Instr>, j: nat, end: nat, ot: nat, r: Reg)
    requires Patched(code, c, j, end, ot, r)
    ensures 1 <= j < |code| == |c|
  {
  }

  lemma ResolveSteps(st: State, d: Desc, r: Reg)
    requires Resolve(st, d, r).Ok? && (NoValue(st.code, d.tj) || NoValue(st.code, d.fj))
    ensures Loads(st, r).Ok?
    ensures var st1 := Loads(st, r).value;
      var end := |st1.code|;
      end >= 3 ==>
        && PatchBoth(st1.code, d, end, r, end - 3, end - 1).Ok?
        && Resolve(st, d, r).value == st1.(code := PatchBoth(st1.code, d, end, r, end - 3, end - 1).value)
  {
    hide Loads, PatchBoth;
  }

  /** The loads are not touched by the patching. */
  lemma LoadsStay(st: State, d: Desc, r: Reg, outer: multiset<nat>, upvals: nat)
    requires Described(st, d, outer, upvals) && d.kind == NonRelocK(r) && HasJump(d) && Resolve(st, d, r).Ok?
    requires NoValue(st.code, d.tj) || NoValue(st.code, d.fj)
    requires r < st.maxReg
    ensures var c := Resolve(st, d, r).value.code;
      var end := |Loads(st, r).value.code|;
      && |c| == end >= |st.code| + 4
      && c[end - 3] == Instr(Primitive, r, 2) && c[end - 1] == Instr(Primitive, r, 1)
      && c[end - 2].op == Jump && c[end - 2].d == 0x8001
  {
    hide Resolve, PatchBoth, Tidy, Described, Sound, Grows, Loads;
    ResolveSteps(st, d, r);
    LoadsShape(st, d, r, outer, upvals);
    LoadsCode(st, r);
    SoundTidy(Loads(st, r).value, |Loads(st, r).value.code|, Lists(Loads(st, r).value, d) + outer);
    var st1 := Loads(st, r).value;
    var end := |st1.code|;
    var lists := Lists(st1, d) + outer;
    assert multiset(d.fj) + (multiset(d.tj) + (multiset(st1.pending) + outer)) == lists;
    UnpatchedBoth(st1.code, d, r, end - 3, end - 1, multiset(st1.pending) + outer, end - 3);
    UnpatchedBoth(st1.code, d, r, end - 3, end - 1, multiset(st1.pending) + outer, end - 2);
    UnpatchedBoth(st1.code, d, r, end - 3, end - 1, multiset(st1.pending) + outer, end - 1);
  }

  lemma UnpatchedBoth(code: seq<Instr>, d: Desc, r: Reg, f: nat, t: nat, outer: multiset<nat>, i: nat)
    requires PatchBoth(code, d, |code|, r, f, t).Ok?
    requires Tidy(code, multiset(d.fj) + (multiset(d.tj) + outer)) && !Open(code, f) && !Open(code, t)
    requires i < |code| && !Open(code, i) && !IsCopy(code[i])
    ensures PatchBoth(code, d, |code|, r, f, t).value[i] == code[i]
  {
    var end := |code|;
    var lists := multiset(d.fj) + (multiset(d.tj) + outer);
    ListIsOpen(code, d.fj, lists);
    assert !Open(code, end);
    PatchListTidy(code, d.fj, end, r, f, lists);
    assert lists - multiset(d.fj) == multiset(d.tj) + outer;
    PatchListCloses(code, d.fj, end, r, f);
    UnpatchedWord(code, d.fj, end, r, f, i);
    var c1 := PatchList(code, d.fj, end, r, f).value;
    ListIsOpen(c1, d.tj, multiset(d.tj) + outer);
    assert !Open(c1, end) && !Open(c1, t) && !Open(c1, i);
    UnpatchedWord(c1, d.tj, end, r, t, i);
  }

  /** After exprToReg the value is in r, whichever way the run came. */
  lemma ToRegRuns(p: Program, st: State, d: Desc, r: Reg, st': State, v: Result<Value>, m: Machine, lo: int,
                  sh: Shared, outer: multiset<nat>, n: int, x: int, own: multiset<nat>, out: multiset<nat>)
      returns (m': Machine)
    requires Described(st, d, outer, |sh.upvals|) && ToReg(st, d, r) == Ok((st', Desc(NonRelocK(r), [], [])))
    requires r < NO_REG && r < st.maxReg && n <= NO_REG && (r >= n || r == x)
    requires Final(p, st', lo, |st'.code|, n, x, own, out)
    requires Arrived(p, st, d, v, m, lo, sh)
    ensures Arrived(p, st', Desc(NonRelocK(r), [], []), v, m', lo, sh)
    ensures if m.Running? then Runs(p, m, m', n, x) else m' == m
  {
    hide ToRegNoBranch, Resolve, Described, Final, Arrived, GrowsFor;
    var (st1, d1) := ToRegNoBranch(st, d, r).value;
    ToRegNoBranchShape(st, d, r, outer, |sh.upvals|);
    if HasJump(d) {
      var all := multiset(d.tj) + multiset(d.fj) + own;
      ResolveShape(st1, d1, r, outer, |sh.upvals|, n, x, all);
      FinalBackFor(p, st1, st', lo, n, x, own, all, out);
      var m1 := ToRegNoBranchRuns(p, st, d, r, st1, d1, v, m, lo, sh, outer, n, x, all, out);
      m' := ResolveRuns(p, st1, d1, r, st', v, m1, lo, sh, outer, n, x, own, out);
      if m.Running? {
        RunsTrans(p, m, m1, m', n, x);
      }
    } else {
      m' := ToRegNoBranchRuns(p, st, d, r, st1, d1, v, m, lo, sh, outer, n, x, own, out);
    }
  }

  lemma FinalBackFor(p: Program, st: State, st': State, lo: int, n: int, x: int, own: multiset<nat>, all: multiset<nat>,
                     out: multiset<nat>)
    requires GrowsFor(st, |st.code|, st', n, x, all) && Final(p, st', lo, |st'.code|, n, x, own, out) && own <= all
    ensures Final(p, st, lo, |st.code|, n, x, all, out)
  {
    assert forall j | j in own :: j in all;
    forall i | lo <= i < |st.code| && !Excluded(st.code, i, out) ensures LaterAt(st.code, p.code, i, n, x, all) {
      assert LaterAt(st.code, st'.code, i, n, x, all);
      assert !Excluded(st'.code, i, out);
      assert LaterAt(st'.code, p.code, i, n, x, own);
    }
  }

  lemma ResolveRuns(p: Program, st: State, d: Desc, r: Reg, st': State, v: Result<Value>, m: Machine, lo: int,
                    sh: Shared, outer: multiset<nat>, n: int, x: int, own: multiset<nat>, out: multiset<nat>)
      returns (m': Machine)
    requires Described(st, d, outer, |sh.upvals|) && d.kind == NonRelocK(r)
    requires HasJump(d) && Resolve(st, d, r) == Ok(st')
    requires r < st.maxReg && n <= NO_REG && (r >= n || r == x)
    requires Final(p, st', lo, |st'.code|, n, x, own, out)
    requires Arrived(p, st, d, v, m, lo, sh)
    ensures Arrived(p, st', Desc(NonRelocK(r), [], []), v, m', lo, sh)
    ensures if m.Running? then Runs(p, m, m', n, x) else m' == m
  {
    hide Resolve, Described, Final, LeftBy;
    m' := m;
    ResolveRegs(st, d, r);
    FinalConsts(p, st', lo, |st'.code|, n, x, own, out);
    if m.Running? {
      if v.Ok? && AtJump(p, st, d, v.value, m, lo) {
        m' := ResolveJump(p, st, d, r, st', v.value, m, lo, outer, |sh.upvals|, n, x, own, out);
      } else {
        RunsRefl(p, m, n, x);
        ResolveEnd(st, d, r, m, lo, outer, |sh.upvals|);
      }
    }
  }

  lemma ResolveRegs(st: State, d: Desc, r: Reg)
    requires Resolve(st, d, r).Ok?
    ensures Resolve(st, d, r).value.maxReg == st.maxReg
  {
    hide PatchBoth;
  }

  /** The end before is the end, or a jump to the end, after. */
  lemma ResolveEnd(st: State, d: Desc, r: Reg, m: Machine, lo: int, outer: multiset<nat>, upvals: nat)
    requires Described(st, d, outer, upvals) && d.kind == NonRelocK(r) && HasJump(d) && Resolve(st, d, r).Ok?
    requires Here(st, m, lo) && r < st.maxReg
    ensures Here(Resolve(st, d, r).value, m, lo)
  {
    hide Loads, PatchBoth, Described;
    if NoValue(st.code, d.tj) || NoValue(st.code, d.fj) {
      ResolveSteps(st, d, r);
      LoadsShape(st, d, r, outer, upvals);
    }
  }

  // ----- operands: fresh destinations -----

  /** Final without a destination below n. */
  ghost predicate FinalNew(p: Program, st: State, lo: int, hi: int, n: int, out: multiset<nat>) {
    Final(p, st, lo, hi, n, -1, multiset{}, out)
  }

  lemma ArrivedRegs(p: Program, st: State, d: Desc, v: Result<Value>, m: Machine, lo: int, sh: Shared, st2: State)
    requires Arrived(p, st, d, v, m, lo, sh)
    requires st2.code == st.code && st2.pending == st.pending && st2.consts == st.consts && st2.maxReg >= st.maxReg
    ensures Arrived(p, st2, d, v, m, lo, sh)
  {
  }

  lemma NextRegRuns(p: Program, st: State, d: Desc, st': State, v: Result<Value>, m: Machine, lo: int,
                    sh: Shared, outer: multiset<nat>, n: int) returns (m': Machine)
    requires Described(st, d, outer, |sh.upvals|) && n <= st.nextReg <= 253
    requires d.kind.LocalK? || d.kind.NonRelocK? ==> d.kind.r < st.actVar
    requires NextReg(st, d) == Ok((st', Desc(NonRelocK(st.nextReg), [], [])))
    requires FinalNew(p, st', lo, |st'.code|, n, outer) && Arrived(p, st, d, v, m, lo, sh)
    ensures Arrived(p, st', Desc(NonRelocK(st.nextReg), [], []), v, m', lo, sh)
    ensures if m.Running? then Runs(p, m, m', n, -1) else m' == m
  {
    hide Discharge, ToReg, Described, Final, Arrived, Grows, GrowsFor;
    var (st1, d1) := Discharge(st, d).value;
    DischargeShape(st, d, outer, |sh.upvals|);
    assert ExprFree(st1, d1) == st1;
    ReserveShape(st1, d1, outer, |sh.upvals|);
    var st2 := RegReserve(st1);
    var r := st.nextReg;
    ToRegShape(st2, d1, r, outer, |sh.upvals|, n, -1, multiset{});
    GrowsIsFor(st2, Stop(st2, d1), st', n);
    GrowsActVar(st2, Stop(st2, d1), st', n);
    FinalBack(p, st2, Stop(st2, d1), st', |st'.code|, lo, n, n, -1, multiset{}, multiset{}, outer);
    FinalRegs(p, st2, lo, Stop(st2, d1), n, outer, st1);
    var m1 := DischargeRuns(p, st, d, st1, d1, v, m, lo, sh, outer, n, -1, multiset{}, outer);
    ArrivedRegs(p, st1, d1, v, m1, lo, sh, st2);
    m' := ToRegRuns(p, st2, d1, r, st', v, m1, lo, sh, outer, n, -1, multiset{}, outer);
    if m.Running? {
      RunsMono(p, m, m1, 0x100, -1, n, -1);
      RunsTrans(p, m, m1, m', n, -1);
    }
  }

  lemma GrowsIsFor(st: State, hi: int, st': State, n: int)
    requires GrowsFor(st, hi, st', n, -1, multiset{})
    ensures Grows(st, hi, st', n)
  {
  }

  lemma FinalRegs(p: Program, st: State, lo: int, hi: int, n: int, outer: multiset<nat>, st2: State)
    requires FinalNew(p, st, lo, hi, n, outer) && st2.code == st.code && st2.consts == st.consts
    ensures FinalNew(p, st2, lo, hi, n, outer)
  {
  }

  lemma AnyRegRuns(p: Program, st: State, d: Desc, st': State, d': Desc, v: Result<Value>, m: Machine, lo: int,
                   sh: Shared, outer: multiset<nat>, n: int) returns (m': Machine)
    requires Described(st, d, outer, |sh.upvals|) && n <= st.nextReg <= 253 && Usable(st, d)
    requires AnyReg(st, d) == Ok((st', d'))
    requires FinalNew(p, st', lo, Stop(st', d'), n, outer) && Arrived(p, st, d, v, m, lo, sh)
    ensures Arrived(p, st', d', v, m', lo, sh)
    ensures if m.Running? then Runs(p, m, m', n, -1) else m' == m
  {
    hide Discharge, NextReg, ToReg, Described, Final, Arrived, Grows;
    var (st1, d1) := Discharge(st, d).value;
    AnyRegShape(st, d, outer, |sh.upvals|, n);
    DischargeShape(st, d, outer, |sh.upvals|);
    if d1.kind.NonRelocK? && !HasJump(d1) {
      m' := DischargeRuns(p, st, d, st1, d1, v, m, lo, sh, outer, n, -1, multiset{}, outer);
      if m.Running? {
        RunsMono(p, m, m', 0x100, -1, n, -1);
      }
    } else {
      NextRegShape(st1, d1, outer, |sh.upvals|, n);
      GrowsActVar(st1, Stop(st1, d1), st', n);
      FinalBack(p, st1, Stop(st1, d1), st', |st'.code|, lo, n, n, -1, multiset{}, multiset{}, outer);
      var m1 := DischargeRuns(p, st, d, st1, d1, v, m, lo, sh, outer, n, -1, multiset{}, outer);
      m' := NextRegRuns(p, st1, d1, st', v, m1, lo, sh, outer, n);
      if m.Running? {
        RunsMono(p, m, m1, 0x100, -1, n, -1);
        RunsTrans(p, m, m1, m', n, -1);
      }
    }
  }

  lemma ToValRuns(p: Program, st: State, d: Desc, st': State, d': Desc, v: Result<Value>, m: Machine, lo: int,
                  sh: Shared, outer: multiset<nat>, n: int) returns (m': Machine)
    requires Described(st, d, outer, |sh.upvals|) && n <= st.nextReg <= 253 && Usable(st, d)
    requires ToVal(st, d) == Ok((st', d'))
    requires FinalNew(p, st', lo, Stop(st', d'), n, outer) && Arrived(p, st, d, v, m, lo, sh)
    ensures Arrived(p, st', d', v, m', lo, sh)
    ensures if m.Running? then Runs(p, m, m', n, -1) else m' == m
  {
    hide Discharge, AnyReg, Described, Final, Arrived;
    if HasJump(d) {
      m' := AnyRegRuns(p, st, d, st', d', v, m, lo, sh, outer, n);
    } else {
      m' := DischargeRuns(p, st, d, st', d', v, m, lo, sh, outer, n, -1, multiset{}, outer);
      if m.Running? {
        RunsMono(p, m, m', 0x100, -1, n, -1);
      }
    }
  }

  lemma OperandRuns(p: Program, st: State, d: Desc, st': State, d': Desc, v: Result<Value>, m: Machine, lo: int,
                    sh: Shared, outer: multiset<nat>, n: int) returns (m': Machine)
    requires Described(st, d, outer, |sh.upvals|) && n <= st.nextReg <= 253 && Usable(st, d)
    requires Operand(st, d) == Ok((st', d'))
    requires FinalNew(p, st', lo, |st'.code|, n, outer) && Arrived(p, st, d, v, m, lo, sh)
    ensures Arrived(p, st', d', v, m', lo, sh)
    ensures if m.Running? then Runs(p, m, m', n, -1) else m' == m
  {
    hide ToVal, AnyReg, Described, Final, Arrived, Grows;
    OperandShape(st, d, outer, |sh.upvals|, n);
    ToValShape(st, d, outer, |sh.upvals|, n);
    var (st1, d1) := ToVal(st, d).value;
    if d1.kind.NonRelocK? {
      HereStays(st1, d1);
      m' := ToValRuns(p, st, d, st1, d1, v, m, lo, sh, outer, n);
    } else {
      AnyRegShape(st1, d1, outer, |sh.upvals|, n);
      GrowsActVar(st1, Stop(st1, d1), st', n);
      FinalBack(p, st1, Stop(st1, d1), st', |st'.code|, lo, n, n, -1, multiset{}, multiset{}, outer);
      var m1 := ToValRuns(p, st, d, st1, d1, v, m, lo, sh, outer, n);
      m' := AnyRegRuns(p, st1, d1, st', d', v, m1, lo, sh, outer, n);
      if m.Running? {
        RunsTrans(p, m, m1, m', n, -1);
      }
    }
  }

  // ----- operators -----

  /** The operands are in place; the run goes on to the instruction that combines them. */
  lemma CombineRuns(p: Program, st: State, e: Desc, st2: State, i: Instr, st': State, m: Machine, lo: int,
                    sh: Shared, outer: multiset<nat>, n: int) returns (m': Machine)
    requires Described(st, e, outer, |sh.upvals|) && !e.kind.RelocK? && !HasJump(e)
    requires st2 == st.(nextReg := st2.nextReg) && Emit(st2, i) == Ok(st')
    requires FinalNew(p, st', lo, |st.code|, n, outer) && Here(st, m, lo) && m.sh == sh
    ensures m' == m.(ip := |st.code|) && lo <= m'.ip && Runs(p, m, m', 0x100, -1)
  {
    hide Emit, Tidy;
    DescribedTidy(st, e, outer, |sh.upvals|);
    assert Lists(st, e) + outer == multiset(st2.pending) + outer;
    m' := EmitRuns(p, st2, i, outer, m, lo, st', n, -1, multiset{}, outer);
  }

  /** Code that is final after the instruction is final before it. */
  lemma CompBack(p: Program, st: State, op: CompOp, d1: Desc, d2: Desc, st': State, d': Desc, lo: int,
                 outer: multiset<nat>, upvals: nat, n: int)
    requires Described(st, d2, outer, upvals) && LeftOk(st, d1) && EmitComp(st, op, d1, d2) == Ok((st', d'))
    requires n <= st.nextReg <= 253 && (d2.kind.LocalK? || d2.kind.NonRelocK? ==> d2.kind.r < st.actVar)
    requires FinalNew(p, st', lo, Stop(st', d'), n, outer) && d1.kind.r < n
    ensures Operand(st, d2).Ok?
    ensures var (st2, e2) := Operand(st, d2).value;
      var st3 := Release(Release(st2, d1), e2);
      && e2.kind.NonRelocK? && |st'.code| == |st3.code| + 1
      && FinalNew(p, st2, lo, |st2.code|, n, outer)
      && st'.code[|st3.code|] == InstrABC(Comp(op), 0, d1.kind.r, e2.kind.r)
  {
    hide Operand, Emit, Described, Final, Grows, EmitComp, KindOk, Tidy, FinalNew, Lists, ReadsBelow;
    CompSteps(st, op, d1, d2);
    CompShape(st, op, d1, d2, outer, upvals, n);
    OperandShape(st, d2, outer, upvals, n);
    DescribedRegs(st, d2, outer, upvals);
    var (st2, e2) := Operand(st, d2).value;
    GrowsActVar(st, Stop(st, d2), st2, n);
    var st3 := Release(Release(st2, d1), e2);
    var i := InstrABC(Comp(op), 0, d1.kind.r, e2.kind.r);
    DescribedRegs(st2, e2, outer, upvals);
    ReadsABC(Comp(op), 0, d1.kind.r, e2.kind.r, st2.maxReg);
    EmitFinalBack(p, st3, i, st', st2, e2, lo, outer, upvals, n);
  }

  lemma CompRuns(p: Program, st: State, op: CompOp, d1: Desc, d2: Desc, st': State, d': Desc, b: Value,
                 v: Result<Value>,
                 m: Machine, lo: int, sh: Shared, outer: multiset<nat>, n: int) returns (m': Machine)
    requires Described(st, d2, outer, |sh.upvals|) && LeftOk(st, d1) && EmitComp(st, op, d1, d2) == Ok((st', d'))
    requires n <= st.nextReg <= 253 && (d2.kind.LocalK? || d2.kind.NonRelocK? ==> d2.kind.r < st.actVar)
    requires FinalNew(p, st', lo, Stop(st', d'), n, outer) && Arrived(p, st, d2, v, m, lo, sh)
    requires d1.kind.r < n && d1.kind.r < NO_REG && (m.Running? ==> m.regs[d1.kind.r] == b)
    ensures Arrived(p, st', d', if v.Ok? then CompValue(p.w, op, b, v.value) else v, m', lo, sh)
    ensures if m.Running? then Runs(p, m, m', n, -1) else m' == m
  {
    hide Operand, Emit, Described, Final, Grows, EmitComp, KindOk, CompValue, Tidy, Falsey, FinalNew, LeftBy, Lists;
    hide ReadsBelow;
    CompSteps(st, op, d1, d2);
    CompShape(st, op, d1, d2, outer, |sh.upvals|, n);
    OperandShape(st, d2, outer, |sh.upvals|, n);
    DescribedRegs(st, d2, outer, |sh.upvals|);
    var (st2, e2) := Operand(st, d2).value;
    GrowsActVar(st, Stop(st, d2), st2, n);
    var st3 := Release(Release(st2, d1), e2);
    var i := InstrABC(Comp(op), 0, d1.kind.r, e2.kind.r);
    DescribedParts(st2, e2, outer, |sh.upvals|);
    CompBack(p, st, op, d1, d2, st', d', lo, outer, |sh.upvals|, n);
    var m1 := OperandRuns(p, st, d2, st2, e2, v, m, lo, sh, outer, n);
    m' := m1;
    if m1.Running? {
      m' := CombineRuns(p, st2, e2, st3, i, st', m1, lo, sh, outer, n);
      RunsMono(p, m1, m', 0x100, -1, n, -1);
      RunsTrans(p, m, m1, m', n, -1);
      CompEnd(p, st', op, d1, e2, d', b, v, m', lo, sh, outer, n);
    }
  }

  lemma CompEnd(p: Program, st': State, op: CompOp, d1: Desc, e2: Desc, d': Desc, b: Value,
                v: Result<Value>, m: Machine, lo: int, sh: Shared, outer: multiset<nat>, n: int)
    requires |st'.code| >= 1 && d'.kind == RelocK(|st'.code| - 1) && d1.kind.NonRelocK? && e2.kind.NonRelocK?
    requires m.Running? && m.sh == sh && lo <= m.ip == |st'.code| - 1
    requires Described(st', d', outer, |sh.upvals|) && FinalNew(p, st', lo, |st'.code| - 1, n, outer)
    requires st'.code[|st'.code| - 1] == InstrABC(Comp(op), 0, d1.kind.r, e2.kind.r)
    requires m.regs[d1.kind.r] == b && v.Ok? && v.value == m.regs[e2.kind.r]
    ensures Arrived(p, st', d', CompValue(p.w, op, b, v.value), m, lo, sh)
  {
    DescribedParts(st', d', outer, |sh.upvals|);
  }

  lemma EmitFinalBack(p: Program, st: State, i: Instr, st': State, st2: State, e: Desc, lo: int,
                      outer: multiset<nat>, upvals: nat, n: int)
    requires Described(st2, e, outer, upvals) && !e.kind.RelocK? && !HasJump(e) && st == st2.(nextReg := st.nextReg)
    requires st.actVar <= st.nextReg + 1 && st.nextReg <= st2.nextReg
    requires (i.op.ArithVV? || i.op.Comp? || (i.op.ArithVK? && i.C() < |st.consts|) ||
        ((i.op.Negate? || i.op.Not?) && i.d < 0x100))
    requires i.a == 0 && Emit(st, i) == Ok(st') && ReadsBelow(i, st.maxReg)
    requires FinalNew(p, st', lo, |st.code|, n, outer) && n <= NO_REG
    ensures FinalNew(p, st2, lo, |st2.code|, n, outer) && st'.code[|st.code|] == i
  {
    hide Emit, Described, Final, Grows;
    ReleaseShape(st2, e, st, outer, upvals);
    EmitReloc(st, Nothing(), i, outer, upvals);
    FinalBack(p, st, |st.code|, st', |st.code|, lo, n, NO_REG, -1, multiset{}, multiset{}, outer);
    FinalRegs(p, st, lo, |st.code|, n, outer, st2);
  }

  lemma ArrivedConsts(p: Program, st: State, d: Desc, v: Result<Value>, m: Machine, lo: int, sh: Shared, st2: State)
    requires Arrived(p, st, d, v, m, lo, sh) && !d.kind.GlobalK? && !d.kind.RelocK?
    requires st2 == st.(consts := st2.consts) && st.consts <= st2.consts <= p.consts
    ensures Arrived(p, st2, d, v, m, lo, sh)
  {
  }

  lemma ArithOperandSteps(st: State, d: Desc)
    requires ArithOperand(st, d).Ok?
    ensures ToVal(st, d).Ok?
    ensures var (st1, d1) := ToVal(st, d).value;
      var (st2, i) := if IsConst(d1) then AddConst(st1, ConstOf(d1)) else (st1, 0);
      if IsConst(d1) && i <= 0xff then ArithOperand(st, d) == Ok(Right(st2, d1, true, i))
      else
        && AnyReg(st2, d1).Ok?
        && var (st3, d3) := AnyReg(st2, d1).value;
          ArithOperand(st, d) == Ok(Right(st3, d3, false, RegOf(d3)))
  {
    hide ToVal, AnyReg;
  }

  lemma ArithOperandRuns(p: Program, st: State, d: Desc, o: Right, v: Result<Value>, m: Machine, lo: int,
                         sh: Shared, outer: multiset<nat>, n: int) returns (m': Machine)
    requires Described(st, d, outer, |sh.upvals|) && n <= st.nextReg <= 253 && Usable(st, d)
    requires ArithOperand(st, d) == Ok(o)
    requires FinalNew(p, o.st, lo, |o.st.code|, n, outer) && Arrived(p, st, d, v, m, lo, sh)
    ensures Arrived(p, o.st, o.d, v, m', lo, sh)
    ensures if m.Running? then Runs(p, m, m', n, -1) else m' == m
  {
    hide ToVal, AnyReg, Described, Arrived, Grows, Final, ArithOperand;
    ArithOperandSteps(st, d);
    ToValShape(st, d, outer, |sh.upvals|, n);
    var (st1, d1) := ToVal(st, d).value;
    var (st2, i) := if IsConst(d1) then AddConst(st1, ConstOf(d1)) else (st1, 0);
    FinalConsts(p, o.st, lo, |o.st.code|, n, -1, multiset{}, outer);
    if IsConst(d1) {
      AddConstShape(st1, d1, ConstOf(d1), outer, |sh.upvals|);
    } else {
      DescribedTidy(st1, d1, outer, |sh.upvals|);
    }
    if IsConst(d1) && i <= 0xff {
      FinalTrim(p, o.st, lo, |o.st.code|, n, outer, st1);
      m' := ToValRuns(p, st, d, st1, d1, v, m, lo, sh, outer, n);
      ArrivedConsts(p, st1, d1, v, m', lo, sh, st2);
    } else {
      AnyRegShape'(st2, d1, outer, |sh.upvals|, n);
      var st3 := o.st;
      GrowsActVar(st2, Stop(st2, d1), st3, n);
      FinalBack(p, st2, Stop(st2, d1), st3, |st3.code|, lo, n, n, -1, multiset{}, multiset{}, outer);
      FinalTrim(p, st2, lo, Stop(st2, d1), n, outer, st1);
      var m1 := ToValRuns(p, st, d, st1, d1, v, m, lo, sh, outer, n);
      if IsConst(d1) {
        GrowsConsts(st2, Stop(st2, d1), st3, n);
        ArrivedConsts(p, st1, d1, v, m1, lo, sh, st2);
      }
      m' := AnyRegRuns'(p, st2, d1, st3, o.d, v, m1, lo, sh, outer, n);
      if m.Running? {
        RunsTrans(p, m, m1, m', n, -1);
      }
    }
  }

  lemma GrowsConsts(st: State, hi: int, st': State, n: int)
    requires Grows(st, hi, st', n)
    ensures st.consts <= st'.consts
  {
  }

  lemma FinalTrim(p: Program, st: State, lo: int, hi: int, n: int, outer: multiset<nat>, st1: State)
    requires FinalNew(p, st, lo, hi, n, outer) && st.code == st1.code && st1.consts <= st.consts
    ensures FinalNew(p, st1, lo, hi, n, outer)
  {
  }

  /** exprAnyReg, also when every register below 254 is taken and none is needed. */
  lemma AnyRegShape'(st: State, d: Desc, outer: multiset<nat>, upvals: nat, n: int)
    requires Described(st, d, outer, upvals) && AnyReg(st, d).Ok? && n <= st.nextReg <= 254 && Usable(st, d)
    requires st.nextReg <= 253 || (d.kind.NonRelocK? && !HasJump(d))
    ensures var (st', d') := AnyReg(st, d).value;
      Described(st', d', outer, upvals) && Grows(st, Stop(st, d), st', n) && d'.kind.NonRelocK? && !HasJump(d')
  {
    hide AnyReg, Described, Grows;
    if st.nextReg <= 253 {
      AnyRegShape(st, d, outer, upvals, n);
    } else {
      HereStays(st, d);
      GrowsRefl'(st, n);
    }
  }

  lemma GrowsRefl'(st: State, n: int)
    requires n <= NO_REG
    ensures Grows(st, |st.code|, st, n)
  {
    GrowsRefl(st, |st.code|, n);
  }

  lemma AnyRegRuns'(p: Program, st: State, d: Desc, st': State, d': Desc, v: Result<Value>, m: Machine, lo: int,
                    sh: Shared, outer: multiset<nat>, n: int) returns (m': Machine)
    requires Described(st, d, outer, |sh.upvals|) && n <= st.nextReg <= 254 && Usable(st, d)
    requires st.nextReg <= 253 || (d.kind.NonRelocK? && !HasJump(d))
    requires AnyReg(st, d) == Ok((st', d'))
    requires FinalNew(p, st', lo, Stop(st', d'), n, outer) && Arrived(p, st, d, v, m, lo, sh)
    ensures Arrived(p, st', d', v, m', lo, sh)
    ensures if m.Running? then Runs(p, m, m', n, -1) else m' == m
  {
    hide AnyReg, Described, Arrived, Final;
    if st.nextReg <= 253 {
      m' := AnyRegRuns(p, st, d, st', d', v, m, lo, sh, outer, n);
    } else {
      HereStays(st, d);
      m' := m;
      if m.Running? {
        RunsRefl(p, m, n, -1);
      }
    }
  }

  /** The same for an arithmetic operator. */
  lemma ArithBack(p: Program, st: State, op: ArithOp, d1: Desc, d2: Desc, st': State, d': Desc, lo: int,
                  outer: multiset<nat>, upvals: nat, n: int)
    requires Described(st, d2, outer, upvals) && LeftOk(st, d1) && EmitArith(st, op, d1, d2) == Ok((st', d'))
    requires n <= st.nextReg <= 253 && (d2.kind.LocalK? || d2.kind.NonRelocK? ==> d2.kind.r < st.actVar)
    requires FinalNew(p, st', lo, Stop(st', d'), n, outer) && d1.kind.r < n
    ensures ArithOperand(st, d2).Ok?
    ensures var o := ArithOperand(st, d2).value;
      var st3 := Release(Release(o.st, d1), o.d);
      && |st'.code| == |st3.code| + 1 && FinalNew(p, o.st, lo, |o.st.code|, n, outer)
      && st'.code[|st3.code|] == InstrABC(if o.vk then ArithVK(op) else ArithVV(op), 0, d1.kind.r, o.rc)
  {
    hide ArithOperand, Emit, Described, Final, Grows, EmitArith, Lists, KindOk, ReadsBelow;
    ArithSteps(st, op, d1, d2);
    ArithShape(st, op, d1, d2, outer, upvals, n);
    ArithOperandShape(st, d2, outer, upvals, n);
    DescribedRegs(st, d2, outer, upvals);
    var o := ArithOperand(st, d2).value;
    GrowsActVar(st, Stop(st, d2), o.st, n);
    var st3 := Release(Release(o.st, d1), o.d);
    var i := InstrABC(if o.vk then ArithVK(op) else ArithVV(op), 0, d1.kind.r, o.rc);
    DescribedRegs(o.st, o.d, outer, upvals);
    ReadsABC(i.op, 0, d1.kind.r, o.rc, o.st.maxReg);
    EmitFinalBack(p, st3, i, st', o.st, o.d, lo, outer, upvals, n);
  }

  lemma ArithRuns(p: Program, st: State, op: ArithOp, d1: Desc, d2: Desc, st': State, d': Desc, b: Value,
                  v: Result<Value>,
                  m: Machine, lo: int, sh: Shared, outer: multiset<nat>, n: int) returns (m': Machine)
    requires Described(st, d2, outer, |sh.upvals|) && LeftOk(st, d1) && EmitArith(st, op, d1, d2) == Ok((st', d'))
    requires n <= st.nextReg <= 253 && (d2.kind.LocalK? || d2.kind.NonRelocK? ==> d2.kind.r < st.actVar)
    requires FinalNew(p, st', lo, Stop(st', d'), n, outer) && Arrived(p, st, d2, v, m, lo, sh)
    requires d1.kind.r < n && d1.kind.r < NO_REG && (m.Running? ==> m.regs[d1.kind.r] == b)
    ensures Arrived(p, st', d', if v.Ok? then ArithValue(p.w, op, b, v.value) else v, m', lo, sh)
    ensures if m.Running? then Runs(p, m, m', n, -1) else m' == m
  {
    hide ArithOperand, Emit, Described, Final, Grows, EmitArith, Falsey, LeftBy, Lists, KindOk, ReadsBelow;
    ArithSteps(st, op, d1, d2);
    ArithShape(st, op, d1, d2, outer, |sh.upvals|, n);
    ArithOperandShape(st, d2, outer, |sh.upvals|, n);
    DescribedRegs(st, d2, outer, |sh.upvals|);
    var o := ArithOperand(st, d2).value;
    GrowsActVar(st, Stop(st, d2), o.st, n);
    var st3 := Release(Release(o.st, d1), o.d);
    var i := InstrABC(if o.vk then ArithVK(op) else ArithVV(op), 0, d1.kind.r, o.rc);
    DescribedRegs(o.st, o.d, outer, |sh.upvals|);
    ArithBack(p, st, op, d1, d2, st', d', lo, outer, |sh.upvals|, n);
    var m1 := ArithOperandRuns(p, st, d2, o, v, m, lo, sh, outer, n);
    m' := m1;
    if m1.Running? {
      m' := CombineRuns(p, o.st, o.d, st3, i, st', m1, lo, sh, outer, n);
      RunsMono(p, m1, m', 0x100, -1, n, -1);
      RunsTrans(p, m, m1, m', n, -1);
      FinalConsts(p, o.st, lo, |o.st.code|, n, -1, multiset{}, outer);
      ArithEnd(p, st, op, d1, o, st3, st', d', b, v, m', lo, sh, outer, n);
    }
  }

  lemma ArithEnd(p: Program, st: State, op: ArithOp, d1: Desc, o: Right, st3: State, st': State, d': Desc, b: Value,
                 v: Result<Value>, m: Machine, lo: int, sh: Shared, outer: multiset<nat>, n: int)
    requires m.Running? && m.sh == sh && lo <= m.ip == |st3.code| && d'.kind == RelocK(|st3.code|) && d1.kind.NonRelocK?
    requires Described(st', d', outer, |sh.upvals|) && FinalNew(p, st', lo, |st3.code|, n, outer)
    requires st'.code[|st3.code|] == InstrABC(if o.vk then ArithVK(op) else ArithVV(op), 0, d1.kind.r, o.rc)
    requires m.regs[d1.kind.r] == b && v.Ok?
    requires if o.vk then o.rc < |p.consts| && v.value == p.consts[o.rc] else v.value == m.regs[o.rc]
    ensures Arrived(p, st', d', ArithValue(p.w, op, b, v.value), m, lo, sh)
  {
    hide Described, ReadsBelow;
    DescribedParts(st', d', outer, |sh.upvals|);
  }

  lemma UnaryRuns(p: Program, st: State, op: Op, d: Desc, st': State, d': Desc, v: Result<Value>,
                  m: Machine, lo: int, sh: Shared, outer: multiset<nat>, n: int) returns (m': Machine)
    requires Described(st, d, outer, |sh.upvals|)
    requires EmitUnary(st, op, d) == Ok((st', d')) && (op == Negate || op == Not)
    requires n <= st.nextReg <= 253 && (d.kind.LocalK? || d.kind.NonRelocK? ==> d.kind.r < st.actVar)
    requires |st'.code| <= 0x1_0000
    requires FinalNew(p, st', lo, Stop(st', d'), n, outer) && Arrived(p, st, d, v, m, lo, sh)
    ensures Arrived(p, st', d', UnaryValue(p.w, op, v), m', lo, sh)
    ensures if m.Running? then Runs(p, m, m', n, -1) else m' == m
  {
    hide AnyReg, Emit, Described, Final, Grows, Falsey, LeftBy, Lists, KindOk, Tidy, Runs;
    UnaryShape(st, op, d, outer, |sh.upvals|, n);
    AnyRegShape(st, d, outer, |sh.upvals|, n);
    DescribedRegs(st, d, outer, |sh.upvals|);
    var (st1, d1) := AnyReg(st, d).value;
    DescribedParts(st1, d1, outer, |sh.upvals|);
    GrowsActVar(st, Stop(st, d), st1, n);
    var st2 := ExprFree(st1, d1);
    var i := Instr(op, 0, d1.kind.r);
    EmitFinalBack(p, st2, i, st', st1, d1, lo, outer, |sh.upvals|, n);
    var m1 := AnyRegRuns(p, st, d, st1, d1, v, m, lo, sh, outer, n);
    m' := m1;
    if m1.Running? {
      m' := CombineRuns(p, st1, d1, st2, i, st', m1, lo, sh, outer, n);
      RunsMono(p, m1, m', 0x100, -1, n, -1);
      RunsTrans(p, m, m1, m', n, -1);
      DescribedParts(st', d', outer, |sh.upvals|);
      FinalConsts(p, st', lo, Stop(st', d'), n, -1, multiset{}, outer);
    }
  }

  function UnaryValue(w: World, op: Op, v: Result<Value>): Result<Value> {
    if v.Err? then v
    else if op == Not then Ok(Bool(Falsey(w, v.value)))
    else NegateValue(w, v.value)
  }

  // ----- branches -----

  /** The test of this description copies to a destination x other than the tested register. */
  predicate KindCopies(st: State, d: Desc, x: int) {
    match d.kind
    case LocalK(r) => r != x
    case NonRelocK(r) => r != x
    case RelocK(pos) => At(st.code, pos).op != Not
    case _ => true
  }

  /** A test without destination at m.ip, whatever became of it. */
  lemma TestRuns(p: Program, st: State, m: Machine, cond: bool, r: Reg, lo: int, n: int, x: int,
                 own: multiset<nat>, out: multiset<nat>)
      returns (m': Machine)
    requires Final(p, st, lo, |st.code|, n, x, own, out)
    requires m.Running? && lo <= m.ip && m.ip + 2 == |st.code| && n <= NO_REG
    requires st.code[m.ip] == Instr(CopyJumpIf(cond), NO_REG, r) && Open(st.code, m.ip + 1)
    requires m.ip + 1 !in out
    ensures m'.Running? && Runs(p, m, m', n, if r != x then x else -1)
    ensures var v := m.regs[r];
      if !Falsey(p.w, v) == cond then m'.ip == m.ip + 1 && LeftBy(p, st.code, m', v) else m'.ip == |st.code|
  {
    assert LaterAt(st.code, p.code, m.ip, n, x, own);
    assert LaterAt(st.code, p.code, m.ip + 1, n, x, own);
    m' := Step(p, m);
    RunsStep(p, m, n, if r != x then x else -1);
  }

  /** OP_NOT turned into a test: the negated value is the truth itself. */
  lemma NotRuns(p: Program, st: State, m: Machine, cond: bool, r: Reg, lo: int, n: int, x: int, own: multiset<nat>,
                out: multiset<nat>)
      returns (m': Machine)
    requires Final(p, st, lo, |st.code|, n, x, own, out)
    requires m.Running? && lo <= m.ip && m.ip + 2 == |st.code|
    requires st.code[m.ip] == Instr(JumpIf(!cond), 0, r) && Open(st.code, m.ip + 1)
    requires m.ip + 1 !in out
    ensures m'.Running? && Runs(p, m, m', 0x100, -1)
    ensures var v := Bool(Falsey(p.w, m.regs[r]));
      if !Falsey(p.w, v) == cond then m'.ip == m.ip + 1 && LeftBy(p, st.code, m', v) else m'.ip == |st.code|
  {
    FinalWord(p, st, lo, |st.code|, n, x, own, out, m.ip);
    assert LaterAt(st.code, p.code, m.ip + 1, n, x, own);
    m' := Step(p, m);
    RunsStep(p, m, 0x100, -1);
  }

  /** After emit_branch: at the new jump, past it, or still at an older jump. */
  ghost predicate AfterBranch(p: Program, st': State, d: Desc, cond: bool, v: Result<Value>, m: Machine, lo: int,
                              sh: Shared) {
    if m.Running? then
      && m.sh == sh && v.Ok?
      && (|| AtJump(p, st', d, v.value, m, lo)
          || (if !Falsey(p.w, v.value) == cond then lo < m.ip == |st'.code| - 1 && LeftBy(p, st'.code, m, v.value)
              else lo <= m.ip == |st'.code|))
    else v.Err? && m == Failed(v.msg, sh)
  }

  lemma BranchRuns(p: Program, st: State, d: Desc, cond: bool, st': State, pc: seq<nat>, v: Result<Value>, m: Machine,
                   lo: int, sh: Shared, outer: multiset<nat>, n: int, x: int, own: multiset<nat>, out: multiset<nat>)
      returns (m': Machine)
    requires out == outer
    requires Described(st, d, outer, |sh.upvals|) && Branch(st, d, cond) == Ok((st', pc)) && n <= st.nextReg <= 253
    requires !d.kind.LocalK? && !d.kind.GlobalK? && !d.kind.UpvalK? && (d.kind.NonRelocK? ==> d.kind.r < st.actVar)
    requires Final(p, st', lo, |st'.code|, n, x, own, out) && Arrived(p, st, d, v, m, lo, sh)
    ensures AfterBranch(p, st', d, cond, v, m', lo, sh)
    ensures if m.Running? then Runs(p, m, m', n, if KindCopies(st, d, x) then x else -1) else m' == m
  {
    hide Branch, Described, Final, LeftBy, Grows;
    m' := m;
    if m.Running? {
      BranchShape(st, d, cond, outer, |sh.upvals|);
      if v.Ok? && AtJump(p, st, d, v.value, m, lo) {
        RunsRefl(p, m, n, if KindCopies(st, d, x) then x else -1);
        BranchKeeps(p, st, d, cond, st', pc, v.value, m, lo, outer, |sh.upvals|);
      } else if d.kind.RelocK? && At(st.code, d.kind.pos).op == Not {
        BranchNot(st, d, cond, outer, |sh.upvals|);
        DescribedParts(st, d, outer, |sh.upvals|);
        BranchOpen(st', pc, d, outer);
        m' := NotRuns(p, st', m, cond, st.code[d.kind.pos].d, lo, n, x, own, out);
        RunsMono(p, m, m', 0x100, -1, n, if KindCopies(st, d, x) then x else -1);
      } else {
        m' := BranchOtherRuns(p, st, d, cond, st', pc, v, m, lo, sh, outer, n, x, own, out);
      }
    }
  }

  lemma BranchKeeps(p: Program, st: State, d: Desc, cond: bool, st': State, pc: seq<nat>, v: Value, m: Machine,
                    lo: int, outer: multiset<nat>, upvals: nat)
    requires Described(st, d, outer, upvals) && m.Running? && AtJump(p, st, d, v, m, lo)
    requires Sound(st', |st'.code|, multiset(pc) + (multiset(d.tj) + multiset(d.fj) + outer))
    requires Grows(st, Stop(st, d), st', NO_REG)
    ensures AtJump(p, st', d, v, m, lo)
  {
    var lists' := multiset(pc) + (multiset(d.tj) + multiset(d.fj) + outer);
    JumpKept(p, st, d, st', d, v, m, lo, Stop(st, d), NO_REG, Lists(st, d) + outer, lists');
  }

  lemma BranchOpen(st': State, pc: seq<nat>, d: Desc, outer: multiset<nat>)
    requires Sound(st', |st'.code|, multiset(pc) + (multiset(d.tj) + multiset(d.fj) + outer))
    requires |st'.code| >= 1 && pc == [|st'.code| - 1]
    ensures Open(st'.code, |st'.code| - 1) && |st'.code| - 1 !in outer
  {
    var lists := multiset(pc) + (multiset(d.tj) + multiset(d.fj) + outer);
    ListOpen(st'.code, lists, pc, pc[0]);
    assert lists[pc[0]] <= 1;
  }

  lemma BranchOperandRuns(p: Program, st: State, d: Desc, st': State, d': Desc, v: Result<Value>, m: Machine, lo: int,
                          sh: Shared, outer: multiset<nat>, n: int, x: int, own: multiset<nat>, out: multiset<nat>)
      returns (m': Machine)
    requires Described(st, d, outer, |sh.upvals|) && BranchOperand(st, d) == Ok((st', d')) && n <= st.nextReg <= 253
    requires !d.kind.LocalK? && !d.kind.GlobalK? && !d.kind.UpvalK?
    requires Final(p, st', lo, |st'.code|, n, x, own, out) && Arrived(p, st, d, v, m, lo, sh)
    ensures Arrived(p, st', d', v, m', lo, sh)
    ensures if m.Running? then Runs(p, m, m', n, if d.kind.NonRelocK? then -1 else x) else m' == m
  {
    hide ToRegNoBranch, Described, Final, Arrived;
    if d.kind.NonRelocK? {
      m' := m;
      if m.Running? {
        RunsRefl(p, m, n, -1);
      }
    } else {
      ReserveShape(st, d, outer, |sh.upvals|);
      var st0 := RegReserve(st);
      ArrivedRegs(p, st, d, v, m, lo, sh, st0);
      m' := ToRegNoBranchRuns(p, st0, d, st.nextReg, st', d', v, m, lo, sh, outer, n, x, own, out);
    }
  }

  lemma BranchOtherRuns(p: Program, st: State, d: Desc, cond: bool, st': State, pc: seq<nat>, v: Result<Value>,
                        m: Machine,
                        lo: int, sh: Shared, outer: multiset<nat>, n: int, x: int, own: multiset<nat>, out: multiset<nat>)
                            returns (m': Machine)
    requires out == outer
    requires Described(st, d, outer, |sh.upvals|) && Branch(st, d, cond) == Ok((st', pc)) && n <= st.nextReg <= 253
    requires !d.kind.LocalK? && !d.kind.GlobalK? && !d.kind.UpvalK? && (d.kind.NonRelocK? ==> d.kind.r < st.actVar)
    requires !(d.kind.RelocK? && At(st.code, d.kind.pos).op == Not)
    requires Final(p, st', lo, |st'.code|, n, x, own, out) && Arrived(p, st, d, v, m, lo, sh)
    requires m.Running? && !(v.Ok? && AtJump(p, st, d, v.value, m, lo))
    ensures AfterBranch(p, st', d, cond, v, m', lo, sh)
    ensures Runs(p, m, m', n, if KindCopies(st, d, x) then x else -1)
  {
    hide Branch, BranchOperand, Emit, EmitJump, Described, Final, LeftBy, Grows;
    var y := if KindCopies(st, d, x) then x else -1;
    BranchSteps(st, d, cond);
    BranchOperandShape(st, d, outer, |sh.upvals|);
    var (st1, d1) := BranchOperand(st, d).value;
    TestEmitted(p, st1, d1, cond, lo, outer, |sh.upvals|, n, x, own, out, st');
    var m1 := BranchOperandRuns(p, st, d, st1, d1, v, m, lo, sh, outer, n, x, own, out);
    RunsMono(p, m, m1, n, if d.kind.NonRelocK? then -1 else x, n, y);
    m' := m1;
    if m1.Running? {
      if v.Ok? && AtJump(p, st1, d1, v.value, m1, lo) {
        TestKeepsJump(p, st1, d1, cond, v.value, m1, lo, outer, |sh.upvals|, st');
      } else {
        var i := Instr(CopyJumpIf(cond), NO_REG, d1.kind.r);
        var own' := multiset(d1.tj) + multiset(d1.fj) + outer;
        DescribedTidy(st1, d1, outer, |sh.upvals|);
        assert Lists(st1, d1) + outer == multiset(st1.pending) + own';
        var m2 := EmitRuns(p, st1, i, own', m1, lo, Emit(st1, i).value, n, x, own, out);
        m' := TestRuns(p, st', m2, cond, d1.kind.r, lo, n, x, own, out);
        RunsMono(p, m1, m2, 0x100, -1, n, y);
        RunsMono(p, m2, m', n, if d1.kind.r != x then x else -1, n, y);
        RunsTrans(p, m1, m2, m', n, y);
        RunsTrans(p, m, m1, m', n, y);
      }
    }
  }

  /** The code around the test that emit_branch emits after its operand. */
  lemma TestEmitted(p: Program, st1: State, d1: Desc, cond: bool, lo: int, outer: multiset<nat>, upvals: nat,
                    n: int, x: int, own: multiset<nat>, out: multiset<nat>, st': State)
    requires Described(st1, d1, outer, upvals) && d1.kind.NonRelocK? && n <= NO_REG
    requires var i := Instr(CopyJumpIf(cond), NO_REG, d1.kind.r);
      Emit(st1, i).Ok? && EmitJump(Emit(st1, i).value).Ok? && st' == ExprFree(EmitJump(Emit(st1, i).value).value.0, d1)
    requires Final(p, st', lo, |st'.code|, n, x, own, out)
    ensures var i := Instr(CopyJumpIf(cond), NO_REG, d1.kind.r);
      && Final(p, st1, lo, |st1.code|, n, x, own, out) && Final(p, Emit(st1, i).value, lo, |st1.code|, n, x, own, out)
      && |st'.code| == |st1.code| + 2 && st'.code[|st1.code|] == i && Open(st'.code, |st1.code| + 1)
      && |st1.code| + 1 !in outer
      && Grows(st1, |st1.code|, st', NO_REG)
  {
    hide Emit, EmitJump, Described, Final;
    var i := Instr(CopyJumpIf(cond), NO_REG, d1.kind.r);
    var own' := multiset(d1.tj) + multiset(d1.fj) + outer;
    DescribedParts(st1, d1, outer, upvals);
    TestAndJump(st1, cond, d1.kind.r, own');
    var st2 := Emit(st1, i).value;
    var (st3, pc) := EmitJump(st2).value;
    BranchOpen(st3, pc, d1, outer);
    EmitShape(st1, i, own');
    EmitBounds(st1, i, own', |st1.code|);
    assert own' + Opened(i, |st1.code|) == multiset(st2.pending) + own';
    BoundedTest(st2);
    EmitJumpShape(st2, own');
    GrowsBack(st3, |st3.code|, st', NO_REG);
    GrowsTrans(st1, |st1.code|, st3, |st3.code|, st', NO_REG, NO_REG);
    GrowsTrans(st2, |st2.code|, st3, |st3.code|, st', NO_REG, NO_REG);
    FinalBack(p, st1, |st1.code|, st', |st'.code|, lo, n, NO_REG, x, own, own, out);
    FinalBack(p, st2, |st2.code|, st', |st'.code|, lo, n, NO_REG, x, own, own, out);
    FinalShort(p, st2, lo, |st2.code|, |st1.code|, n, x, own, out);
  }

  lemma GrowsBack(st: State, hi: int, st': State, n: int)
    requires st' == st.(nextReg := st'.nextReg) && hi <= |st.code| && n <= NO_REG
    ensures Grows(st, hi, st', n)
  {
    GrowsRefl(st, hi, n);
  }

  lemma TestKeepsJump(p: Program, st1: State, d1: Desc, cond: bool, v: Value, m: Machine, lo: int,
                      outer: multiset<nat>, upvals: nat, st': State)
    requires Described(st1, d1, outer, upvals) && d1.kind.NonRelocK? && m.Running? && AtJump(p, st1, d1, v, m, lo)
    requires var i := Instr(CopyJumpIf(cond), NO_REG, d1.kind.r);
      Emit(st1, i).Ok? && EmitJump(Emit(st1, i).value).Ok? && st' == ExprFree(EmitJump(Emit(st1, i).value).value.0, d1)
    requires Grows(st1, |st1.code|, st', NO_REG)
    ensures AtJump(p, st', d1, v, m, lo)
  {
    hide Emit, EmitJump, Described, LeftBy;
    var own' := multiset(d1.tj) + multiset(d1.fj) + outer;
    DescribedParts(st1, d1, outer, upvals);
    DescribedTidy(st1, d1, outer, upvals);
    TestAndJump(st1, cond, d1.kind.r, own');
    var (st3, pc) := EmitJump(Emit(st1, Instr(CopyJumpIf(cond), NO_REG, d1.kind.r)).value).value;
    JumpKept(p, st1, d1, st', d1, v, m, lo, |st1.code|, NO_REG, Lists(st1, d1) + outer, multiset(pc) + own');
  }

  /** After emit_branch_true or emit_branch_false: here when the value has that truth, else
      at a jump of the list. */
  ghost predicate Branched(p: Program, st: State, leave: seq<nat>, truth: bool, v: Result<Value>, m: Machine,
                           lo: int, sh: Shared) {
    if m.Running? then
      && m.sh == sh && v.Ok?
      && (if !Falsey(p.w, v.value) == truth then Here(st, m, lo)
          else lo < m.ip && m.ip in leave && LeftBy(p, st.code, m, v.value))
    else v.Err? && m == Failed(v.msg, sh)
  }

  lemma BranchedEnd(p: Program, st2: State, d1: Desc, truth: bool, pc: seq<nat>, v: Result<Value>, m: Machine,
                    lo: int, sh: Shared)
    requires AfterBranch(p, st2, d1, !truth, v, m, lo, sh) && |st2.code| >= 1 && pc == [|st2.code| - 1]
    ensures var stay, away := if truth then d1.tj else d1.fj, if truth then d1.fj else d1.tj;
      Branched(p, st2.(pending := stay), away + pc, truth, v, m, lo, sh)
  {
    hide LeftBy;
  }

  lemma BranchOnRuns(p: Program, st: State, d: Desc, truth: bool, st': State, leave: seq<nat>, v: Result<Value>,
                     m: Machine,
                     lo: int, sh: Shared, outer: multiset<nat>, n: int, x: int, own: multiset<nat>, out: multiset<nat>)
      returns (m': Machine)
    requires out == outer
    requires Described(st, d, outer, |sh.upvals|)
    requires BranchOn(st, d, truth) == Ok((st', leave)) && n <= st.nextReg <= 253
    requires d.kind.NonRelocK? || d.kind.LocalK? ==> d.kind.r < st.actVar
    requires Final(p, st', lo, |st'.code|, n, x, own, out) && Arrived(p, st, d, v, m, lo, sh)
    ensures Branched(p, st', leave, truth, v, m', lo, sh)
    ensures if m.Running? then Runs(p, m, m', n, if KindCopies(st, d, x) then x else -1) else m' == m
  {
    hide Discharge, Branch, BranchOn, Described, Final, Arrived, AfterBranch, Branched, Grows;
    DischargeFirst(st, d, truth);
    DischargeShape(st, d, outer, |sh.upvals|);
    var (st1, d1) := Discharge(st, d).value;
    BranchOnParts(st, d, truth, st1, d1);
    DischargeCopies(st, d, x);
    BranchShape(st1, d1, !truth, outer, |sh.upvals|);
    var (st2, pc) := Branch(st1, d1, !truth).value;
    FinalAgain(p, st', st2, lo, |st'.code|, n, x, own, out);
    FinalBack(p, st1, Stop(st1, d1), st2, |st2.code|, lo, n, NO_REG, x, own, own, out) by {
      GrowsActVar(st1, Stop(st1, d1), st2, NO_REG);
    }
    var y := if KindCopies(st, d, x) then x else -1;
    var m1 := DischargeRuns(p, st, d, st1, d1, v, m, lo, sh, outer, n, x, own, out);
    m' := BranchRuns(p, st1, d1, !truth, st2, pc, v, m1, lo, sh, outer, n, x, own, out);
    BranchedEnd(p, st2, d1, truth, pc, v, m', lo, sh);
    if m.Running? {
      RunsMono(p, m, m1, 0x100, -1, n, y);
      RunsTrans(p, m, m1, m', n, y);
    }
  }

  lemma FinalAgain(p: Program, st: State, st2: State, lo: int, hi: int, n: int, x: int, own: multiset<nat>,
                   out: multiset<nat>)
    requires Final(p, st, lo, hi, n, x, own, out) && st2.code == st.code && st2.consts == st.consts
    ensures Final(p, st2, lo, hi, n, x, own, out)
  {
  }

  lemma DischargeCopies(st: State, d: Desc, x: int)
    requires Discharge(st, d).Ok?
    ensures var (st1, d1) := Discharge(st, d).value; KindCopies(st1, d1, x) == KindCopies(st, d, x)
  {
    if d.kind.UpvalK? || d.kind.GlobalK? {
      var i := if d.kind.UpvalK? then Instr(GetUpval, 0, d.kind.k) else Instr(GetGlobal, 0, d.kind.k);
      EmitLast(st, i);
    }
  }

  lemma EmitLast(st: State, i: Instr)
    requires Emit(st, i).Ok?
    ensures Emit(st, i).value.code[|st.code|] == i
  {
  }

  // ----- whole expressions -----

  ghost function OwnOf(d: Desc): multiset<nat> { multiset(d.tj) + multiset(d.fj) }

  /** The outcome of running the code of e from m0: its value, with the registers below n kept,
      except that a destination x may be overwritten early where Dirty says so. */
  ghost predicate Computes(p: Program, e: Expr, st': State, d: Desc, m0: Machine, m: Machine, lo: int, n: int, x: int) {
    && m0.Running?
    && Arrived(p, st', d, Eval(p.w, e, m0.regs, m0.sh), m, lo, m0.sh)
    && Runs(p, m0, m, n, if Dirty(e, x) then x else -1)
  }

  /** What compiling e from st demands. */
  ghost predicate Compilable(st: State, e: Expr, locals: nat, outer: multiset<nat>, upvals: nat) {
    && Sound(st, |st.code|, multiset(st.pending) + outer) && Compile(st, e).Ok?
    && WfExpr(e, locals, upvals) && locals <= st.actVar && locals <= st.nextReg
    && Level(st) + Need(e) <= 254
    && Short(st, e)
  }

  /** The jumps of a description are jumps of its own code. */
  lemma {:induction false} NewJumps(st: State, e: Expr, locals: nat, outer: multiset<nat>, upvals: nat)
    requires Compilable(st, e, locals, outer, upvals)
    ensures var d := Compile(st, e).value.1; forall j | j in d.tj || j in d.fj :: j > |st.code|
    decreases e
  {
    hide BranchOn, Discharge, AnyReg, EmitUnary, EmitArith, EmitComp, Sound;
    match e {
      case And(l, r) => NewJumpsLogic(st, l, r, true, locals, outer, upvals);
      case Or(l, r) => NewJumpsLogic(st, l, r, false, locals, outer, upvals);
      case _ => NoJumps(st, e);
    }
  }

  lemma NoJumps(st: State, e: Expr)
    requires !e.And? && !e.Or? && Compile(st, e).Ok?
    ensures !HasJump(Compile(st, e).value.1)
  {
    hide AnyReg, Emit, ArithOperand, Operand;
  }

  lemma {:induction false} NewJumpsLogic(st: State, l: Expr, r: Expr, truth: bool, locals: nat,
                                         outer: multiset<nat>, upvals: nat)
    requires Compilable(st, if truth then And(l, r) else Or(l, r), locals, outer, upvals)
    ensures var d := Compile(st, if truth then And(l, r) else Or(l, r)).value.1;
      forall j | j in d.tj || j in d.fj :: j > |st.code|
    decreases if truth then And(l, r) else Or(l, r), 0
  {
    hide BranchOn, Discharge, Compile, Described, Grows;
    LogicParts(st, l, r, truth, locals, outer, upvals);
    var (st1, d1) := Compile(st, l).value;
    var (st2, leave) := BranchOn(st1, d1, truth).value;
    NewJumps(st, l, locals, outer, upvals);
    NewJumps(st2, r, locals, multiset(leave) + outer, upvals);
    var (st3, d2) := Compile(st2, r).value;
    DischargeLists(st3, d2);
  }

  lemma DischargeLists(st: State, d: Desc)
    requires Discharge(st, d).Ok?
    ensures var d' := Discharge(st, d).value.1; d'.tj == d.tj && d'.fj == d.fj
  {
  }

  /** The left part of and/or, in shape. */
  lemma LogicLeft(st: State, l: Expr, r: Expr, truth: bool, locals: nat, outer: multiset<nat>, upvals: nat)
    requires Compilable(st, if truth then And(l, r) else Or(l, r), locals, outer, upvals)
    ensures Compilable(st, l, locals, outer, upvals)
    ensures var (st1, d1) := Compile(st, l).value;
      && Compiled(st, st1, d1, locals, outer, upvals) && st1.nextReg <= 253
      && BranchOn(st1, d1, truth).Ok?
      && var (st2, leave) := BranchOn(st1, d1, truth).value;
      && leave == (if truth then d1.fj else d1.tj) + [|st2.code| - 1] && |st1.code| < |st2.code|
      && Stop(st1, d1) < |st2.code| - 1
      && st1.actVar == st.actVar && st.nextReg <= st2.nextReg
      && Grows(st1, Stop(st1, d1), st2, NO_REG)
      && Compilable(st2, r, locals, multiset(leave) + outer, upvals)
  {
    hide Compile, BranchOn, Discharge, Described, Grows, Sound, Short;
    LogicSteps(st, l, r, truth);
    ShortConnective(st, l, r, truth);
    SoundRegsOf(st, |st.code|, multiset(st.pending) + outer);
    CompileShape(st, l, locals, outer, upvals);
    var (st1, d1) := Compile(st, l).value;
    GrowsActVar(st, |st.code|, st1, st.nextReg);
    DescribedRegs(st1, d1, outer, upvals);
    BranchOnShape(st1, d1, truth, outer, upvals);
    var (st2, leave) := BranchOn(st1, d1, truth).value;
    GrowsActVar(st1, Stop(st1, d1), st2, NO_REG);
  }

  lemma SoundRegsOf(st: State, hi: int, lists: multiset<nat>)
    requires Sound(st, hi, lists)
    ensures RegsOk(st)
  {
  }

  /** The parts of and/or, all in shape. */
  lemma LogicParts(st: State, l: Expr, r: Expr, truth: bool, locals: nat, outer: multiset<nat>, upvals: nat)
    requires Compilable(st, if truth then And(l, r) else Or(l, r), locals, outer, upvals)
    ensures Compilable(st, l, locals, outer, upvals)
    ensures var (st1, d1) := Compile(st, l).value;
      && Compiled(st, st1, d1, locals, outer, upvals) && st1.nextReg <= 253
      && BranchOn(st1, d1, truth).Ok?
      && var (st2, leave) := BranchOn(st1, d1, truth).value;
      && leave == (if truth then d1.fj else d1.tj) + [|st2.code| - 1] && |st1.code| < |st2.code|
      && Stop(st1, d1) < |st2.code| - 1
      && st1.actVar == st.actVar && st.nextReg <= st2.nextReg
      && Grows(st1, Stop(st1, d1), st2, NO_REG)
      && Compilable(st2, r, locals, multiset(leave) + outer, upvals)
      && var (st3, d2) := Compile(st2, r).value;
      && Compiled(st2, st3, d2, locals, multiset(leave) + outer, upvals)
      && Discharge(st3, d2).Ok?
      && var (st4, e2) := Discharge(st3, d2).value;
      && Grows(st3, Stop(st3, d2), st4, NO_REG)
      && Stop(st3, d2) <= Stop(st4, e2)
      && Compile(st, if truth then And(l, r) else Or(l, r)).value
          == (st4, if truth then e2.(fj := e2.fj + leave) else e2.(tj := e2.tj + leave))
  {
    hide Compile, BranchOn, Discharge, Described, Grows, Sound, Short;
    LogicLeft(st, l, r, truth, locals, outer, upvals);
    LogicSteps(st, l, r, truth);
    var (st1, d1) := Compile(st, l).value;
    var (st2, leave) := BranchOn(st1, d1, truth).value;
    CompileShape(st2, r, locals, multiset(leave) + outer, upvals);
    var (st3, d2) := Compile(st2, r).value;
    DischargeShape(st3, d2, multiset(leave) + outer, upvals);
  }

  /** The steps of an arithmetic operator or a comparison. */
  lemma OperatorSteps(st: State, e: Expr, l: Expr, r: Expr)
    requires (e.Arith? || e.Compare?) && e.l == l && e.r == r && Compile(st, e).Ok?
    ensures Compile(st, l).Ok?
    ensures var (st1, d1) := Compile(st, l).value;
      && AnyReg(st1, d1).Ok?
      && var (st2, e1) := AnyReg(st1, d1).value;
      && Compile(st2, r).Ok?
      && var (st3, d2) := Compile(st2, r).value;
        Compile(st, e) == if e.Arith? then EmitArith(st3, e.aop, e1, d2) else EmitComp(st3, e.cop, e1, d2)
  {
    hide AnyReg, EmitArith, EmitComp;
  }

  /** The operands of an operator, in shape. */
  lemma OperatorParts(st: State, e: Expr, l: Expr, r: Expr, locals: nat, outer: multiset<nat>, upvals: nat)
    requires (e.Arith? || e.Compare?) && e.l == l && e.r == r && Compilable(st, e, locals, outer, upvals)
    ensures Compilable(st, l, locals, outer, upvals)
    ensures var (st1, d1) := Compile(st, l).value;
      && Compiled(st, st1, d1, locals, outer, upvals) && st1.nextReg <= 253 && Usable(st1, d1)
      && AnyReg(st1, d1).Ok?
      && var (st2, e1) := AnyReg(st1, d1).value;
      && Grows(st1, Stop(st1, d1), st2, st.nextReg)
      && e1.kind.NonRelocK? && !HasJump(e1) && e1.kind.r < NO_REG && e1.kind.r < st2.nextReg
      && st.nextReg <= st2.nextReg
      && Compilable(st2, r, locals, outer, upvals)
      && var (st3, d2) := Compile(st2, r).value;
      && Compiled(st2, st3, d2, locals, outer, upvals) && st3.nextReg <= 253
      && LeftOk(st3, e1) && (d2.kind.LocalK? || d2.kind.NonRelocK? ==> d2.kind.r < st3.actVar)
  {
    hide Compile, AnyReg, Described, Grows, Sound, Short;
    OperatorSteps(st, e, l, r);
    ShortOperator(st, e, l, r);
    SoundRegsOf(st, |st.code|, multiset(st.pending) + outer);
    CompileShape(st, l, locals, outer, upvals);
    var (st1, d1) := Compile(st, l).value;
    GrowsActVar(st, |st.code|, st1, st.nextReg);
    DescribedRegs(st1, d1, outer, upvals);
    CompiledLeft(st, st1, d1, locals, outer, upvals);
    AnyRegShape(st1, d1, outer, upvals, st.nextReg);
    var (st2, e1) := AnyReg(st1, d1).value;
    CompileShape(st2, r, locals, outer, upvals);
    var (st3, d2) := Compile(st2, r).value;
    GrowsActVar(st2, |st2.code|, st3, st2.nextReg);
    DescribedRegs(st3, d2, outer, upvals);
  }

  lemma SameEval(w: World, e: Expr, locals: nat, m0: Machine, m: Machine, n: int, x: int)
    requires m0.Running? && m.Running? && m.sh == m0.sh && SameBelow(m0.regs, m.regs, n, x)
    requires WfExpr(e, locals, |m0.sh.upvals|) && locals <= n && locals <= 0x100 && x !in Reads(e)
    ensures Eval(w, e, m.regs, m.sh) == Eval(w, e, m0.regs, m0.sh)
  {
    ReadsLocals(e, locals, |m0.sh.upvals|);
    forall i | i in Reads(e) ensures 0 <= i < |m.regs| && m.regs[i] == m0.regs[i] {
    }
    EvalReads(w, e, m.regs, m0.regs, m0.sh);
  }

  /** Running the code of any expression, in whatever the code becomes later, computes its value. */
  lemma {:induction false} CompileRuns(p: Program, st: State, e: Expr, locals: nat, outer: multiset<nat>, m0: Machine,
                                       lo: int, n: int, x: int) returns (m: Machine)
    requires m0.Running? && Compilable(st, e, locals, outer, |m0.sh.upvals|)
    requires locals <= n <= st.nextReg && Here(st, m0, lo) && Safe(e, x)
    requires var (st', d) := Compile(st, e).value; Final(p, st', lo, Stop(st', d), n, x, OwnOf(d), outer)
    ensures var (st', d) := Compile(st, e).value; Computes(p, e, st', d, m0, m, lo, n, x)
    decreases e
  {
    hide Compile, Sound, Described, Final, Grows, Here, Computes, KindCopies;
    match e {
      case Minus(e1) =>
        m := UnaryExprRuns(p, st, e, e1, locals, outer, m0, lo, n, x);
      case Bang(e1) =>
        m := UnaryExprRuns(p, st, e, e1, locals, outer, m0, lo, n, x);
      case Arith(op, l, r) =>
        m := OperatorRuns(p, st, e, l, r, locals, outer, m0, lo, n, x);
      case Compare(op, l, r) =>
        m := OperatorRuns(p, st, e, l, r, locals, outer, m0, lo, n, x);
      case And(l, r) =>
        m := LogicRuns(p, st, l, r, true, locals, outer, m0, lo, n, x);
      case Or(l, r) =>
        m := LogicRuns(p, st, l, r, false, locals, outer, m0, lo, n, x);
      case _ =>
        m := m0;
        LeafRuns(p, st, e, locals, outer, m0, lo, n, x);
    }
  }

  lemma LeafRuns(p: Program, st: State, e: Expr, locals: nat, outer: multiset<nat>, m0: Machine, lo: int, n: int,
                 x: int)
    requires m0.Running? && Compilable(st, e, locals, outer, |m0.sh.upvals|) && Here(st, m0, lo)
    requires var (st', d) := Compile(st, e).value; Final(p, st', lo, Stop(st', d), n, x, OwnOf(d), outer)
    requires e.Prim? || e.Number? || e.Text? || e.Local? || e.Upval? || e.Global?
    ensures var (st', d) := Compile(st, e).value; Computes(p, e, st', d, m0, m0, lo, n, x)
  {
    var (st', d) := Compile(st, e).value;
    RunsRefl(p, m0, n, -1);
    if e.Global? {
      var k := d.kind.k;
      assert st'.consts[k] == Str(e.name);
      assert p.consts[k] == st'.consts[k];
    }
  }

  lemma ArrivedMore(p: Program, st: State, d: Desc, v: Result<Value>, m: Machine, lo: int, sh: Shared, d': Desc)
    requires Arrived(p, st, d, v, m, lo, sh) && d'.kind == d.kind
    requires forall j | j in d.tj :: j in d'.tj
    requires forall j | j in d.fj :: j in d'.fj
    ensures Arrived(p, st, d', v, m, lo, sh)
  {
  }

  lemma UnarySteps(st: State, e: Expr, e1: Expr)
    requires (e == Minus(e1) || e == Bang(e1)) && Compile(st, e).Ok?
    ensures Compile(st, e1).Ok?
    ensures var (st1, d1) := Compile(st, e1).value;
      Compile(st, e) == EmitUnary(st1, if e.Minus? then Negate else Not, d1)
  {
    hide EmitUnary;
  }

  lemma {:induction false} UnaryExprRuns(p: Program, st: State, e: Expr, e1: Expr, locals: nat,
                                         outer: multiset<nat>, m0: Machine,
                                         lo: int, n: int, x: int) returns (m: Machine)
    requires e == Minus(e1) || e == Bang(e1)
    requires m0.Running? && Compilable(st, e, locals, outer, |m0.sh.upvals|)
    requires locals <= n <= st.nextReg && Here(st, m0, lo)
    requires var (st', d) := Compile(st, e).value; Final(p, st', lo, Stop(st', d), n, x, OwnOf(d), outer)
    ensures var (st', d) := Compile(st, e).value; Computes(p, e, st', d, m0, m, lo, n, x)
    decreases e, 0
  {
    hide Compile, Sound, Described, Final, Grows, Here, Arrived, EmitUnary;
    UnarySteps(st, e, e1);
    SoundRegsOf(st, |st.code|, multiset(st.pending) + outer);
    var upvals := |m0.sh.upvals|;
    var op := if e.Minus? then Negate else Not;
    CompileShape(st, e1, locals, outer, upvals);
    var (st1, d1) := Compile(st, e1).value;
    var (st', d) := Compile(st, e).value;
    GrowsActVar(st, |st.code|, st1, st.nextReg);
    DescribedRegs(st1, d1, outer, upvals);
    UnaryShape(st1, op, d1, outer, upvals, n);
    DescribedParts(st', d, outer, upvals);
    DescribedTidy(st', d, outer, upvals);
    assert Lists(st', d) + outer == outer;
    assert OwnOf(d) == multiset{};
    FinalTight(p, st', lo, Stop(st', d), n, x, multiset{}, outer, n);
    GrowsActVar(st1, Stop(st1, d1), st', n);
    FinalBack(p, st1, Stop(st1, d1), st', Stop(st', d), lo, n, n, -1, OwnOf(d1), multiset{}, outer);
    ReadsLocals(e1, locals, upvals);
    FreshSafe(e1, -1);
    var m1 := CompileRuns(p, st, e1, locals, outer, m0, lo, n, -1);
    m := UnaryRuns(p, st1, op, d1, st', d, Eval(p.w, e1, m0.regs, m0.sh), m1, lo, m0.sh, outer, n);
    RunsTrans(p, m0, m1, m, n, -1);
  }

  lemma UnaryCode(st: State, op: Op, d: Desc)
    requires EmitUnary(st, op, d).Ok? && |EmitUnary(st, op, d).value.0.code| <= 0x1_0000
    ensures var (st', d') := EmitUnary(st, op, d).value;
      && d'.kind.RelocK? && At(st'.code, d'.kind.pos).op == op
  {
    hide AnyReg;
  }

  /** Copying foretells whether the test of e copies. */
  lemma {:induction false} CopiesForetold(st: State, e: Expr, locals: nat, outer: multiset<nat>, upvals: nat, x: int)
    requires Compilable(st, e, locals, outer, upvals)
    ensures var (st', d) := Compile(st, e).value; KindCopies(st', d, x) ==> Copying(e, x)
    decreases e
  {
    hide BranchOn, Discharge, AnyReg, EmitUnary, EmitArith, EmitComp, Sound;
    match e {
      case And(l, r) => LogicCopies(st, l, r, true, locals, outer, upvals, x);
      case Or(l, r) => LogicCopies(st, l, r, false, locals, outer, upvals, x);
      case Bang(e1) =>
        UnarySteps(st, e, e1);
        var (st1, d1) := Compile(st, e1).value;
        UnaryCode(st1, Not, d1);
      case _ =>
    }
  }

  lemma {:induction false} LogicCopies(st: State, l: Expr, r: Expr, truth: bool, locals: nat, outer: multiset<nat>,
                                       upvals: nat, x: int)
    requires Compilable(st, if truth then And(l, r) else Or(l, r), locals, outer, upvals)
    ensures var (st', d) := Compile(st, if truth then And(l, r) else Or(l, r)).value;
      KindCopies(st', d, x) ==> Copying(r, x)
    decreases if truth then And(l, r) else Or(l, r), 0
  {
    hide Compile, BranchOn, Discharge, Described, Grows, Compilable;
    LogicParts(st, l, r, truth, locals, outer, upvals);
    CompilableWf(st, l, locals, outer, upvals);
    var (st1, d1) := Compile(st, l).value;
    var (st2, leave) := BranchOn(st1, d1, truth).value;
    CompilableWf(st2, r, locals, multiset(leave) + outer, upvals);
    CopiesForetold(st2, r, locals, multiset(leave) + outer, upvals, x);
    var (st3, d2) := Compile(st2, r).value;
    DischargeCopies(st3, d2, x);
  }

  /** The combining instruction of an operator, in shape. */
  lemma OperatorDone(st: State, e: Expr, l: Expr, r: Expr, locals: nat, outer: multiset<nat>, upvals: nat)
    requires (e.Arith? || e.Compare?) && e.l == l && e.r == r && Compilable(st, e, locals, outer, upvals)
    ensures Compile(st, l).Ok? && AnyReg(Compile(st, l).value.0, Compile(st, l).value.1).Ok?
    ensures var (st1, d1) := Compile(st, l).value;
      var (st2, e1) := AnyReg(st1, d1).value;
      && Compile(st2, r).Ok?
      && var (st3, d2) := Compile(st2, r).value;
      var (st', d) := Compile(st, e).value;
        BinaryDone(st3, d2, st', d, outer, upvals, st2.nextReg)
  {
    hide Compile, AnyReg, EmitArith, EmitComp, Described, Grows, Compilable, BinaryDone, ArithOperand;
    OperatorSteps'(st, e, l, r, locals, outer, upvals);
    OperatorParts(st, e, l, r, locals, outer, upvals);
    var (st1, d1) := Compile(st, l).value;
    var (st2, e1) := AnyReg(st1, d1).value;
    var (st3, d2) := Compile(st2, r).value;
    if e.Arith? {
      ArithSteps(st3, e.aop, e1, d2);
      ArithShape(st3, e.aop, e1, d2, outer, upvals, st2.nextReg);
    } else {
      CompShape(st3, e.cop, e1, d2, outer, upvals, st2.nextReg);
    }
  }

  lemma OperatorSteps'(st: State, e: Expr, l: Expr, r: Expr, locals: nat, outer: multiset<nat>, upvals: nat)
    requires (e.Arith? || e.Compare?) && e.l == l && e.r == r && Compilable(st, e, locals, outer, upvals)
    ensures Compile(st, e).Ok? && Compile(st, l).Ok?
    ensures var (st1, d1) := Compile(st, l).value;
      && AnyReg(st1, d1).Ok?
      && var (st2, e1) := AnyReg(st1, d1).value;
      && Compile(st2, r).Ok?
      && var (st3, d2) := Compile(st2, r).value;
        Compile(st, e) == if e.Arith? then EmitArith(st3, e.aop, e1, d2) else EmitComp(st3, e.cop, e1, d2)
  {
    hide Compile, Sound, AnyReg, EmitArith, EmitComp;
    OperatorSteps(st, e, l, r);
  }

  /** What the code finally becomes, seen from the steps of an operator. */
  lemma OperatorFinal(p: Program, st: State, e: Expr, l: Expr, r: Expr, locals: nat, outer: multiset<nat>, upvals: nat,
                      lo: int, n: int, x: int)
    requires (e.Arith? || e.Compare?) && e.l == l && e.r == r && Compilable(st, e, locals, outer, upvals)
    requires n <= st.nextReg
    requires var (st', d) := Compile(st, e).value; Final(p, st', lo, Stop(st', d), n, x, OwnOf(d), outer)
    ensures Compile(st, l).Ok? && AnyReg(Compile(st, l).value.0, Compile(st, l).value.1).Ok?
    ensures var (st1, d1) := Compile(st, l).value;
      var (st2, e1) := AnyReg(st1, d1).value;
      && Compile(st2, r).Ok?
      && var (st3, d2) := Compile(st2, r).value;
      var (st', d) := Compile(st, e).value;
      && FinalNew(p, st', lo, Stop(st', d), st2.nextReg, outer)
      && Final(p, st3, lo, Stop(st3, d2), st2.nextReg, -1, OwnOf(d2), outer)
      && FinalNew(p, st2, lo, |st2.code|, n, outer)
      && Final(p, st1, lo, Stop(st1, d1), n, -1, OwnOf(d1), outer)
  {
    hide Compile, AnyReg, Described, Grows, Final, Compilable;
    CompilableWf(st, e, locals, outer, upvals);
    OperatorParts(st, e, l, r, locals, outer, upvals);
    OperatorDone(st, e, l, r, locals, outer, upvals);
    var (st1, d1) := Compile(st, l).value;
    var (st2, e1) := AnyReg(st1, d1).value;
    var (st3, d2) := Compile(st2, r).value;
    var (st', d) := Compile(st, e).value;
    var n2 := st2.nextReg;
    BinaryFinal(p, st', d, outer, upvals, lo, n, x, n2);
    FinalNewMono(p, st', lo, Stop(st', d), n2, outer, n);
    GrowsActVar(st3, Stop(st3, d2), st', n2);
    FinalBack(p, st3, Stop(st3, d2), st', Stop(st', d), lo, n2, n2, -1, OwnOf(d2), multiset{}, outer);
    GrowsTrans(st2, |st2.code|, st3, Stop(st3, d2), st', n2, n2);
    GrowsActVar(st2, |st2.code|, st', n2);
    FinalBack(p, st2, |st2.code|, st', Stop(st', d), lo, n, n2, -1, multiset{}, multiset{}, outer);
    GrowsActVar(st1, Stop(st1, d1), st2, st.nextReg);
    FinalBack(p, st1, Stop(st1, d1), st2, |st2.code|, lo, n, st.nextReg, -1, OwnOf(d1), multiset{}, outer);
  }

  lemma FinalNewMono(p: Program, st: State, lo: int, hi: int, n: int, out: multiset<nat>, n': int)
    requires FinalNew(p, st, lo, hi, n, out) && n' <= n
    ensures FinalNew(p, st, lo, hi, n', out)
  {
    forall i | lo <= i < hi && !Excluded(st.code, i, out) ensures LaterAt(st.code, p.code, i, n', -1, multiset{}) {
      assert LaterAt(st.code, p.code, i, n, -1, multiset{});
    }
  }

  lemma BinaryFinal(p: Program, st': State, d: Desc, outer: multiset<nat>, upvals: nat, lo: int, n: int, x: int,
                    n2: int)
    requires |st'.code| >= 1 && d == Desc(RelocK(|st'.code| - 1), [], []) && Described(st', d, outer, upvals)
    requires Final(p, st', lo, Stop(st', d), n, x, OwnOf(d), outer)
    ensures FinalNew(p, st', lo, Stop(st', d), n2, outer)
  {
    hide Final;
    DescribedParts(st', d, outer, upvals);
    DescribedTidy(st', d, outer, upvals);
    assert Lists(st', d) + outer == outer;
    assert OwnOf(d) == multiset{};
    FinalTight(p, st', lo, Stop(st', d), n, x, multiset{}, outer, n2);
  }

  lemma CompilableWf(st: State, e: Expr, locals: nat, outer: multiset<nat>, upvals: nat)
    requires Compilable(st, e, locals, outer, upvals)
    ensures WfExpr(e, locals, upvals) && locals <= 254 && Compile(st, e).Ok?
    ensures locals <= st.actVar && locals <= st.nextReg
  {
  }

  /** The left operand is in its register. */
  lemma ArrivedLeft(p: Program, st: State, d: Desc, v: Result<Value>, m: Machine, lo: int, sh: Shared)
    requires Arrived(p, st, d, v, m, lo, sh) && d.kind.NonRelocK? && !HasJump(d)
    ensures if m.Running? then Here(st, m, lo) && m.sh == sh && v == Ok(m.regs[d.kind.r])
            else v.Err? && m == Failed(v.msg, sh)
  {
  }

  lemma ArrivedError(p: Program, st: State, d: Desc, v: Result<Value>, m: Machine, lo: int, sh: Shared)
    requires !m.Running? && v.Err? && m == Failed(v.msg, sh)
    ensures Arrived(p, st, d, v, m, lo, sh)
  {
  }

  lemma SameReg(p: Program, m0: Machine, m: Machine, n: int, r: Reg)
    requires Runs(p, m0, m, n, -1) && r < n
    ensures m.Running? ==> m.regs[r] == m0.regs[r]
  {
  }

  lemma {:induction false} OperatorRuns(p: Program, st: State, e: Expr, l: Expr, r: Expr, locals: nat,
                                        outer: multiset<nat>,
                                        m0: Machine, lo: int, n: int, x: int) returns (m: Machine)
    requires (e.Arith? || e.Compare?) && e.l == l && e.r == r
    requires m0.Running? && Compilable(st, e, locals, outer, |m0.sh.upvals|)
    requires locals <= n <= st.nextReg && Here(st, m0, lo)
    requires var (st', d) := Compile(st, e).value; Final(p, st', lo, Stop(st', d), n, x, OwnOf(d), outer)
    ensures var (st', d) := Compile(st, e).value; Computes(p, e, st', d, m0, m, lo, n, x)
    decreases e, 0
  {
    hide Compile, Sound, Described, Final, Grows, Here, Arrived, EmitArith, EmitComp, AnyReg, Compilable, SameBelow;
    var upvals, sh := |m0.sh.upvals|, m0.sh;
    OperatorSteps'(st, e, l, r, locals, outer, upvals);
    OperatorParts(st, e, l, r, locals, outer, upvals);
    var (st1, d1) := Compile(st, l).value;
    var (st2, e1) := AnyReg(st1, d1).value;
    var (st3, d2) := Compile(st2, r).value;
    var (st', d) := Compile(st, e).value;
    var n2 := st2.nextReg;
    OperatorDone(st, e, l, r, locals, outer, upvals);
    OperatorFinal(p, st, e, l, r, locals, outer, upvals, lo, n, x);
    CompilableWf(st, e, locals, outer, upvals);
    ReadsLocals(l, locals, upvals);
    FreshSafe(l, -1);
    ReadsLocals(r, locals, upvals);
    FreshSafe(r, -1);
    var m1 := CompileRuns(p, st, l, locals, outer, m0, lo, n, -1);
    var m2 := AnyRegRuns(p, st1, d1, st2, e1, Eval(p.w, l, m0.regs, sh), m1, lo, sh, outer, n);
    RunsTrans(p, m0, m1, m2, n, -1);
    m := m2;
    ArrivedLeft(p, st2, e1, Eval(p.w, l, m0.regs, sh), m2, lo, sh);
    if m2.Running? {
      var b, v := m2.regs[e1.kind.r], Eval(p.w, r, m2.regs, sh);
      SameEval(p.w, r, locals, m0, m2, n, -1);
      var m3 := CompileRuns(p, st2, r, locals, outer, m2, lo, n2, -1);
      SameReg(p, m2, m3, n2, e1.kind.r);
      if e.Arith? {
        m := ArithRuns(p, st3, e.aop, e1, d2, st', d, b, v, m3, lo, sh, outer, n2);
      } else {
        m := CompRuns(p, st3, e.cop, e1, d2, st', d, b, v, m3, lo, sh, outer, n2);
      }
      RunsTrans(p, m2, m3, m, n2, -1);
      RunsMono(p, m2, m, n2, -1, n, -1);
      RunsTrans(p, m0, m2, m, n, -1);
    } else {
      ArrivedError(p, st', d, Eval(p.w, e, m0.regs, sh), m, lo, sh);
    }
  }

  lemma {:induction false} LogicRuns(p: Program, st: State, l: Expr, r: Expr, truth: bool, locals: nat,
                                     outer: multiset<nat>,
                                     m0: Machine, lo: int, n: int, x: int) returns (m: Machine)
    requires var e := if truth then And(l, r) else Or(l, r);
      && m0.Running? && Compilable(st, e, locals, outer, |m0.sh.upvals|)
      && locals <= n <= st.nextReg && Here(st, m0, lo) && Safe(e, x)
      && var (st', d) := Compile(st, e).value; Final(p, st', lo, Stop(st', d), n, x, OwnOf(d), outer)
    ensures var e := if truth then And(l, r) else Or(l, r);
      var (st', d) := Compile(st, e).value; Computes(p, e, st', d, m0, m, lo, n, x)
    decreases if truth then And(l, r) else Or(l, r), 1
  {
    hide Compile, BranchOn, Discharge, Sound, Described, Final, Grows, Here, Arrived, Branched, Compilable, SameBelow;
    var e := if truth then And(l, r) else Or(l, r);
    var upvals, sh := |m0.sh.upvals|, m0.sh;
    CompilableWf(st, e, locals, outer, upvals);
    LogicParts(st, l, r, truth, locals, outer, upvals);
    LogicFinal(p, st, l, r, truth, locals, outer, upvals, lo, n, x);
    var (st1, d1) := Compile(st, l).value;
    var (st2, leave) := BranchOn(st1, d1, truth).value;
    var (st4, d) := Compile(st, e).value;
    var y1 := if Copying(l, x) then x else -1;
    DirtyCopies(l, x);
    CopiesForetold(st, l, locals, outer, upvals, x);
    var b := Eval(p.w, l, m0.regs, sh);
    var m1 := CompileRuns(p, st, l, locals, outer, m0, lo, n, x);
    var m2 := BranchOnRuns(p, st1, d1, truth, st2, leave, b, m1, lo, sh, outer, n, x, multiset(leave), outer);
    RunsMono(p, m0, m1, n, if Dirty(l, x) then x else -1, n, y1);
    if m1.Running? {
      RunsMono(p, m1, m2, n, if KindCopies(st1, d1, x) then x else -1, n, y1);
    }
    RunsTrans(p, m0, m1, m2, n, y1);
    BranchedParts(p, st2, leave, truth, b, m2, lo, sh);
    var y := if Dirty(e, x) then x else -1;
    RunsMono(p, m0, m2, n, y1, n, y);
    m := m2;
    if !m2.Running? {
      ArrivedError(p, st4, d, Eval(p.w, e, m0.regs, sh), m, lo, sh);
    } else if !Falsey(p.w, b.value) == truth {
      ReadsLocals(r, locals, upvals);
      SameEval(p.w, r, locals, m0, m2, n, y1);
      m := LogicRight(p, st, l, r, truth, locals, outer, m2, lo, n, x);
      RunsTrans(p, m0, m2, m, n, y);
    } else {
      LeaveKept(p, st, l, r, truth, locals, outer, b.value, m2, lo, sh);
    }
  }

  /** The right operand of and/or, once the left one let the run fall through. */
  lemma {:induction false} LogicRight(p: Program, st: State, l: Expr, r: Expr, truth: bool, locals: nat,
                                      outer: multiset<nat>,
                                      m2: Machine, lo: int, n: int, x: int) returns (m: Machine)
    requires var e := if truth then And(l, r) else Or(l, r);
      && m2.Running? && Compilable(st, e, locals, outer, |m2.sh.upvals|)
      && locals <= n <= st.nextReg && Safe(e, x)
      && var (st', d) := Compile(st, e).value; Final(p, st', lo, Stop(st', d), n, x, OwnOf(d), outer)
    requires Compile(st, l).Ok? && BranchOn(Compile(st, l).value.0, Compile(st, l).value.1, truth).Ok?
    requires Here(BranchOn(Compile(st, l).value.0, Compile(st, l).value.1, truth).value.0, m2, lo)
    ensures var e := if truth then And(l, r) else Or(l, r);
      var (st', d) := Compile(st, e).value;
      && Arrived(p, st', d, Eval(p.w, r, m2.regs, m2.sh), m, lo, m2.sh)
      && Runs(p, m2, m, n, if Dirty(e, x) then x else -1)
    decreases if truth then And(l, r) else Or(l, r), 0
  {
    hide Compile, BranchOn, Discharge, Sound, Described, Final, Grows, Here, Arrived, Compilable, SameBelow;
    var e := if truth then And(l, r) else Or(l, r);
    var upvals, sh := |m2.sh.upvals|, m2.sh;
    CompilableWf(st, e, locals, outer, upvals);
    LogicParts(st, l, r, truth, locals, outer, upvals);
    LogicFinal(p, st, l, r, truth, locals, outer, upvals, lo, n, x);
    var (st1, d1) := Compile(st, l).value;
    var (st2, leave) := BranchOn(st1, d1, truth).value;
    var (st3, d2) := Compile(st2, r).value;
    var (st4, e2) := Discharge(st3, d2).value;
    var d := Compile(st, e).value.1;
    var v := Eval(p.w, r, m2.regs, sh);
    var m3 := CompileRuns(p, st2, r, locals, multiset(leave) + outer, m2, lo, n, x);
    m := DischargeRuns(p, st3, d2, st4, e2, v, m3, lo, sh, multiset(leave) + outer, n, x, OwnOf(d), outer);
    ArrivedMore(p, st4, e2, v, m, lo, sh, d);
    var y := if Dirty(e, x) then x else -1;
    if m3.Running? {
      RunsMono(p, m3, m, 0x100, -1, n, y);
    }
    RunsMono(p, m2, m3, n, if Dirty(r, x) then x else -1, n, y);
    RunsTrans(p, m2, m3, m, n, y);
  }

  lemma BranchedParts(p: Program, st: State, leave: seq<nat>, truth: bool, v: Result<Value>, m: Machine, lo: int,
                      sh: Shared)
    requires Branched(p, st, leave, truth, v, m, lo, sh)
    ensures if m.Running? then
              m.sh == sh && v.Ok?
              && (if !Falsey(p.w, v.value) == truth then Here(st, m, lo)
                  else lo < m.ip && m.ip in leave && LeftBy(p, st.code, m, v.value))
            else v.Err? && m == Failed(v.msg, sh)
  {
  }

  /** The run that left after the left operand stands at a jump of the whole expression. */
  lemma LeaveKept(p: Program, st: State, l: Expr, r: Expr, truth: bool, locals: nat, outer: multiset<nat>, v: Value,
                  m: Machine, lo: int, sh: Shared)
    requires var e := if truth then And(l, r) else Or(l, r);
      && Compilable(st, e, locals, outer, |sh.upvals|) && Compile(st, e).value.0.consts <= p.consts
    requires Compile(st, l).Ok? && BranchOn(Compile(st, l).value.0, Compile(st, l).value.1, truth).Ok?
    requires var (st2, leave) := BranchOn(Compile(st, l).value.0, Compile(st, l).value.1, truth).value;
      && m.Running? && m.sh == sh && lo < m.ip && m.ip in leave && LeftBy(p, st2.code, m, v)
    requires !Falsey(p.w, v) != truth
    ensures var (st4, d) := Compile(st, if truth then And(l, r) else Or(l, r)).value;
      Arrived(p, st4, d, Ok(v), m, lo, sh)
  {
    hide Compile, BranchOn, Discharge, LeftBy, Grows, Sound, Described, Compilable, Falsey, AtJump, Later, Tidy, Kept;
    hide KindOk, Stop, Fetchable;
    var e := if truth then And(l, r) else Or(l, r);
    var upvals := |sh.upvals|;
    LogicParts(st, l, r, truth, locals, outer, upvals);
    LogicGrows(st, l, r, truth, locals, outer, upvals);
    var (st1, d1) := Compile(st, l).value;
    var (st2, leave) := BranchOn(st1, d1, truth).value;
    CompilableWf(st2, r, locals, multiset(leave) + outer, upvals);
    CompilableWf(st, e, locals, outer, upvals);
    var (st3, d2) := Compile(st2, r).value;
    var (st4, d) := Compile(st, e).value;
    DischargeLists(st3, d2);
    CompilableSound(st2, r, locals, multiset(leave) + outer, upvals);
    SoundTidy(st2, |st2.code|, multiset(st2.pending) + (multiset(leave) + outer));
    DescribedTidy(st4, d, outer, upvals);
    DescribedParts(st4, d, outer, upvals);
    var dl := if truth then Desc(PrimK(0), [], leave) else Desc(PrimK(0), leave, []);
    JumpKept(p, st2, dl, st4, d, v, m, lo, |st2.code|, st2.nextReg,
             multiset(st2.pending) + (multiset(leave) + outer), Lists(st4, d) + outer);
  }

  lemma CompilableSound(st: State, e: Expr, locals: nat, outer: multiset<nat>, upvals: nat)
    requires Compilable(st, e, locals, outer, upvals)
    ensures Sound(st, |st.code|, multiset(st.pending) + outer) && RegsOk(st)
  {
  }

  lemma LogicGrows(st: State, l: Expr, r: Expr, truth: bool, locals: nat, outer: multiset<nat>, upvals: nat)
    requires Compilable(st, if truth then And(l, r) else Or(l, r), locals, outer, upvals)
    ensures Compile(st, l).Ok? && BranchOn(Compile(st, l).value.0, Compile(st, l).value.1, truth).Ok?
    ensures var st2 := BranchOn(Compile(st, l).value.0, Compile(st, l).value.1, truth).value.0;
      var (st4, d) := Compile(st, if truth then And(l, r) else Or(l, r)).value;
      && Grows(st2, |st2.code|, st4, st2.nextReg) && Described(st4, d, outer, upvals)
  {
    hide Compile, BranchOn, Discharge, Described, Grows;
    LogicParts(st, l, r, truth, locals, outer, upvals);
    CompileShape(st, if truth then And(l, r) else Or(l, r), locals, outer, upvals);
    var (st1, d1) := Compile(st, l).value;
    var (st2, leave) := BranchOn(st1, d1, truth).value;
    CompilableSound(st2, r, locals, multiset(leave) + outer, upvals);
    var (st3, d2) := Compile(st2, r).value;
    var st4 := Discharge(st3, d2).value.0;
    GrowsTrans(st2, |st2.code|, st3, Stop(st3, d2), st4, st2.nextReg, NO_REG);
  }

  /** What the code finally becomes, seen from the steps of and/or. */
  lemma LogicFinal(p: Program, st: State, l: Expr, r: Expr, truth: bool, locals: nat, outer: multiset<nat>, upvals: nat,
                   lo: int, n: int, x: int)
    requires var e := if truth then And(l, r) else Or(l, r);
      && Compilable(st, e, locals, outer, upvals) && n <= st.nextReg
      && var (st', d) := Compile(st, e).value; Final(p, st', lo, Stop(st', d), n, x, OwnOf(d), outer)
    ensures Compile(st, l).Ok? && BranchOn(Compile(st, l).value.0, Compile(st, l).value.1, truth).Ok?
    ensures var (st1, d1) := Compile(st, l).value;
      var (st2, leave) := BranchOn(st1, d1, truth).value;
      && Compile(st2, r).Ok?
      && var (st3, d2) := Compile(st2, r).value;
      && Discharge(st3, d2).Ok?
      && var (st4, e2) := Discharge(st3, d2).value;
      var d := Compile(st, if truth then And(l, r) else Or(l, r)).value.1;
      && Final(p, st1, lo, Stop(st1, d1), n, x, OwnOf(d1), outer)
      && Final(p, st2, lo, |st2.code|, n, x, multiset(leave), outer)
      && Final(p, st3, lo, Stop(st3, d2), n, x, OwnOf(d2), multiset(leave) + outer)
      && Final(p, st4, lo, Stop(st4, e2), n, x, OwnOf(d), outer) && st4.consts <= p.consts
  {
    hide Compile, BranchOn, Discharge, Described, Grows, Final, Compilable;
    var e := if truth then And(l, r) else Or(l, r);
    CompilableWf(st, e, locals, outer, upvals);
    LogicParts(st, l, r, truth, locals, outer, upvals);
    LogicGrows(st, l, r, truth, locals, outer, upvals);
    var (st1, d1) := Compile(st, l).value;
    var (st2, leave) := BranchOn(st1, d1, truth).value;
    CompilableWf(st2, r, locals, multiset(leave) + outer, upvals);
    var (st3, d2) := Compile(st2, r).value;
    var (st4, e2) := Discharge(st3, d2).value;
    var d := Compile(st, e).value.1;
    DischargeLists(st3, d2);
    NewJumps(st2, r, locals, multiset(leave) + outer, upvals);
    CompilableSound(st2, r, locals, multiset(leave) + outer, upvals);
    var own := OwnOf(d);
    assert own == OwnOf(d2) + multiset(leave);
    forall j: nat | j in OwnOf(d2) ensures j > |st2.code| {
      assert j in d2.tj || j in d2.fj;
    }
    FinalConsts(p, st4, lo, Stop(st4, d), n, x, own, outer);
    FinalBack(p, st2, |st2.code|, st4, Stop(st4, d), lo, n, st2.nextReg, x, multiset(leave), own, outer) by {
      GrowsActVar(st2, |st2.code|, st4, st2.nextReg);
    }
    FinalOuter(p, st4, lo, Stop(st4, d), n, x, own, outer, multiset(leave) + outer);
    FinalBack(p, st3, Stop(st3, d2), st4, Stop(st4, d), lo, n, NO_REG, x, OwnOf(d2), own, multiset(leave) + outer);
    GrowsActVar(st1, Stop(st1, d1), st2, NO_REG);
    FinalBack(p, st1, Stop(st1, d1), st2, |st2.code|, lo, n, NO_REG, x, OwnOf(d1), multiset(leave), outer);
  }
}
