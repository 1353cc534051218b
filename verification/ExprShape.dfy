/** Every code generation function keeps the code and the jump lists in shape, and uses the
    registers as a stack. */
module ExprShape {
  import opened Bytecode
  import opened Machine
  import opened Source
  import opened CodeGen
  import opened Positions
  import opened Shape

  /** nextReg is at least actVar, or one below while the initializer of a new local is compiled. */
  ghost predicate RegsOk(st: State) {
    st.actVar <= st.nextReg + 1 && st.nextReg <= st.maxReg && st.nextReg <= 254
  }

  function Level(st: State): int { if st.nextReg < st.actVar then st.actVar else st.nextReg }

  ghost function Lists(st: State, d: Desc): multiset<nat> {
    multiset(st.pending) + multiset(d.tj) + multiset(d.fj)
  }

  /** The code up to here is final but for unresolved jumps: a relocatable instruction is not. */
  function Stop(st: State, d: Desc): nat {
    if d.kind.RelocK? then d.kind.pos else |st.code|
  }

  ghost predicate KindOk(st: State, k: Kind, upvals: nat) {
    match k
    case PrimK(p) => p < 3
    case RelocK(pos) =>
      && pos == |st.code| - 1 && st.pending == [] && st.code[pos].a == 0
      && IsValueOp(st.code[pos].op) && Fetchable(st.code[pos], st.consts, upvals)
      && ReadsBelow(st.code[pos], st.maxReg)
    case NonRelocK(r) => r < NO_REG && r < st.maxReg
    case LocalK(r) => r < NO_REG && r < st.maxReg
    case GlobalK(c) => c < |st.consts| && st.consts[c].Str?
    case UpvalK(u) => u < upvals
    case _ => true
  }

  ghost predicate Sound(st: State, hi: int, lists: multiset<nat>) {
    && Tidy(st.code, lists) && !EndsInTest(st.code)
    && InRange(st.code) && Bounded(st.code, hi, st.maxReg) && RegsOk(st)
  }

  ghost predicate Described(st: State, d: Desc, outer: multiset<nat>, upvals: nat) {
    && Sound(st, Stop(st, d), Lists(st, d) + outer)
    && KindOk(st, d.kind, upvals)
    && (HasJump(d) ==> !EndsInReturn(st.code))
  }

  /** The test of a jump that was pending: it gets no destination. */
  ghost predicate QuietAt(st: State, st': State, j: nat) {
    1 <= j < |st.code| && j <= |st'.code| && IsCopy(st.code[j - 1]) ==>
      (j in st'.pending && st'.code[j - 1] == st.code[j - 1]) || st'.code[j - 1] == Plain(st.code[j - 1])
  }

  ghost predicate Quiet(st: State, st': State) {
    forall j {:trigger QuietAt(st, st', j)} | j in st.pending :: QuietAt(st, st', j)
  }

  /** What st becomes while an expression that started at register n is compiled; a test of a
      jump in own may be given the destination x. */
  ghost predicate GrowsFor(st: State, hi: int, st': State, n: int, x: int, own: multiset<nat>) {
    && Later(st.code, st'.code, 0, hi, n, x, own) && Kept(st.code, st'.code) && Quiet(st, st')
    && |st.code| <= |st'.code| && st.consts <= st'.consts
    && st.maxReg <= st'.maxReg && st.actVar == st'.actVar
    && (EndsInReturn(st'.code) ==> EndsInReturn(st.code))
  }

  ghost predicate Grows(st: State, hi: int, st': State, n: int) {
    GrowsFor(st, hi, st', n, -1, multiset{})
  }

  /** What st becomes while statements are compiled: tests get no destination any more. */
  ghost predicate Extends(st: State, st': State) {
    && Later(st.code, st'.code, 0, |st.code|, NO_REG, -1, multiset{}) && Kept(st.code, st'.code)
    && |st.code| <= |st'.code| && st.consts <= st'.consts && st.maxReg <= st'.maxReg
  }

  lemma ExtendsTrans(st: State, st1: State, st2: State)
    requires Extends(st, st1) && Extends(st1, st2)
    ensures Extends(st, st2)
  {
    LaterMono(st1.code, st2.code, 0, |st1.code|, NO_REG, -1, multiset{}, 0, |st.code|, NO_REG, -1, multiset{});
    LaterTrans(st.code, st1.code, st2.code, 0, |st.code|, NO_REG, NO_REG, -1, multiset{}, multiset{});
    KeptTrans(st.code, st1.code, st2.code);
  }

  lemma QuietTrans(st: State, st1: State, st2: State)
    requires Quiet(st, st1) && Quiet(st1, st2) && Kept(st1.code, st2.code) && |st.code| <= |st1.code|
    ensures Quiet(st, st2)
  {
    forall j | j in st.pending ensures QuietAt(st, st2, j) {
      assert QuietAt(st, st1, j);
      if 1 <= j < |st.code| && IsCopy(st.code[j - 1]) {
        assert KeptAt(st1.code, st2.code, j);
        assert j in st1.pending ==> QuietAt(st1, st2, j);
      }
    }
  }

  /** Jumps that stay pending keep their tests. */
  lemma KeptQuiet(st: State, st': State, lists: multiset<nat>)
    requires Kept(st.code, st'.code) && Tidy(st'.code, lists) && multiset(st'.pending) <= lists
    requires forall j | j in st.pending :: j in st'.pending
    ensures Quiet(st, st')
  {
    forall j | j in st.pending ensures QuietAt(st, st', j) {
      assert multiset(st'.pending)[j] >= 1;
      assert lists[j] >= 1;
      if 1 <= j < |st.code| {
        assert KeptAt(st.code, st'.code, j);
      }
    }
  }

  /** At the level of statements no test that was there gets a destination: its jump was
      pending, or still belongs to an outer list. */
  lemma GrowsExtends(st: State, st': State, n: int, outer: multiset<nat>, lists: multiset<nat>)
    requires Grows(st, |st.code|, st', n) && !EndsInTest(st.code)
    requires Tidy(st.code, multiset(st.pending) + outer) && Tidy(st'.code, lists) && outer <= lists
    ensures Extends(st, st')
  {
    forall i | 0 <= i < |st.code| ensures LaterAt(st.code, st'.code, i, NO_REG, -1, multiset{}) {
      assert LaterAt(st.code, st'.code, i, n, -1, multiset{});
      assert WfAt(st.code, i);
      if IsCopy(st.code[i]) && st.code[i].a == NO_REG && i + 1 < |st.code| {
        var j: nat := i + 1;
        assert Open(st.code, j);
        assert (multiset(st.pending) + outer)[j] == 1;
        if j in st.pending {
          assert QuietAt(st, st', j);
        } else {
          assert outer[j] == 1 <= lists[j];
          assert Open(st'.code, j);
          assert KeptAt(st.code, st'.code, j);
        }
      }
    }
  }

  lemma GrowsTrans(st: State, hi: int, st1: State, hi1: int, st2: State, n: int, n1: int)
    requires Grows(st, hi, st1, n) && Grows(st1, hi1, st2, n1) && hi <= hi1 && n <= n1
    ensures Grows(st, hi, st2, n)
  {
    LaterMono(st1.code, st2.code, 0, hi1, n1, -1, multiset{}, 0, hi, n, -1, multiset{});
    LaterTrans(st.code, st1.code, st2.code, 0, hi, n, n, -1, multiset{}, multiset{});
    KeptTrans(st.code, st1.code, st2.code);
    QuietTrans(st, st1, st2);
  }

  lemma GrowsMono(st: State, hi: int, st': State, n: int, hi': int, n': int)
    requires Grows(st, hi, st', n) && hi' <= hi && n' <= n
    ensures Grows(st, hi', st', n')
  {
    LaterMono(st.code, st'.code, 0, hi, n, -1, multiset{}, 0, hi', n', -1, multiset{});
  }

  lemma GrowsActVar(st: State, hi: int, st': State, n: int)
    requires Grows(st, hi, st', n)
    ensures st.actVar == st'.actVar && hi <= |st.code| <= |st'.code| && st.maxReg <= st'.maxReg
  {
  }

  lemma DescribedRegs(st: State, d: Desc, outer: multiset<nat>, upvals: nat)
    requires Described(st, d, outer, upvals)
    ensures RegsOk(st) && (d.kind.LocalK? || d.kind.NonRelocK? ==> d.kind.r < st.maxReg)
  {
  }

  lemma DescribedParts(st: State, d: Desc, outer: multiset<nat>, upvals: nat)
    requires Described(st, d, outer, upvals)
    ensures RegsOk(st) && KindOk(st, d.kind, upvals)
    ensures !d.kind.RelocK? ==> Sound(st, |st.code|, multiset(st.pending) + (multiset(d.tj) + multiset(d.fj) + outer))
  {
    assert multiset(st.pending) + (multiset(d.tj) + multiset(d.fj) + outer) == Lists(st, d) + outer;
  }

  lemma GrowsForTrans(st: State, st1: State, st2: State, n: int, x: int, own: multiset<nat>)
    requires Grows(st, |st.code|, st1, n) && GrowsFor(st1, |st1.code|, st2, n, x, own)
    ensures GrowsFor(st, |st.code|, st2, n, x, own)
  {
    LaterMono(st.code, st1.code, 0, |st.code|, n, -1, multiset{}, 0, |st.code|, n, x, own);
    LaterMono(st1.code, st2.code, 0, |st1.code|, n, x, own, 0, |st.code|, n, x, own);
    LaterTwice(st.code, st1.code, st2.code, 0, |st.code|, n, x, own);
    KeptTrans(st.code, st1.code, st2.code);
    QuietTrans(st, st1, st2);
  }

  // ----- emitting -----

  /** An instruction may follow: a test is followed by its jump, and only a test lacks its register. */
  ghost predicate MayFollow(code: seq<Instr>, i: Instr) {
    && (EndsInTest(code) ==> i.op == Jump)
    && (EndsInTest(code) && IsCopy(code[|code| - 1]) ==> (code[|code| - 1].a == NO_REG <==> i.d == UNPATCHED))
    && (i.a == NO_REG ==> IsCopy(i))
    && (code == [] ==> i.op != Jump)
  }

  function Opened(i: Instr, at: nat): multiset<nat> {
    if i.op == Jump && i.d == UNPATCHED then multiset{at} else multiset{}
  }

  lemma PendingOpen(st: State, outer: multiset<nat>)
    requires Tidy(st.code, multiset(st.pending) + outer)
    ensures AllOpen(st.code, st.pending) && forall j: nat | j >= |st.code| :: j !in st.pending
    ensures multiset(st.pending) + outer - multiset(st.pending) == outer
  {
    ListIsOpen(st.code, st.pending, multiset(st.pending) + outer);
    forall j: nat | j >= |st.code| ensures j !in st.pending {
      assert !Open(st.code, j);
    }
  }

  lemma EmitShape(st: State, i: Instr, outer: multiset<nat>)
    requires Tidy(st.code, multiset(st.pending) + outer) && MayFollow(st.code, i) && Emit(st, i).Ok?
    ensures var st' := Emit(st, i).value;
      && st' == st.(code := st'.code, pending := [])
      && |st'.code| == |st.code| + 1 && st'.code[|st.code|] == i
      && Tidy(st'.code, outer + Opened(i, |st.code|))
      && Extends(st, st') && (i.op != Return ==> Grows(st, |st.code|, st', NO_REG))
  {
    var len := |st.code|;
    PendingOpen(st, outer);
    PatchListTidy(st.code, st.pending, len, NO_REG, len, multiset(st.pending) + outer);
    var c := PatchList(st.code, st.pending, len, NO_REG, len).value;
    PatchedEnd(st.code, st.pending, len, NO_REG, len);
    EmitTidy(c, i, outer);
    EmitGrows(st, i, outer);
  }

  /** Patching leaves the kind of the last instruction alone. */
  lemma PatchedEnd(code: seq<Instr>, list: seq<nat>, vt: nat, r: Reg, ot: nat)
    requires WfCode(code) && AllOpen(code, list) && vt !in list && ot !in list
    requires PatchList(code, list, vt, r, ot).Ok?
    ensures var c := PatchList(code, list, vt, r, ot).value;
      && |c| == |code|
      && (code != [] ==> c[|c| - 1].op == code[|c| - 1].op)
      && (EndsInTest(code) ==> c[|c| - 1] == code[|c| - 1])
  {
    PatchListCloses(code, list, vt, r, ot);
    assert !Open(code, |code|);
    if code != [] {
      PatchListAt(code, list, vt, r, ot, |code| - 1);
    }
  }

  lemma EmitGrows(st: State, i: Instr, outer: multiset<nat>)
    requires Tidy(st.code, multiset(st.pending) + outer) && Emit(st, i).Ok?
    ensures Extends(st, Emit(st, i).value)
    ensures i.op != Return ==> Grows(st, |st.code|, Emit(st, i).value, NO_REG)
  {
    var len := |st.code|;
    PendingOpen(st, outer);
    PatchListLater(st.code, st.pending, len, NO_REG, len, NO_REG, -1, multiset{});
    PatchListKept(st.code, st.pending, len, NO_REG, len);
    PatchListCloses(st.code, st.pending, len, NO_REG, len);
    AppendGrows(st.code, PatchList(st.code, st.pending, len, NO_REG, len).value, i);
    EmitQuiet(st, i, outer);
  }

  /** The tests of pending jumps become plain tests. */
  lemma EmitQuiet(st: State, i: Instr, outer: multiset<nat>)
    requires Tidy(st.code, multiset(st.pending) + outer) && Emit(st, i).Ok?
    ensures Quiet(st, Emit(st, i).value)
  {
    var len := |st.code|;
    PendingOpen(st, outer);
    var st' := Emit(st, i).value;
    forall j | j in st.pending ensures QuietAt(st, st', j) {
      if 1 <= j < len {
        PatchListAt(st.code, st.pending, len, NO_REG, len, j - 1);
        assert j - 1 in st.pending ==> Open(st.code, j - 1);
      }
    }
  }

  lemma AppendGrows(code: seq<Instr>, c: seq<Instr>, i: Instr)
    requires Later(code, c, 0, |code|, NO_REG, -1, multiset{}) && Kept(code, c) && |c| == |code|
    ensures Later(code, c + [i], 0, |code|, NO_REG, -1, multiset{}) && Kept(code, c + [i])
  {
    forall j | 0 <= j < |code| ensures LaterAt(code, c + [i], j, NO_REG, -1, multiset{}) {
      assert LaterAt(code, c, j, NO_REG, -1, multiset{});
    }
    forall j | 1 <= j < |code| ensures KeptAt(code, c + [i], j) {
      assert KeptAt(code, c, j);
    }
  }

  lemma EmitTidy(c: seq<Instr>, i: Instr, outer: multiset<nat>)
    requires Tidy(c, outer) && MayFollow(c, i)
    ensures Tidy(c + [i], outer + Opened(i, |c|))
  {
    var c' := c + [i];
    forall j | 0 <= j < |c'| ensures WfAt(c', j) {
      assert j < |c| ==> WfAt(c, j);
    }
    forall j: nat ensures (outer + Opened(i, |c|))[j] == if Open(c', j) then 1 else 0 {
      assert Open(c', j) <==> Open(c, j) || (j == |c| && i.op == Jump && i.d == UNPATCHED);
      assert outer[j] == if Open(c, j) then 1 else 0;
    }
  }

  lemma AppendBounds(c: seq<Instr>, i: Instr, hi: int, b: int)
    requires TargetsTo(c, |c|) && Bounded(c, hi, b) && hi <= |c| && (i.op == Jump ==> i.d == UNPATCHED)
    ensures InRange(c + [i]) && Bounded(c + [i], hi, b)
  {
    var c' := c + [i];
    var t := if EndsInReturn(c') then |c'| - 1 else |c'|;
    forall j | 0 <= j < |c'| ensures TargetOk(c', j, t) {
      assert j < |c| ==> TargetOk(c, j, |c|);
      assert j < |c| ==> (Open(c', j) <==> Open(c, j));
    }
    forall j | 0 <= j < hi ensures Within(c'[j], b) {
      assert Within(c[j], b);
    }
  }

  lemma InRangeTo(code: seq<Instr>)
    requires InRange(code)
    ensures TargetsTo(code, |code|)
  {
    var t := if EndsInReturn(code) then |code| - 1 else |code|;
    forall i | 0 <= i < |code| ensures TargetOk(code, i, |code|) {
      assert TargetOk(code, i, t);
    }
  }

  lemma EmitBounds(st: State, i: Instr, outer: multiset<nat>, hi: int)
    requires Tidy(st.code, multiset(st.pending) + outer) && Emit(st, i).Ok?
    requires InRange(st.code) && Bounded(st.code, hi, st.maxReg) && (i.op == Jump ==> i.d == UNPATCHED)
    requires hi <= |st.code|
    ensures InRange(Emit(st, i).value.code) && Bounded(Emit(st, i).value.code, hi, st.maxReg)
  {
    var len := |st.code|;
    PendingOpen(st, outer);
    InRangeTo(st.code);
    PatchListBounds(st.code, st.pending, len, NO_REG, len, hi, st.maxReg, len);
    PatchListCloses(st.code, st.pending, len, NO_REG, len);
    AppendBounds(PatchList(st.code, st.pending, len, NO_REG, len).value, i, hi, st.maxReg);
  }

  /** Emitting an instruction that is neither a test nor a jump. */
  lemma EmitSound(st: State, i: Instr, outer: multiset<nat>)
    requires Sound(st, |st.code|, multiset(st.pending) + outer) && Emit(st, i).Ok?
    requires !IsTest(i) && i.op != Jump && i.a != NO_REG
    ensures var st' := Emit(st, i).value;
      && st' == st.(code := st'.code, pending := [])
      && |st'.code| == |st.code| + 1 && st'.code[|st.code|] == i
      && Sound(st', |st.code|, outer)
      && Extends(st, st') && (i.op != Return ==> Grows(st, |st.code|, st', NO_REG))
      && (Within(i, st.maxReg) ==> Sound(st', |st'.code|, outer))
  {
    EmitShape(st, i, outer);
    EmitBounds(st, i, outer, |st.code|);
    assert outer + Opened(i, |st.code|) == outer;
  }

  /** The new jump and the pending ones become one list. */
  lemma EmitJumpShape(st: State, outer: multiset<nat>)
    requires Tidy(st.code, multiset(st.pending) + outer) && EmitJump(st).Ok?
    requires InRange(st.code) && Bounded(st.code, |st.code|, st.maxReg) && RegsOk(st) && st.code != []
    requires IsCopy(st.code[|st.code| - 1]) ==> st.code[|st.code| - 1].a == NO_REG
    ensures var (st', list) := EmitJump(st).value;
      && st' == st.(code := st'.code, pending := [])
      && |st'.code| == |st.code| + 1 && Open(st'.code, |st.code|)
      && list == [|st.code|] + st.pending
      && Sound(st', |st'.code|, multiset(list) + outer) && !EndsInReturn(st'.code)
      && Extends(st, st') && (st.pending == [] ==> Grows(st, |st.code|, st', NO_REG))
  {
    var st0 := st.(pending := []);
    var i := InstrAJ(Jump, st.nextReg, Cast16(NO_JUMP));
    assert i.d == UNPATCHED;
    assert multiset(st0.pending) + (multiset(st.pending) + outer) == multiset(st.pending) + outer;
    EmitShape(st0, i, multiset(st.pending) + outer);
    EmitBounds(st0, i, multiset(st.pending) + outer, |st.code|);
    var (st', list) := EmitJump(st).value;
    var len: nat := |st.code|;
    assert multiset(list) + outer == multiset(st.pending) + outer + multiset{len};
  }

  /** A value instruction whose destination is not known yet. */
  lemma EmitReloc(st: State, d: Desc, i: Instr, outer: multiset<nat>, upvals: nat)
    requires Described(st, d, outer, upvals) && !d.kind.RelocK? && Emit(st, i).Ok?
    requires IsValueOp(i.op) && i.a == 0 && Fetchable(i, st.consts, upvals) && ReadsBelow(i, st.maxReg)
    ensures var st' := Emit(st, i).value;
      && Described(st', d.(kind := RelocK(|st.code|)), outer, upvals)
      && Grows(st, |st.code|, st', NO_REG)
      && st' == st.(code := st'.code, pending := [])
      && |st'.code| == |st.code| + 1 && st'.code[|st.code|] == i
  {
    var own := multiset(d.tj) + multiset(d.fj) + outer;
    assert multiset(st.pending) + own == Lists(st, d) + outer;
    EmitSound(st, i, own);
    var st' := Emit(st, i).value;
    assert Lists(st', d) + outer == own;
  }

  lemma DischargeShape(st: State, d: Desc, outer: multiset<nat>, upvals: nat)
    requires Described(st, d, outer, upvals) && Discharge(st, d).Ok?
    ensures var (st', d') := Discharge(st, d).value;
      && Described(st', d', outer, upvals) && Grows(st, Stop(st, d), st', NO_REG)
      && st' == st.(code := st'.code, pending := st'.pending)
      && d' == d.(kind := d'.kind) && !d'.kind.LocalK? && !d'.kind.GlobalK? && !d'.kind.UpvalK?
      && (d.kind.LocalK? ==> d'.kind == NonRelocK(d.kind.r) && st' == st)
      && (!d.kind.LocalK? && d'.kind.NonRelocK? ==> d'.kind == d.kind)
      && (st.pending == st'.pending || st'.pending == [])
      && Stop(st, d) <= Stop(st', d')
  {
    var (st', d') := Discharge(st, d).value;
    if d.kind.UpvalK? {
      EmitReloc(st, d, Instr(GetUpval, 0, d.kind.k), outer, upvals);
    } else if d.kind.GlobalK? {
      EmitReloc(st, d, Instr(GetGlobal, 0, d.kind.k), outer, upvals);
    } else {
      GrowsRefl(st, Stop(st, d), NO_REG);
    }
  }

  lemma GrowsRefl(st: State, hi: int, n: int)
    requires hi <= |st.code| && n <= NO_REG
    ensures Grows(st, hi, st, n)
  {
  }

  // ----- placing a value in a register -----

  /** setbc_a on the relocatable instruction at the end. */
  lemma SetDest(st: State, r: Reg, lists: multiset<nat>)
    requires st.code != [] && Sound(st, |st.code| - 1, lists) && r < NO_REG && r < st.maxReg
    requires IsValueOp(st.code[|st.code| - 1].op) && ReadsBelow(st.code[|st.code| - 1], st.maxReg)
    ensures var pos := |st.code| - 1;
      var st' := st.(code := st.code[pos := st.code[pos].(a := r)]);
      Sound(st', |st.code|, lists) && Grows(st, pos, st', NO_REG)
  {
    var pos := |st.code| - 1;
    var c := st.code[pos := st.code[pos].(a := r)];
    var t := if EndsInReturn(c) then |c| - 1 else |c|;
    forall i | 0 <= i < |c| ensures WfAt(c, i) && TargetOk(c, i, t) && Within(c[i], st.maxReg) {
      assert WfAt(st.code, i) && TargetOk(st.code, i, t);
      assert i < pos ==> Within(st.code[i], st.maxReg);
    }
    forall i | 0 <= i < pos ensures LaterAt(st.code, c, i, NO_REG, -1, multiset{}) {
    }
    forall j | 1 <= j < |c| ensures KeptAt(st.code, c, j) {
    }
    forall j: nat ensures lists[j] == if Open(c, j) then 1 else 0 {
      assert lists[j] == if Open(st.code, j) then 1 else 0;
    }
  }

  /** A load into i.a, on a state that may have gained a constant. */
  lemma EmitLoad(st: State, d: Desc, i: Instr, st1: State, outer: multiset<nat>, upvals: nat)
    requires Described(st, d, outer, upvals) && !d.kind.RelocK?
    requires st1 == st.(consts := st1.consts) && st.consts <= st1.consts && Emit(st1, i).Ok?
    requires IsValueOp(i.op) && i.a < NO_REG && Within(i, st.maxReg)
    ensures var st' := Emit(st1, i).value;
      && Described(st', d.(kind := NonRelocK(i.a)), outer, upvals)
      && Grows(st, |st.code|, st', NO_REG)
      && st' == st.(code := st'.code, consts := st'.consts, pending := [])
  {
    hide Emit, Tidy, Later, Kept, Quiet;
    var own := multiset(d.tj) + multiset(d.fj) + outer;
    assert multiset(st.pending) + own == Lists(st, d) + outer;
    EmitSound(st1, i, own);
    var st' := Emit(st1, i).value;
    assert Lists(st', d) + outer == own;
    GrowsFrom(st, st1, |st.code|, st', NO_REG);
  }

  /** A new constant makes no difference. */
  lemma GrowsFrom(st: State, st1: State, hi: int, st': State, n: int)
    requires Grows(st1, hi, st', n) && st1 == st.(consts := st1.consts) && st.consts <= st1.consts
    ensures Grows(st, hi, st', n)
  {
    forall j | j in st.pending ensures QuietAt(st, st', j) {
      assert QuietAt(st1, st', j);
    }
  }

  lemma PlaceShape(st: State, d: Desc, r: Reg, outer: multiset<nat>, upvals: nat)
    requires Described(st, d, outer, upvals) && Place(st, d.kind, r).Ok?
    requires !d.kind.LocalK? && !d.kind.GlobalK? && !d.kind.UpvalK?
    requires r < NO_REG && r < st.maxReg
    ensures var st' := Place(st, d.kind, r).value;
      && Described(st', d.(kind := NonRelocK(r)), outer, upvals)
      && Grows(st, Stop(st, d), st', NO_REG)
      && st' == st.(code := st'.code, consts := st'.consts, pending := st'.pending)
      && (st.pending == st'.pending || st'.pending == [])
  {
    match d.kind {
      case RelocK(pos) =>
        SetDest(st, r, Lists(st, d) + outer);
      case PrimK(p) =>
        EmitLoad(st, d, Instr(Primitive, r, Cast16(p)), st, outer, upvals);
      case TextK(s) =>
        var (st1, i) := MakeConst(st, Str(s)).value;
        EmitLoad(st, d, Instr(ConstNum, r, i), st1, outer, upvals);
      case NumK(n) =>
        var (st1, i) := MakeConst(st, Num(n)).value;
        EmitLoad(st, d, Instr(ConstNum, r, i), st1, outer, upvals);
      case NonRelocK(r') =>
        if r' == r {
          GrowsRefl(st, |st.code|, NO_REG);
        } else {
          EmitLoad(st, d, Instr(Mov, r, r'), st, outer, upvals);
        }
    }
  }

  lemma ToRegNoBranchShape(st: State, d: Desc, r: Reg, outer: multiset<nat>, upvals: nat)
    requires Described(st, d, outer, upvals) && ToRegNoBranch(st, d, r).Ok?
    requires r < NO_REG && r < st.maxReg
    ensures var (st', d') := ToRegNoBranch(st, d, r).value;
      && Described(st', d', outer, upvals) && d' == d.(kind := NonRelocK(r))
      && Grows(st, Stop(st, d), st', NO_REG)
      && st' == st.(code := st'.code, consts := st'.consts, pending := st'.pending)
      && (st.pending == st'.pending || st'.pending == [])
  {
    var (st1, d1) := Discharge(st, d).value;
    DischargeShape(st, d, outer, upvals);
    PlaceShape(st1, d1, r, outer, upvals);
    GrowsTrans(st, Stop(st, d), st1, Stop(st1, d1), Place(st1, d1.kind, r).value, NO_REG, NO_REG);
  }

  // ----- resolving the jumps of a description -----

  /** The code after Loads, and what is pending then. */
  lemma LoadsCode(st: State, r: Reg)
    requires Loads(st, r).Ok?
    ensures EmitJump(st).Ok?
    ensures var (st1, over) := EmitJump(st).value;
      && st1.pending == []
      && Loads(st, r).value == st1.(
          code := st1.code + [Instr(Primitive, r, 2), InstrAJ(Jump, st.nextReg, 1), Instr(Primitive, r, 1)],
          pending := over)
  {
    var (st1, over) := EmitJump(st).value;
    var st2 := Emit(st1, Instr(Primitive, r, 2)).value;
    var st3 := Emit(st2, InstrAJ(Jump, st2.nextReg, 1)).value;
    var st4 := Emit(st3, Instr(Primitive, r, 1)).value;
    assert st4.code == st1.code + [Instr(Primitive, r, 2), InstrAJ(Jump, st.nextReg, 1), Instr(Primitive, r, 1)];
    assert st4.pending + over == over;
  }

  lemma AppendLoads(c: seq<Instr>, r: Reg, a: Reg, b: int, lists: multiset<nat>)
    requires Tidy(c, lists) && !EndsInTest(c) && InRange(c) && Bounded(c, |c|, b)
    requires r < NO_REG && r < b && a < NO_REG
    ensures var c' := c + [Instr(Primitive, r, 2), InstrAJ(Jump, a, 1), Instr(Primitive, r, 1)];
      && Tidy(c', lists) && !EndsInTest(c') && !EndsInReturn(c') && InRange(c') && Bounded(c', |c'|, b)
      && Later(c, c', 0, |c|, NO_REG, -1, multiset{}) && Kept(c, c')
  {
    var i1, i2, i3 := Instr(Primitive, r, 2), InstrAJ(Jump, a, 1), Instr(Primitive, r, 1);
    var c' := c + [i1, i2, i3];
    assert c' == c + [i1] + [i2] + [i3];
    EmitTidy(c, i1, lists);
    assert lists + Opened(i1, |c|) == lists;
    EmitTidy(c + [i1], i2, lists);
    assert lists + Opened(i2, |c| + 1) == lists;
    EmitTidy(c + [i1] + [i2], i3, lists);
    assert lists + Opened(i3, |c| + 2) == lists;
    InRangeTo(c);
    forall i | 0 <= i < |c'| ensures TargetOk(c', i, |c'|) && Within(c'[i], b) {
      assert i < |c| ==> TargetOk(c, i, |c|) && Within(c[i], b);
    }
    forall i | 0 <= i < |c| ensures LaterAt(c, c', i, NO_REG, -1, multiset{}) {
    }
    forall j | 1 <= j < |c| ensures KeptAt(c, c', j) {
    }
  }

  /** One list among others, patched to the end of the code. */
  lemma PatchToEnd(code: seq<Instr>, list: seq<nat>, r: Reg, ot: nat, outer: multiset<nat>,
                   n: int, x: int, own: multiset<nat>, b: int)
    requires PatchList(code, list, |code|, r, ot).Ok?
    requires Tidy(code, multiset(list) + outer) && !Open(code, ot) && ot <= |code|
    requires n <= NO_REG && (r >= n || (r == x && multiset(list) <= own))
    requires TargetsTo(code, |code|) && Bounded(code, |code|, b) && r < b
    ensures var c := PatchList(code, list, |code|, r, ot).value;
      && |c| == |code| && Tidy(c, outer) && Kept(code, c)
      && Later(code, c, 0, |code|, n, x, own)
      && TargetsTo(c, |code|) && Bounded(c, |code|, b)
      && (code != [] ==> c[|c| - 1].op == code[|c| - 1].op)
      && (forall j: nat {:trigger Open(c, j)} :: Open(c, j) ==> Open(code, j))
  {
    var end := |code|;
    ListIsOpen(code, list, multiset(list) + outer);
    assert !Open(code, end);
    PatchListTidy(code, list, end, r, ot, multiset(list) + outer);
    assert multiset(list) + outer - multiset(list) == outer;
    PatchListLater(code, list, end, r, ot, n, x, own);
    PatchListKept(code, list, end, r, ot);
    PatchListBounds(code, list, end, r, ot, end, b, end);
    PatchListCloses(code, list, end, r, ot);
    PatchedEnd(code, list, end, r, ot);
  }

  lemma PatchBothShape(code: seq<Instr>, d: Desc, r: Reg, f: nat, t: nat, outer: multiset<nat>,
                       n: int, x: int, own: multiset<nat>, b: int)
    requires PatchBoth(code, d, |code|, r, f, t).Ok?
    requires Tidy(code, multiset(d.fj) + (multiset(d.tj) + outer)) && !Open(code, f) && !Open(code, t)
    requires f <= |code| && t <= |code|
    requires n <= NO_REG && (r >= n || (r == x && multiset(d.tj) + multiset(d.fj) <= own))
    requires TargetsTo(code, |code|) && Bounded(code, |code|, b) && r < b
    ensures var c := PatchBoth(code, d, |code|, r, f, t).value;
      && |c| == |code| && Tidy(c, outer) && Kept(code, c)
      && Later(code, c, 0, |code|, n, x, own)
      && TargetsTo(c, |code|) && Bounded(c, |code|, b)
      && (code != [] ==> c[|c| - 1].op == code[|c| - 1].op)
  {
    var c1 := PatchList(code, d.fj, |code|, r, f).value;
    var c := PatchBoth(code, d, |code|, r, f, t).value;
    PatchToEnd(code, d.fj, r, f, multiset(d.tj) + outer, n, x, own, b);
    PatchToEnd(c1, d.tj, r, t, outer, n, x, own, b);
    LaterTwice(code, c1, c, 0, |code|, n, x, own);
    KeptTrans(code, c1, c);
  }

  lemma ResolveShape(st: State, d: Desc, r: Reg, outer: multiset<nat>, upvals: nat, n: int, x: int, own: multiset<nat>)
    requires Described(st, d, outer, upvals) && d.kind == NonRelocK(r) && HasJump(d) && Resolve(st, d, r).Ok?
    requires n <= NO_REG && (r >= n || (r == x && multiset(d.tj) + multiset(d.fj) <= own))
    requires r < st.maxReg
    ensures var st' := Resolve(st, d, r).value;
      && Described(st', Desc(NonRelocK(r), [], []), outer, upvals)
      && GrowsFor(st, |st.code|, st', n, x, own)
      && st' == st.(code := st'.code, pending := st'.pending)
  {
    hide Loads, PatchBoth, NoValue, Tidy, InRange, Bounded, Later, Kept;
    var st' := Resolve(st, d, r).value;
    if NoValue(st.code, d.tj) || NoValue(st.code, d.fj) {
      LoadsShape(st, d, r, outer, upvals);
      var st1 := Loads(st, r).value;
      var end := |st1.code|;
      PatchedShape(st1, d, r, end - 3, end - 1, outer, upvals, n, x, own);
      GrowsMono(st, |st.code|, st1, NO_REG, |st.code|, n);
      GrowsForTrans(st, st1, st', n, x, own);
    } else {
      assert !Open(st.code, |st.code|);
      PatchedShape(st, d, r, |st.code|, |st.code|, outer, upvals, n, x, own);
    }
  }

  lemma PatchedShape(st: State, d: Desc, r: Reg, f: nat, t: nat, outer: multiset<nat>, upvals: nat,
                     n: int, x: int, own: multiset<nat>)
    requires Sound(st, |st.code|, Lists(st, d) + outer) && !EndsInReturn(st.code) && r < NO_REG
    requires PatchBoth(st.code, d, |st.code|, r, f, t).Ok?
    requires n <= NO_REG && (r >= n || (r == x && multiset(d.tj) + multiset(d.fj) <= own))
    requires r < st.maxReg && !Open(st.code, f) && !Open(st.code, t) && f <= |st.code| && t <= |st.code|
    ensures var st' := st.(code := PatchBoth(st.code, d, |st.code|, r, f, t).value);
      && Described(st', Desc(NonRelocK(r), [], []), outer, upvals)
      && GrowsFor(st, |st.code|, st', n, x, own)
  {
    hide PatchBoth, Tidy, Bounded, TargetsTo, Later, Kept, Quiet;
    var st' := st.(code := PatchBoth(st.code, d, |st.code|, r, f, t).value);
    InRangeTo(st.code);
    assert multiset(d.fj) + (multiset(d.tj) + (multiset(st.pending) + outer)) == Lists(st, d) + outer;
    PatchBothShape(st.code, d, r, f, t, multiset(st.pending) + outer, n, x, own, st.maxReg);
    assert Lists(st', Desc(NonRelocK(r), [], [])) == multiset(st'.pending);
    KeptQuiet(st, st', multiset(st'.pending) + outer);
  }

  lemma LoadsShape(st: State, d: Desc, r: Reg, outer: multiset<nat>, upvals: nat)
    requires Described(st, d, outer, upvals) && d.kind == NonRelocK(r) && HasJump(d) && Loads(st, r).Ok?
    requires r < st.maxReg
    ensures var st1 := Loads(st, r).value;
      && Sound(st1, |st1.code|, Lists(st1, d) + outer) && !EndsInReturn(st1.code)
      && Grows(st, |st.code|, st1, NO_REG)
      && st1 == st.(code := st1.code, pending := [|st.code|] + st.pending)
      && |st1.code| == |st.code| + 4
      && !Open(st1.code, |st.code| + 1) && !Open(st1.code, |st.code| + 3)
  {
    LoadsCode(st, r);
    var own := multiset(d.tj) + multiset(d.fj) + outer;
    assert multiset(st.pending) + own == Lists(st, d) + outer;
    HasOpen(st.code, d, Lists(st, d) + outer);
    EmitJumpShape(st, own);
    var (st0, over) := EmitJump(st).value;
    AppendLoads(st0.code, r, st.nextReg, st.maxReg, multiset(over) + own);
    var st1 := Loads(st, r).value;
    assert multiset(over) + own == Lists(st1, d) + outer;
    LaterMono(st0.code, st1.code, 0, |st0.code|, NO_REG, -1, multiset{}, 0, |st.code|, NO_REG, -1, multiset{});
    LaterTrans(st.code, st0.code, st1.code, 0, |st.code|, NO_REG, NO_REG, -1, multiset{}, multiset{});
    KeptTrans(st.code, st0.code, st1.code);
    KeptQuiet(st, st1, Lists(st1, d) + outer);
  }

  lemma HasOpen(code: seq<Instr>, d: Desc, lists: multiset<nat>)
    requires Tidy(code, lists) && HasJump(d) && multiset(d.tj) + multiset(d.fj) <= lists
    ensures code != []
  {
    var j := if d.tj != [] then d.tj[0] else d.fj[0];
    assert j in multiset(d.tj) + multiset(d.fj);
    assert lists[j] >= 1;
    assert Open(code, j);
  }

  lemma ToRegShape(st: State, d: Desc, r: Reg, outer: multiset<nat>, upvals: nat, n: int, x: int, own: multiset<nat>)
    requires Described(st, d, outer, upvals) && ToReg(st, d, r).Ok?
    requires n <= NO_REG && (r >= n || (r == x && multiset(d.tj) + multiset(d.fj) <= own))
    requires r < NO_REG && r < st.maxReg
    ensures var (st', d') := ToReg(st, d, r).value;
      && Described(st', d', outer, upvals) && d' == Desc(NonRelocK(r), [], [])
      && GrowsFor(st, Stop(st, d), st', n, x, own)
      && st' == st.(code := st'.code, consts := st'.consts, pending := st'.pending)
  {
    var (st1, d1) := ToRegNoBranch(st, d, r).value;
    ToRegNoBranchShape(st, d, r, outer, upvals);
    var hi := Stop(st, d);
    var st' := ToReg(st, d, r).value.0;
    LaterMono(st.code, st1.code, 0, hi, NO_REG, -1, multiset{}, 0, hi, n, x, own);
    if HasJump(d1) {
      ResolveShape(st1, d1, r, outer, upvals, n, x, own);
      LaterMono(st1.code, st'.code, 0, |st1.code|, n, x, own, 0, hi, n, x, own);
      LaterTwice(st.code, st1.code, st'.code, 0, hi, n, x, own);
      KeptTrans(st.code, st1.code, st'.code);
      QuietTrans(st, st1, st');
    }
  }

  // ----- registers -----

  /** A local, or the temporary on top of the registers. */
  ghost predicate Usable(st: State, d: Desc) {
    && (d.kind.LocalK? ==> d.kind.r < st.actVar)
    && (d.kind.NonRelocK? ==> d.kind.r < st.actVar || (!HasJump(d) && d.kind.r == st.nextReg - 1))
  }

  lemma SoundRegs(st: State, hi: int, lists: multiset<nat>, st2: State)
    requires Sound(st, hi, lists) && st2 == st.(nextReg := st2.nextReg, maxReg := st2.maxReg)
    requires st.maxReg <= st2.maxReg && RegsOk(st2)
    ensures Sound(st2, hi, lists) && Grows(st, |st.code|, st2, NO_REG)
  {
    forall i | 0 <= i < hi && i < |st.code| ensures Within(st.code[i], st2.maxReg) {
      assert Within(st.code[i], st.maxReg);
    }
    GrowsRefl(st, |st.code|, NO_REG);
  }

  lemma ReserveShape(st: State, d: Desc, outer: multiset<nat>, upvals: nat)
    requires Described(st, d, outer, upvals) && st.nextReg <= 253
    ensures var st2 := RegReserve(st);
      && Described(st2, d, outer, upvals) && st2.nextReg == st.nextReg + 1 && st.nextReg < st2.maxReg
      && Grows(st, |st.code|, st2, NO_REG) && st2.code == st.code && st2.pending == st.pending
  {
    SoundRegs(st, Stop(st, d), Lists(st, d) + outer, RegReserve(st));
  }

  lemma NextRegShape(st: State, d: Desc, outer: multiset<nat>, upvals: nat, n: int)
    requires Described(st, d, outer, upvals) && NextReg(st, d).Ok? && n <= st.nextReg <= 253
    requires d.kind.LocalK? || d.kind.NonRelocK? ==> d.kind.r < st.actVar
    ensures var (st', d') := NextReg(st, d).value;
      && Described(st', d', outer, upvals) && d' == Desc(NonRelocK(st.nextReg), [], [])
      && Grows(st, Stop(st, d), st', n)
      && st'.nextReg == st.nextReg + 1
  {
    hide ToReg, Resolve, PatchList, Emit, Place;
    var (st1, d1) := Discharge(st, d).value;
    DischargeShape(st, d, outer, upvals);
    assert ExprFree(st1, d1) == st1;
    ReserveShape(st1, d1, outer, upvals);
    var st2 := RegReserve(st1);
    ToRegShape(st2, d1, st.nextReg, outer, upvals, n, -1, multiset{});
    GrowsTrans(st, Stop(st, d), st1, |st1.code|, st2, NO_REG, NO_REG);
    GrowsMono(st, Stop(st, d), st2, NO_REG, Stop(st, d), n);
    GrowsTrans(st, Stop(st, d), st2, Stop(st1, d1), NextReg(st, d).value.0, n, n);
  }

  /** The value is in a register already and no jump leads to it. */
  predicate IsHere(d: Desc) { (d.kind.NonRelocK? || d.kind.LocalK?) && !HasJump(d) }

  /** The value ends in a register: a local as it is, anything else in the next register. */
  lemma AnyRegShape(st: State, d: Desc, outer: multiset<nat>, upvals: nat, n: int)
    requires Described(st, d, outer, upvals) && AnyReg(st, d).Ok? && n <= st.nextReg <= 253 && Usable(st, d)
    ensures var (st', d') := AnyReg(st, d).value;
      && Described(st', d', outer, upvals) && d'.kind.NonRelocK? && !HasJump(d') && Usable(st', d')
      && Grows(st, Stop(st, d), st', n)
      && (if IsHere(d) then st' == st && d'.kind.r == d.kind.r
          else st'.nextReg == st.nextReg + 1 && d'.kind.r == st.nextReg)
      && (d.kind.NonRelocK? && !HasJump(d) ==> st' == st && d' == d)
  {
    var (st1, d1) := Discharge(st, d).value;
    DischargeShape(st, d, outer, upvals);
    if d1.kind.NonRelocK? && !HasJump(d1) {
      GrowsRefl(st, Stop(st, d), n);
    } else {
      NextRegShape(st1, d1, outer, upvals, n);
      GrowsMono(st, Stop(st, d), st1, NO_REG, Stop(st, d), n);
      GrowsTrans(st, Stop(st, d), st1, Stop(st1, d1), AnyReg(st, d).value.0, n, n);
    }
  }

  /** expr_toval leaves no jumps. */
  lemma ToValShape(st: State, d: Desc, outer: multiset<nat>, upvals: nat, n: int)
    requires Described(st, d, outer, upvals) && ToVal(st, d).Ok? && n <= st.nextReg <= 253 && Usable(st, d)
    ensures var (st', d') := ToVal(st, d).value;
      && Described(st', d', outer, upvals) && !HasJump(d') && Usable(st', d')
      && !d'.kind.LocalK? && !d'.kind.GlobalK? && !d'.kind.UpvalK?
      && Grows(st, Stop(st, d), st', n)
      && (if HasJump(d) then st'.nextReg == st.nextReg + 1 && d'.kind == NonRelocK(st.nextReg)
          else st'.nextReg == st.nextReg && (d.kind.LocalK? ==> d'.kind == NonRelocK(d.kind.r) && st' == st)
               && (d'.kind.NonRelocK? ==> IsHere(d)))
      && Stop(st, d) <= Stop(st', d')
      && (d.kind.NonRelocK? && !HasJump(d) ==> st' == st && d' == d)
  {
    hide AnyReg, Emit;
    if HasJump(d) {
      AnyRegShape(st, d, outer, upvals, n);
    } else {
      DischargeShape(st, d, outer, upvals);
      GrowsMono(st, Stop(st, d), ToVal(st, d).value.0, NO_REG, Stop(st, d), n);
    }
  }

  // ----- branches -----

  /** OP_NOT at the end becomes a test. */
  lemma SetTest(st: State, cond: bool, lists: multiset<nat>)
    requires st.code != [] && Sound(st, |st.code| - 1, lists)
    requires IsValueOp(st.code[|st.code| - 1].op) && st.code[|st.code| - 1].d < st.maxReg
    ensures var pos := |st.code| - 1;
      var st' := st.(code := st.code[pos := Instr(JumpIf(cond), 0, st.code[pos].d)]);
      && Tidy(st'.code, lists) && InRange(st'.code) && Bounded(st'.code, |st.code|, st.maxReg)
      && Grows(st, pos, st', NO_REG)
  {
    var pos := |st.code| - 1;
    var c := st.code[pos := Instr(JumpIf(cond), 0, st.code[pos].d)];
    var t := if EndsInReturn(c) then |c| - 1 else |c|;
    forall i | 0 <= i < |c| ensures WfAt(c, i) && TargetOk(c, i, t) && Within(c[i], st.maxReg) {
      assert WfAt(st.code, i) && TargetOk(st.code, i, t);
      assert i < pos ==> Within(st.code[i], st.maxReg);
    }
    forall i | 0 <= i < pos ensures LaterAt(st.code, c, i, NO_REG, -1, multiset{}) {
    }
    forall j | 1 <= j < |c| ensures KeptAt(st.code, c, j) {
    }
    forall j: nat ensures lists[j] == if Open(c, j) then 1 else 0 {
      assert lists[j] == if Open(st.code, j) then 1 else 0;
    }
  }

  /** A test without destination, then its jump. */
  lemma TestAndJump(st: State, cond: bool, r: Reg, outer: multiset<nat>)
    requires Sound(st, |st.code|, multiset(st.pending) + outer) && r < st.maxReg
    requires Emit(st, Instr(CopyJumpIf(cond), NO_REG, r)).Ok?
    requires EmitJump(Emit(st, Instr(CopyJumpIf(cond), NO_REG, r)).value).Ok?
    ensures var st1 := Emit(st, Instr(CopyJumpIf(cond), NO_REG, r)).value;
      var (st2, pc) := EmitJump(st1).value;
      && st2 == st.(code := st2.code, pending := [])
      && pc == [|st.code| + 1] && |st2.code| == |st.code| + 2
      && st2.code[|st.code|] == Instr(CopyJumpIf(cond), NO_REG, r)
      && Sound(st2, |st2.code|, multiset(pc) + outer) && !EndsInReturn(st2.code)
      && Grows(st, |st.code|, st2, NO_REG)
  {
    var i := Instr(CopyJumpIf(cond), NO_REG, r);
    var st1 := Emit(st, i).value;
    EmitShape(st, i, outer);
    EmitBounds(st, i, outer, |st.code|);
    assert outer + Opened(i, |st.code|) == outer;
    assert multiset(st1.pending) + outer == outer;
    BoundedTest(st1);
    EmitJumpShape(st1, outer);
    var (st2, pc) := EmitJump(st1).value;
    GrowsTrans(st, |st.code|, st1, |st1.code|, st2, NO_REG, NO_REG);
    assert LaterAt(st1.code, st2.code, |st.code|, NO_REG, -1, multiset{});
    assert Open(st2.code, |st.code| + 1);
    assert WfAt(st2.code, |st.code|);
  }

  lemma BoundedTest(st: State)
    requires st.code != [] && Bounded(st.code, |st.code| - 1, st.maxReg)
    requires st.code[|st.code| - 1].op.CopyJumpIf? && st.code[|st.code| - 1].a == NO_REG
    requires st.code[|st.code| - 1].d < st.maxReg
    ensures Bounded(st.code, |st.code|, st.maxReg)
  {
    forall i | 0 <= i < |st.code| ensures Within(st.code[i], st.maxReg) {
      assert i < |st.code| - 1 ==> Within(st.code[i], st.maxReg);
    }
  }

  lemma BranchOperandShape(st: State, d: Desc, outer: multiset<nat>, upvals: nat)
    requires Described(st, d, outer, upvals) && BranchOperand(st, d).Ok? && st.nextReg <= 253
    requires !d.kind.LocalK? && !d.kind.GlobalK? && !d.kind.UpvalK?
    ensures var (st', d') := BranchOperand(st, d).value;
      && Described(st', d', outer, upvals) && Grows(st, Stop(st, d), st', NO_REG)
      && (if d.kind.NonRelocK? then st' == st && d' == d
          else st'.nextReg == st.nextReg + 1 && d' == d.(kind := NonRelocK(st.nextReg)))
  {
    hide ToRegNoBranch;
    if d.kind.NonRelocK? {
      GrowsRefl(st, |st.code|, NO_REG);
    } else {
      ReserveShape(st, d, outer, upvals);
      var st0 := RegReserve(st);
      ToRegNoBranchShape(st0, d, st.nextReg, outer, upvals);
      var st1 := ToRegNoBranch(st0, d, st.nextReg).value.0;
      GrowsMono(st, |st.code|, st0, NO_REG, Stop(st, d), NO_REG);
      GrowsTrans(st, Stop(st, d), st0, Stop(st, d), st1, NO_REG, NO_REG);
    }
  }

  /** The new jump is the last instruction, its test the one before. */
  lemma BranchShape(st: State, d: Desc, cond: bool, outer: multiset<nat>, upvals: nat)
    requires Described(st, d, outer, upvals) && Branch(st, d, cond).Ok? && st.nextReg <= 253
    requires !d.kind.LocalK? && !d.kind.GlobalK? && !d.kind.UpvalK?
    requires d.kind.NonRelocK? ==> d.kind.r < st.actVar
    ensures var (st', pc) := Branch(st, d, cond).value;
      && st'.pending == [] && |st'.code| >= 2 && pc == [|st'.code| - 1] && |st.code| <= |st'.code| - 1
      && Stop(st, d) < |st'.code| - 1
      && Sound(st', |st'.code|, multiset(pc) + (multiset(d.tj) + multiset(d.fj) + outer)) && !EndsInReturn(st'.code)
      && Grows(st, Stop(st, d), st', NO_REG)
      && Level(st') == Level(st) && st.nextReg <= st'.nextReg <= st.nextReg + 1
  {
    hide Branch, Emit, EmitJump, BranchOperand, Described, Grows;
    if d.kind.RelocK? && At(st.code, d.kind.pos).op == Not {
      BranchNot(st, d, cond, outer, upvals);
      GrowsActVar(st, Stop(st, d), Branch(st, d, cond).value.0, NO_REG);
    } else {
      var own := multiset(d.tj) + multiset(d.fj) + outer;
      BranchSteps(st, d, cond);
      BranchOperandShape(st, d, outer, upvals);
      var (st1, d1) := BranchOperand(st, d).value;
      DescribedRegs(st, d, outer, upvals);
      DescribedParts(st1, d1, outer, upvals);
      GrowsActVar(st, Stop(st, d), st1, NO_REG);
      TestAndJump(st1, cond, d1.kind.r, own);
      var st2 := Emit(st1, Instr(CopyJumpIf(cond), NO_REG, d1.kind.r)).value;
      var (st3, pc) := EmitJump(st2).value;
      var st' := ExprFree(st3, d1);
      GrowsActVar(st1, |st1.code|, st3, NO_REG);
      GrowsTrans(st, Stop(st, d), st1, |st1.code|, st3, NO_REG, NO_REG);
      SoundRegs'(st3, multiset(pc) + own, st');
      GrowsTrans(st, Stop(st, d), st3, |st3.code|, st', NO_REG, NO_REG);
    }
  }

  lemma BranchSteps(st: State, d: Desc, cond: bool)
    requires Branch(st, d, cond).Ok? && !(d.kind.RelocK? && At(st.code, d.kind.pos).op == Not)
    ensures BranchOperand(st, d).Ok?
    ensures var (st1, d1) := BranchOperand(st, d).value;
      d1.kind.NonRelocK? ==>
        var i := Instr(CopyJumpIf(cond), NO_REG, d1.kind.r);
        && Emit(st1, i).Ok? && EmitJump(Emit(st1, i).value).Ok?
        && var (st3, pc) := EmitJump(Emit(st1, i).value).value;
          Branch(st, d, cond).value == (ExprFree(st3, d1), pc)
  {
    hide BranchOperand, Emit, EmitJump, ExprFree;
  }

  lemma SoundRegs'(st: State, lists: multiset<nat>, st2: State)
    requires Sound(st, |st.code|, lists) && st2 == st.(nextReg := st2.nextReg) && RegsOk(st2)
    ensures Sound(st2, |st.code|, lists) && Grows(st, |st.code|, st2, NO_REG)
  {
    SoundRegs(st, |st.code|, lists, st2);
  }

  lemma BranchNot(st: State, d: Desc, cond: bool, outer: multiset<nat>, upvals: nat)
    requires Described(st, d, outer, upvals) && Branch(st, d, cond).Ok?
    requires d.kind.RelocK? && At(st.code, d.kind.pos).op == Not
    ensures var (st', pc) := Branch(st, d, cond).value;
      && st' == st.(code := st'.code, pending := []) && pc == [|st.code|] && |st'.code| == |st.code| + 1
      && st'.code[|st.code| - 1] == Instr(JumpIf(!cond), 0, st.code[|st.code| - 1].d)
      && Sound(st', |st'.code|, multiset(pc) + (multiset(d.tj) + multiset(d.fj) + outer)) && !EndsInReturn(st'.code)
      && Grows(st, Stop(st, d), st', NO_REG)
  {
    hide Emit, EmitJump, ToRegNoBranch;
    var own := multiset(d.tj) + multiset(d.fj) + outer;
    assert Lists(st, d) + outer == own;
    SetTest(st, !cond, own);
    var pos := d.kind.pos;
    var st1 := st.(code := Put(st.code, pos, Instr(JumpIf(!cond), 0, st.code[pos].d)));
    assert multiset(st1.pending) + own == own;
    EmitJumpShape(st1, own);
    var st' := EmitJump(st1).value.0;
    GrowsMono(st1, |st1.code|, st', NO_REG, pos, NO_REG);
    GrowsTrans(st, pos, st1, pos, st', NO_REG, NO_REG);
    TestKept(st1.code, st'.code, pos);
  }

  /** A resolved instruction stays as it is. */
  lemma TestKept(c: seq<Instr>, f: seq<Instr>, i: int)
    requires Later(c, f, 0, |c|, NO_REG, -1, multiset{}) && 0 <= i < |c| && c[i].op.JumpIf?
    ensures f[i] == c[i]
  {
    assert LaterAt(c, f, i, NO_REG, -1, multiset{});
  }

  /** The jumps of one truth stay here, the others leave with the new one. */
  lemma StayAndLeave(st: State, d: Desc, truth: bool, pc: seq<nat>, outer: multiset<nat>)
    requires Sound(st, |st.code|, multiset(pc) + (multiset(d.tj) + multiset(d.fj) + outer)) && st.pending == []
    ensures var stay, away := if truth then d.tj else d.fj, if truth then d.fj else d.tj;
      var st' := st.(pending := stay);
      && Sound(st', |st.code|, multiset(stay) + (multiset(away + pc) + outer))
      && Grows(st, |st.code|, st', NO_REG)
  {
    hide Tidy, InRange, Bounded;
    var stay, away := if truth then d.tj else d.fj, if truth then d.fj else d.tj;
    assert multiset(pc) + (multiset(d.tj) + multiset(d.fj) + outer) == multiset(stay) + (multiset(away + pc) + outer);
    GrowsRefl(st, |st.code|, NO_REG);
  }

  /** The steps of BranchOn. */
  lemma BranchOnParts(st: State, d: Desc, truth: bool, st1: State, d1: Desc)
    requires BranchOn(st, d, truth).Ok? && Discharge(st, d) == Ok((st1, d1))
    ensures Branch(st1, d1, !truth).Ok?
    ensures var (st2, pc) := Branch(st1, d1, !truth).value;
      var stay, away := if truth then d1.tj else d1.fj, if truth then d1.fj else d1.tj;
      st2.pending == [] ==> BranchOn(st, d, truth).value == (st2.(pending := stay), away + pc)
  {
    hide Discharge, Branch;
    var stay := if truth then d1.tj else d1.fj;
    assert [] + stay == stay;
  }

  lemma BranchOnShape(st: State, d: Desc, truth: bool, outer: multiset<nat>, upvals: nat)
    requires Described(st, d, outer, upvals) && BranchOn(st, d, truth).Ok? && st.nextReg <= 253
    requires d.kind.NonRelocK? || d.kind.LocalK? ==> d.kind.r < st.actVar
    ensures var (st', leave) := BranchOn(st, d, truth).value;
      && Sound(st', |st'.code|, multiset(st'.pending) + (multiset(leave) + outer))
      && !EndsInReturn(st'.code) && |st'.code| > |st.code| && Stop(st, d) < |st'.code| - 1
      && leave == (if truth then d.fj else d.tj) + [|st'.code| - 1]
      && Grows(st, Stop(st, d), st', NO_REG)
      && Level(st') == Level(st) && st.nextReg <= st'.nextReg <= st.nextReg + 1
  {
    hide Discharge, Branch, BranchOn, Tidy, InRange, Bounded, Later, Kept, KindOk, EndsInTest, Described, Grows;
    assert Discharge(st, d).Ok? by { DischargeFirst(st, d, truth); }
    DischargeShape(st, d, outer, upvals);
    var (st1, d1) := Discharge(st, d).value;
    DescribedRegs(st, d, outer, upvals);
    BranchOnParts(st, d, truth, st1, d1);
    BranchShape(st1, d1, !truth, outer, upvals);
    var (st2, pc) := Branch(st1, d1, !truth).value;
    GrowsTrans(st, Stop(st, d), st1, Stop(st1, d1), st2, NO_REG, NO_REG);
    StayAndLeave(st2, d1, truth, pc, outer);
    var st3 := BranchOn(st, d, truth).value.0;
    GrowsActVar(st, Stop(st, d), st2, NO_REG);
    GrowsTrans(st, Stop(st, d), st2, |st2.code|, st3, NO_REG, NO_REG);
  }

  lemma DischargeFirst(st: State, d: Desc, truth: bool)
    requires BranchOn(st, d, truth).Ok?
    ensures Discharge(st, d).Ok?
  {
  }

  // ----- operators -----

  /** A value in a register stays where it is. */
  lemma HereStays(st: State, d: Desc)
    requires d.kind.NonRelocK? && !HasJump(d)
    ensures ToVal(st, d) == Ok((st, d)) && AnyReg(st, d) == Ok((st, d)) && Operand(st, d) == Ok((st, d))
  {
  }

  lemma OperandShape(st: State, d: Desc, outer: multiset<nat>, upvals: nat, n: int)
    requires Described(st, d, outer, upvals) && Operand(st, d).Ok? && n <= st.nextReg <= 253 && Usable(st, d)
    ensures var (st', d') := Operand(st, d).value;
      && Described(st', d', outer, upvals) && d'.kind.NonRelocK? && !HasJump(d')
      && Grows(st, Stop(st, d), st', n)
      && (if IsHere(d) then st' == st && d'.kind.r == d.kind.r
          else st'.nextReg == st.nextReg + 1 && d'.kind.r == st.nextReg)
  {
    hide AnyReg, ToVal, KindOk, Tidy, InRange, Bounded, Later, Kept;
    ToValShape(st, d, outer, upvals, n);
    var (st1, d1) := ToVal(st, d).value;
    if d1.kind.NonRelocK? {
      HereStays(st1, d1);
    } else {
      AnyRegShape(st1, d1, outer, upvals, n);
      GrowsTrans(st, Stop(st, d), st1, Stop(st1, d1), AnyReg(st1, d1).value.0, n, n);
    }
  }

  /** Nothing but the state itself is described. */
  function Nothing(): Desc { Desc(PrimK(0), [], []) }

  lemma AddConstShape(st: State, d: Desc, v: Value, outer: multiset<nat>, upvals: nat)
    requires Described(st, d, outer, upvals)
    ensures var st' := AddConst(st, v).0;
      Described(st', d, outer, upvals) && Grows(st, |st.code|, st', NO_REG)
  {
    GrowsRefl(st, |st.code|, NO_REG);
  }

  /** Giving temporaries back. */
  lemma ReleaseShape(st: State, d: Desc, st': State, outer: multiset<nat>, upvals: nat)
    requires Described(st, d, outer, upvals) && !d.kind.RelocK? && !HasJump(d)
    requires st' == st.(nextReg := st'.nextReg) && st.actVar <= st'.nextReg + 1 && st'.nextReg <= st.nextReg
    ensures Described(st', Nothing(), outer, upvals) && Grows(st, |st.code|, st', NO_REG)
  {
    SoundRegs(st, |st.code|, Lists(st, d) + outer, st');
    assert Lists(st', Nothing()) == Lists(st, d);
  }

  /** nextReg after a binary operator that found st and the right operand d2. */
  function AfterBinary(st: State, d1: Desc, takesReg: bool): int {
    st.nextReg - (if RegOf(d1) >= st.actVar then 1 else 0) + (if takesReg && st.nextReg < st.actVar then 1 else 0)
  }

  ghost predicate LeftOk(st: State, d1: Desc) {
    && d1.kind.NonRelocK? && !HasJump(d1) && d1.kind.r < st.maxReg
    && (d1.kind.r >= st.actVar ==> d1.kind.r < st.nextReg)
  }

  ghost predicate BinaryDone(st: State, d: Desc, st': State, d': Desc, outer: multiset<nat>, upvals: nat, n: int) {
    && |st.code| < |st'.code| && d' == Desc(RelocK(|st'.code| - 1), [], [])
    && Described(st', d', outer, upvals)
    && Grows(st, Stop(st, d), st', n)
  }

  /** The operands of a binary operator are registers below m, but for a constant. */
  lemma ReadsABC(op: Op, a: Reg, b: Reg, c: Reg, m: int)
    requires (op.Comp? || op.ArithVV? || op.ArithVK?) && b < m && (!op.ArithVK? ==> c < m)
    ensures InstrABC(op, a, b, c).C() == c && ReadsBelow(InstrABC(op, a, b, c), m)
  {
    assert InstrABC(op, a, b, c).B() == b;
  }

  /** The end of emit_arith and emit_comp: release the operands, emit the instruction. */
  lemma BinaryEnd(st: State, d: Desc, st1: State, e: Desc, st2: State, i: Instr, outer: multiset<nat>, upvals: nat,
                  n: int)
    requires Described(st1, e, outer, upvals) && !e.kind.RelocK? && !HasJump(e)
    requires Grows(st, Stop(st, d), st1, n) && n <= NO_REG
    requires st2 == st1.(nextReg := st2.nextReg) && st1.actVar <= st2.nextReg + 1 && st2.nextReg <= st1.nextReg
    requires (i.op.ArithVV? || i.op.Comp? || (i.op.ArithVK? && i.C() < |st1.consts|)) && i.a == 0 && Emit(st2, i).Ok?
    requires ReadsBelow(i, st1.maxReg)
    ensures BinaryDone(st, d, Emit(st2, i).value, Desc(RelocK(|st2.code|), [], []), outer, upvals, n)
    ensures var st' := Emit(st2, i).value; st'.nextReg == st2.nextReg && st'.code[|st2.code|] == i
  {
    hide Emit, Tidy, InRange, Bounded, Later, Kept, EndsInTest;
    ReleaseShape(st1, e, st2, outer, upvals);
    GrowsActVar(st, Stop(st, d), st1, n);
    EmitReloc(st2, Nothing(), i, outer, upvals);
    var st' := Emit(st2, i).value;
    GrowsTrans(st, Stop(st, d), st1, |st1.code|, st2, n, NO_REG);
    GrowsTrans(st, Stop(st, d), st2, |st2.code|, st', n, NO_REG);
  }

  lemma CompShape(st: State, op: CompOp, d1: Desc, d2: Desc, outer: multiset<nat>, upvals: nat, n: int)
    requires Described(st, d2, outer, upvals) && LeftOk(st, d1) && EmitComp(st, op, d1, d2).Ok?
    requires n <= st.nextReg <= 253 && (d2.kind.LocalK? || d2.kind.NonRelocK? ==> d2.kind.r < st.actVar)
    ensures var (st', d') := EmitComp(st, op, d1, d2).value;
      && BinaryDone(st, d2, st', d', outer, upvals, n) && st'.nextReg == AfterBinary(st, d1, !IsHere(d2))
  {
    hide Operand, Emit, Described, Grows, ReadsBelow;
    HereStays(st, d1);
    OperandShape(st, d2, outer, upvals, n);
    var (st2, e2) := Operand(st, d2).value;
    var st3 := Release(Release(st2, d1), e2);
    CompSteps(st, op, d1, d2);
    GrowsActVar(st, Stop(st, d2), st2, n);
    DescribedRegs(st2, e2, outer, upvals);
    ReadsABC(Comp(op), 0, RegOf(d1), RegOf(e2), st2.maxReg);
    BinaryEnd(st, d2, st2, e2, st3, InstrABC(Comp(op), 0, RegOf(d1), RegOf(e2)), outer, upvals, n);
  }

  lemma CompSteps(st: State, op: CompOp, d1: Desc, d2: Desc)
    requires d1.kind.NonRelocK? && !HasJump(d1) && EmitComp(st, op, d1, d2).Ok?
    ensures Operand(st, d2).Ok?
    ensures var (st2, e2) := Operand(st, d2).value;
      var st3 := Release(Release(st2, d1), e2);
      var i := InstrABC(Comp(op), 0, RegOf(d1), RegOf(e2));
      && Emit(st3, i).Ok?
      && EmitComp(st, op, d1, d2).value == (Emit(st3, i).value, Desc(RelocK(|st3.code|), [], []))
  {
    hide Operand, Emit;
    HereStays(st, d1);
  }

  lemma ArithOperandShape(st: State, d: Desc, outer: multiset<nat>, upvals: nat, n: int)
    requires Described(st, d, outer, upvals) && ArithOperand(st, d).Ok? && n <= st.nextReg <= 253 && Usable(st, d)
    ensures var o := ArithOperand(st, d).value;
      && Described(o.st, o.d, outer, upvals) && !o.d.kind.RelocK? && !HasJump(o.d)
      && Grows(st, Stop(st, d), o.st, n)
      && (if o.vk then IsConst(d) && IsConst(o.d) && o.rc < |o.st.consts| && o.st.consts[o.rc] == ConstOf(d)
          else o.d.kind.NonRelocK? && o.rc == o.d.kind.r)
      && (o.vk ==> o.st.nextReg == st.nextReg && !HasJump(d))
      && (!o.vk && IsHere(d) ==> o.st == st && o.d.kind.r == d.kind.r)
      && (!o.vk && !IsHere(d) ==> o.st.nextReg == st.nextReg + 1 && o.d.kind.r == st.nextReg)
  {
    hide AnyReg, ToVal, Tidy, InRange, Bounded, Later, Kept, EndsInTest, KindOk;
    ToValShape(st, d, outer, upvals, n);
    var (st1, d1) := ToVal(st, d).value;
    if HasJump(d) || IsHere(d) {
      HereStays(st1, d1);
    } else {
      assert Stop(st, d) <= Stop(st1, d1);
      ArithConstShape(st1, d1, outer, upvals, n);
      GrowsTrans(st, Stop(st, d), st1, Stop(st1, d1), ArithOperand(st, d).value.st, n, n);
      ToValConst(st, d);
    }
  }

  lemma ToValConst(st: State, d: Desc)
    requires ToVal(st, d).Ok? && !HasJump(d)
    ensures IsConst(ToVal(st, d).value.1) ==> IsConst(d) && ConstOf(d) == ConstOf(ToVal(st, d).value.1)
  {
    hide Emit;
  }

  lemma ArithConstShape(st: State, d: Desc, outer: multiset<nat>, upvals: nat, n: int)
    requires Described(st, d, outer, upvals) && n <= st.nextReg <= 253 && Usable(st, d)
    requires !HasJump(d) && !d.kind.LocalK? && !d.kind.GlobalK? && !d.kind.UpvalK? && !d.kind.NonRelocK?
    ensures var (st1, i) := if IsConst(d) then AddConst(st, ConstOf(d)) else (st, 0);
      if IsConst(d) && i <= 0xff then
        Described(st1, d, outer, upvals) && Grows(st, Stop(st, d), st1, n) && st1.nextReg == st.nextReg
      else
        AnyReg(st1, d).Ok? ==>
          var (st3, d3) := AnyReg(st1, d).value;
          && Described(st3, d3, outer, upvals) && Grows(st, Stop(st, d), st3, n)
          && d3 == Desc(NonRelocK(st.nextReg), [], []) && st3.nextReg == st.nextReg + 1
  {
    hide AnyReg, Tidy, InRange, Bounded, Later, Kept, EndsInTest;
    var (st1, i) := if IsConst(d) then AddConst(st, ConstOf(d)) else (st, 0);
    if IsConst(d) {
      AddConstShape(st, d, ConstOf(d), outer, upvals);
    } else {
      GrowsRefl(st, |st.code|, NO_REG);
    }
    GrowsMono(st, |st.code|, st1, NO_REG, Stop(st, d), n);
    if AnyReg(st1, d).Ok? {
      AnyRegShape(st1, d, outer, upvals, n);
      GrowsTrans(st, Stop(st, d), st1, Stop(st, d), AnyReg(st1, d).value.0, n, n);
    }
  }

  lemma ArithSteps(st: State, op: ArithOp, d1: Desc, d2: Desc)
    requires d1.kind.NonRelocK? && !HasJump(d1) && EmitArith(st, op, d1, d2).Ok?
    ensures ArithOperand(st, d2).Ok?
    ensures var o := ArithOperand(st, d2).value;
      var st3 := Release(Release(o.st, d1), o.d);
      var i := InstrABC(if o.vk then ArithVK(op) else ArithVV(op), 0, RegOf(d1), o.rc);
      && Emit(st3, i).Ok?
      && EmitArith(st, op, d1, d2).value == (Emit(st3, i).value, Desc(RelocK(|st3.code|), [], []))
  {
    hide ArithOperand, Operand, Emit;
    HereStays(ArithOperand(st, d2).value.st, d1);
  }

  lemma ArithShape(st: State, op: ArithOp, d1: Desc, d2: Desc, outer: multiset<nat>, upvals: nat, n: int)
    requires Described(st, d2, outer, upvals) && LeftOk(st, d1) && EmitArith(st, op, d1, d2).Ok?
    requires n <= st.nextReg <= 253 && (d2.kind.LocalK? || d2.kind.NonRelocK? ==> d2.kind.r < st.actVar)
    ensures var (st', d') := EmitArith(st, op, d1, d2).value;
      && BinaryDone(st, d2, st', d', outer, upvals, n)
      && st'.nextReg == AfterBinary(st, d1, !IsHere(d2) && !ArithOperand(st, d2).value.vk)
  {
    hide ArithOperand, Emit, Described, Grows, ReadsBelow, BinaryDone;
    DescribedRegs(st, d2, outer, upvals);
    ArithSteps(st, op, d1, d2);
    ArithOperandShape(st, d2, outer, upvals, n);
    var o := ArithOperand(st, d2).value;
    DescribedRegs(o.st, o.d, outer, upvals);
    GrowsActVar(st, Stop(st, d2), o.st, n);
    var st3 := Release(Release(o.st, d1), o.d);
    var i := InstrABC(if o.vk then ArithVK(op) else ArithVV(op), 0, RegOf(d1), o.rc);
    ReadsABC(i.op, 0, RegOf(d1), o.rc, o.st.maxReg);
    BinaryEnd(st, d2, o.st, o.d, st3, i, outer, upvals, n);
  }

  lemma UnaryShape(st: State, op: Op, d: Desc, outer: multiset<nat>, upvals: nat, n: int)
    requires Described(st, d, outer, upvals) && EmitUnary(st, op, d).Ok? && (op == Negate || op == Not)
    requires n <= st.nextReg <= 253 && (d.kind.LocalK? || d.kind.NonRelocK? ==> d.kind.r < st.actVar)
    requires |EmitUnary(st, op, d).value.0.code| <= 0x1_0000
    ensures var (st', d') := EmitUnary(st, op, d).value;
      && |st.code| < |st'.code| && d' == Desc(RelocK(|st'.code| - 1), [], [])
      && Described(st', d', outer, upvals) && Grows(st, Stop(st, d), st', n)
      && st'.nextReg == st.nextReg + (if !IsHere(d) && st.nextReg < st.actVar then 1 else 0)
  {
    hide AnyReg, Emit, Described, Grows;
    DescribedRegs(st, d, outer, upvals);
    AnyRegShape(st, d, outer, upvals, n);
    var (st1, d1) := AnyReg(st, d).value;
    DescribedRegs(st1, d1, outer, upvals);
    GrowsActVar(st, Stop(st, d), st1, n);
    var st2 := ExprFree(st1, d1);
    ReleaseShape(st1, d1, st2, outer, upvals);
    var i := Instr(op, 0, d1.kind.r);
    EmitReloc(st2, Nothing(), i, outer, upvals);
    var st3 := Emit(st2, i).value;
    GrowsTrans(st, Stop(st, d), st1, |st1.code|, st2, n, NO_REG);
    GrowsTrans(st, Stop(st, d), st2, |st2.code|, st3, n, NO_REG);
  }

  // ----- whole expressions -----

  /** The right operand of and/or keeps its own jumps and takes over those of the left one. */
  lemma LogicShape(st: State, d: Desc, truth: bool, leave: seq<nat>, outer: multiset<nat>, upvals: nat)
    requires Described(st, d, multiset(leave) + outer, upvals) && Discharge(st, d).Ok?
    requires !EndsInReturn(st.code) && st.code != []
    requires var d1 := Discharge(st, d).value.1; Append(if truth then d1.fj else d1.tj, leave).Ok?
    ensures var (st1, d1) := Discharge(st, d).value;
      var d2 := if truth then d1.(fj := d1.fj + leave) else d1.(tj := d1.tj + leave);
      Described(st1, d2, outer, upvals) && Grows(st, Stop(st, d), st1, NO_REG)
  {
    hide Emit, Tidy, InRange, Bounded, Later, Kept;
    DischargeShape(st, d, multiset(leave) + outer, upvals);
    var (st1, d1) := Discharge(st, d).value;
    var d2 := if truth then d1.(fj := d1.fj + leave) else d1.(tj := d1.tj + leave);
    assert Lists(st1, d2) + outer == Lists(st1, d1) + (multiset(leave) + outer);
  }

  ghost predicate Compiled(st: State, st': State, d: Desc, locals: nat, outer: multiset<nat>, upvals: nat) {
    && Described(st', d, outer, upvals) && Grows(st, |st.code|, st', st.nextReg)
    && Level(st') == Level(st) && st.nextReg <= st'.nextReg
    && (d.kind.LocalK? || d.kind.NonRelocK? ==> d.kind.r < locals)
    && |st.code| <= Stop(st', d)
  }

  lemma CompiledLeaf(st: State, st': State, d: Desc, locals: nat, outer: multiset<nat>, upvals: nat)
    requires Sound(st, |st.code|, multiset(st.pending) + outer)
    requires st' == st.(consts := st'.consts) && st.consts <= st'.consts
    requires !d.kind.RelocK? && KindOk(st', d.kind, upvals) && !HasJump(d)
    requires d.kind.LocalK? || d.kind.NonRelocK? ==> d.kind.r < locals
    ensures Compiled(st, st', d, locals, outer, upvals)
  {
    assert Lists(st', d) == multiset(st.pending);
    GrowsRefl(st, |st.code|, st.nextReg);
  }

  lemma CompiledUnary(st: State, st1: State, d1: Desc, op: Op, locals: nat, outer: multiset<nat>, upvals: nat)
    requires Compiled(st, st1, d1, locals, outer, upvals) && locals <= st.actVar && Level(st) <= 253
    requires EmitUnary(st1, op, d1).Ok? && (op == Negate || op == Not)
    requires |EmitUnary(st1, op, d1).value.0.code| <= 0x1_0000
    ensures var (st', d) := EmitUnary(st1, op, d1).value; Compiled(st, st', d, locals, outer, upvals)
  {
    hide EmitUnary, Described, Grows;
    GrowsActVar(st, |st.code|, st1, st.nextReg);
    DescribedRegs(st1, d1, outer, upvals);
    UnaryShape(st1, op, d1, outer, upvals, st.nextReg);
    var (st', d) := EmitUnary(st1, op, d1).value;
    GrowsTrans(st, |st.code|, st1, Stop(st1, d1), st', st.nextReg, st.nextReg);
    GrowsActVar(st, |st.code|, st', st.nextReg);
  }

  /** The left operand of an operator is in a register when the right one is compiled. */
  lemma CompiledLeft(st: State, st1: State, d1: Desc, locals: nat, outer: multiset<nat>, upvals: nat)
    requires Compiled(st, st1, d1, locals, outer, upvals) && locals <= st.actVar && Level(st) <= 252
    requires AnyReg(st1, d1).Ok?
    ensures var (st2, e1) := AnyReg(st1, d1).value;
      && Sound(st2, |st2.code|, multiset(st2.pending) + outer)
      && Grows(st, |st.code|, st2, st.nextReg) && st.actVar == st2.actVar
      && e1.kind.NonRelocK? && !HasJump(e1) && e1.kind.r < NO_REG && e1.kind.r < st2.maxReg
      && (if IsHere(d1) then st2 == st1 && e1.kind.r == d1.kind.r && d1.kind.r < locals
          else st2.nextReg == st1.nextReg + 1 && e1.kind.r == st1.nextReg)
  {
    hide AnyReg, Described, Grows;
    GrowsActVar(st, |st.code|, st1, st.nextReg);
    DescribedRegs(st1, d1, outer, upvals);
    AnyRegShape(st1, d1, outer, upvals, st.nextReg);
    var (st2, e1) := AnyReg(st1, d1).value;
    GrowsActVar(st1, Stop(st1, d1), st2, st.nextReg);
    GrowsTrans(st, |st.code|, st1, Stop(st1, d1), st2, st.nextReg, st.nextReg);
    DescribedParts(st2, e1, outer, upvals);
    assert multiset(st2.pending) + (multiset(e1.tj) + multiset(e1.fj) + outer) == multiset(st2.pending) + outer;
  }

  /** Both operands of an operator are compiled; op says what comes of them. */
  lemma CompiledBinary(st: State, st1: State, d1: Desc, st2: State, e1: Desc, st3: State, d2: Desc, st': State, d: Desc,
                       takesReg: bool, locals: nat, outer: multiset<nat>, upvals: nat)
    requires Compiled(st, st1, d1, locals, outer, upvals) && Compiled(st2, st3, d2, locals, outer, upvals)
    requires Grows(st, |st.code|, st2, st.nextReg) && locals <= st.actVar == st2.actVar == st3.actVar
    requires e1.kind.NonRelocK? && !HasJump(e1)
    requires if IsHere(d1) then st2 == st1 && e1.kind.r == d1.kind.r && d1.kind.r < locals
             else st2.nextReg == st1.nextReg + 1 && e1.kind.r == st1.nextReg
    requires BinaryDone(st3, d2, st', d, outer, upvals, st2.nextReg) && st'.nextReg == AfterBinary(st3, e1, takesReg)
    ensures Compiled(st, st', d, locals, outer, upvals)
  {
    hide Described, Grows;
    GrowsActVar(st, |st.code|, st2, st.nextReg);
    GrowsActVar(st2, |st2.code|, st3, st2.nextReg);
    GrowsActVar(st3, Stop(st3, d2), st', st2.nextReg);
    DescribedRegs(st1, d1, outer, upvals);
    DescribedRegs(st3, d2, outer, upvals);
    GrowsTrans(st, |st.code|, st2, |st2.code|, st3, st.nextReg, st2.nextReg);
    GrowsTrans(st, |st.code|, st3, Stop(st3, d2), st', st.nextReg, st2.nextReg);
  }

  lemma CompiledLogic(st: State, st1: State, d1: Desc, truth: bool, st2: State, leave: seq<nat>, st3: State, d2: Desc,
                      locals: nat, outer: multiset<nat>, upvals: nat)
    requires Compiled(st, st1, d1, locals, outer, upvals) && locals <= st.actVar && Level(st) <= 253
    requires BranchOn(st1, d1, truth) == Ok((st2, leave))
    requires Compiled(st2, st3, d2, locals, multiset(leave) + outer, upvals) && Discharge(st3, d2).Ok?
    requires var e2 := Discharge(st3, d2).value.1; Append(if truth then e2.fj else e2.tj, leave).Ok?
    ensures var (st4, e2) := Discharge(st3, d2).value;
      var d := if truth then e2.(fj := e2.fj + leave) else e2.(tj := e2.tj + leave);
      Compiled(st, st4, d, locals, outer, upvals)
  {
    hide BranchOn, Discharge, Described, Grows;
    GrowsActVar(st, |st.code|, st1, st.nextReg);
    DescribedRegs(st1, d1, outer, upvals);
    BranchOnShape(st1, d1, truth, outer, upvals);
    GrowsActVar(st1, Stop(st1, d1), st2, NO_REG);
    GrowsActVar(st2, |st2.code|, st3, st2.nextReg);
    GrowsReturn(st2, |st2.code|, st3, st2.nextReg);
    LogicShape(st3, d2, truth, leave, outer, upvals);
    DischargeShape(st3, d2, multiset(leave) + outer, upvals);
    var st4 := Discharge(st3, d2).value.0;
    GrowsTrans(st, |st.code|, st1, Stop(st1, d1), st2, st.nextReg, NO_REG);
    GrowsTrans(st, |st.code|, st2, |st2.code|, st3, st.nextReg, st2.nextReg);
    GrowsTrans(st, |st.code|, st3, Stop(st3, d2), st4, st.nextReg, NO_REG);
  }

  lemma GrowsReturn(st: State, hi: int, st': State, n: int)
    requires Grows(st, hi, st', n)
    ensures EndsInReturn(st'.code) ==> EndsInReturn(st.code)
  {
  }

  /** The steps of and (truth) and or. */
  lemma LogicSteps(st: State, l: Expr, r: Expr, truth: bool)
    requires Compile(st, if truth then And(l, r) else Or(l, r)).Ok?
    ensures Compile(st, l).Ok?
    ensures var (st1, d1) := Compile(st, l).value;
      && BranchOn(st1, d1, truth).Ok?
      && var (st2, leave) := BranchOn(st1, d1, truth).value;
      && Compile(st2, r).Ok?
      && var (st3, d2) := Compile(st2, r).value;
      && Discharge(st3, d2).Ok?
      && var (st4, e2) := Discharge(st3, d2).value;
      && Append(if truth then e2.fj else e2.tj, leave).Ok?
      && Compile(st, if truth then And(l, r) else Or(l, r)).value
          == (st4, if truth then e2.(fj := e2.fj + leave) else e2.(tj := e2.tj + leave))
  {
    hide BranchOn, Discharge;
  }

  /** Compiling any expression keeps the code in shape and gives back the registers it took. */
  lemma {:induction false} CompileShape(st: State, e: Expr, locals: nat, outer: multiset<nat>, upvals: nat)
    requires Sound(st, |st.code|, multiset(st.pending) + outer) && Compile(st, e).Ok?
    requires WfExpr(e, locals, upvals) && locals <= st.actVar && locals <= st.nextReg
    requires Level(st) + Need(e) <= 254
    requires Short(st, e)
    ensures var (st', d) := Compile(st, e).value; Compiled(st, st', d, locals, outer, upvals)
    decreases e
  {
    hide Emit, BranchOn, Discharge, AnyReg, EmitUnary, EmitArith, EmitComp, Described, Grows, Tidy, Bounded, InRange;
    var (st', d) := Compile(st, e).value;
    match e {
      case Global(name) =>
        CompiledLeaf(st, st', d, locals, outer, upvals);
      case Minus(e1) =>
        CompileShape(st, e1, locals, outer, upvals);
        var (st1, d1) := Compile(st, e1).value;
        CompiledUnary(st, st1, d1, Negate, locals, outer, upvals);
      case Bang(e1) =>
        CompileShape(st, e1, locals, outer, upvals);
        var (st1, d1) := Compile(st, e1).value;
        CompiledUnary(st, st1, d1, Not, locals, outer, upvals);
      case Arith(op, l, r) =>
        OperatorShape(st, e, l, r, locals, outer, upvals);
      case Compare(op, l, r) =>
        OperatorShape(st, e, l, r, locals, outer, upvals);
      case And(l, r) =>
        ConnectiveShape(st, l, r, true, locals, outer, upvals);
      case Or(l, r) =>
        ConnectiveShape(st, l, r, false, locals, outer, upvals);
      case _ =>
        CompiledLeaf(st, st', d, locals, outer, upvals);
    }
  }

  lemma {:induction false} ConnectiveShape(st: State, l: Expr, r: Expr, truth: bool, locals: nat,
                                           outer: multiset<nat>, upvals: nat)
    requires var e := if truth then And(l, r) else Or(l, r);
      && Sound(st, |st.code|, multiset(st.pending) + outer) && Compile(st, e).Ok?
      && WfExpr(e, locals, upvals) && locals <= st.actVar && locals <= st.nextReg
      && Level(st) + Need(e) <= 254
      && Short(st, e)
    ensures var (st', d) := Compile(st, if truth then And(l, r) else Or(l, r)).value;
      Compiled(st, st', d, locals, outer, upvals)
    decreases if truth then And(l, r) else Or(l, r), 0
  {
    hide BranchOn, Discharge, Described, Grows, Tidy, Bounded, InRange;
    LogicSteps(st, l, r, truth);
    ShortConnective(st, l, r, truth);
    CompileShape(st, l, locals, outer, upvals);
    var (st1, d1) := Compile(st, l).value;
    GrowsActVar(st, |st.code|, st1, st.nextReg);
    DescribedRegs(st1, d1, outer, upvals);
    BranchOnShape(st1, d1, truth, outer, upvals);
    var (st2, leave) := BranchOn(st1, d1, truth).value;
    GrowsActVar(st1, Stop(st1, d1), st2, NO_REG);
    CompileShape(st2, r, locals, multiset(leave) + outer, upvals);
    var (st3, d2) := Compile(st2, r).value;
    CompiledLogic(st, st1, d1, truth, st2, leave, st3, d2, locals, outer, upvals);
  }

  lemma {:induction false} OperatorShape(st: State, e: Expr, l: Expr, r: Expr, locals: nat, outer: multiset<nat>,
                                         upvals: nat)
    requires (e.Arith? || e.Compare?) && e.l == l && e.r == r
    requires Sound(st, |st.code|, multiset(st.pending) + outer) && Compile(st, e).Ok?
    requires WfExpr(e, locals, upvals) && locals <= st.actVar && locals <= st.nextReg
    requires Level(st) + Need(e) <= 254
    requires Short(st, e)
    ensures var (st', d) := Compile(st, e).value; Compiled(st, st', d, locals, outer, upvals)
    decreases e, 0
  {
    hide AnyReg, EmitArith, EmitComp, ArithOperand, Described, Grows, Tidy, Bounded, InRange;
    var (st', d) := Compile(st, e).value;
    ShortOperator(st, e, l, r);
    CompileShape(st, l, locals, outer, upvals);
    var (st1, d1) := Compile(st, l).value;
    CompiledLeft(st, st1, d1, locals, outer, upvals);
    var (st2, e1) := AnyReg(st1, d1).value;
    GrowsActVar(st, |st.code|, st1, st.nextReg);
    DescribedRegs(st1, d1, outer, upvals);
    CompileShape(st2, r, locals, outer, upvals);
    var (st3, d2) := Compile(st2, r).value;
    GrowsActVar(st2, |st2.code|, st3, st2.nextReg);
    DescribedRegs(st3, d2, outer, upvals);
    if e.Arith? {
      ArithSteps(st3, e.aop, e1, d2);
      ArithShape(st3, e.aop, e1, d2, outer, upvals, st2.nextReg);
      CompiledBinary(st, st1, d1, st2, e1, st3, d2, st', d, !IsHere(d2) && !ArithOperand(st3, d2).value.vk, locals,
          outer, upvals);
    } else {
      CompShape(st3, e.cop, e1, d2, outer, upvals, st2.nextReg);
      CompiledBinary(st, st1, d1, st2, e1, st3, d2, st', d, !IsHere(d2), locals, outer, upvals);
    }
  }
}
