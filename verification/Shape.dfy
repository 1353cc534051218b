/** What code generation keeps true of the code array and of the jump lists. */
module Shape {
  import opened Bytecode
  import opened Machine
  import opened CodeGen

  // ----- open jumps -----

  ghost predicate Open(code: seq<Instr>, j: int) {
    0 <= j < |code| && code[j].op == Jump && code[j].d == UNPATCHED
  }

  predicate IsTest(i: Instr) { i.op.CopyJumpIf? || i.op.JumpIf? }

  /** NO_REG marks the tests without a destination and nothing else; every test is followed
      by its jump; a copying test has its destination exactly when its jump is resolved. */
  ghost predicate WfAt(code: seq<Instr>, i: int)
    requires 0 <= i < |code|
  {
    && (i == 0 ==> !Open(code, 0))
    && (code[i].a == NO_REG ==> IsCopy(code[i]))
    && (i + 1 < |code| && IsTest(code[i]) ==> code[i + 1].op == Jump)
    && (i + 1 < |code| && IsCopy(code[i]) ==> (code[i].a == NO_REG <==> Open(code, i + 1)))
  }

  ghost predicate WfCode(code: seq<Instr>) {
    forall i {:trigger WfAt(code, i)} | 0 <= i < |code| :: WfAt(code, i)
  }

  /** The jump lists hold every unresolved jump exactly once, and nothing else. */
  ghost predicate Tidy(code: seq<Instr>, lists: multiset<nat>) {
    && WfCode(code)
    && forall j: nat {:trigger lists[j]} {:trigger Open(code, j)} :: lists[j] == if Open(code, j) then 1 else 0
  }

  predicate EndsInTest(code: seq<Instr>) { code != [] && IsTest(code[|code| - 1]) }

  predicate EndsInReturn(code: seq<Instr>) { code != [] && code[|code| - 1].op == Return }

  function Target(code: seq<Instr>, i: int): int
    requires 0 <= i < |code|
  {
    i + 1 + code[i].Disp()
  }

  ghost predicate TargetOk(code: seq<Instr>, i: int, b: int)
    requires 0 <= i < |code|
  {
    code[i].op == Jump && !Open(code, i) ==> 0 <= Target(code, i) <= b
  }

  /** Resolved jumps lead to positions up to b. */
  ghost predicate TargetsTo(code: seq<Instr>, b: int) {
    forall i {:trigger TargetOk(code, i, b)} | 0 <= i < |code| :: TargetOk(code, i, b)
  }

  /** Resolved jumps stay inside the code; to its end they lead only while more must follow. */
  ghost predicate InRange(code: seq<Instr>) {
    TargetsTo(code, if EndsInReturn(code) then |code| - 1 else |code|)
  }

  /** The registers that an instruction reads are below b. */
  predicate ReadsBelow(i: Instr, b: int) {
    match i.op
    case Negate => i.d < b
    case Not => i.d < b
    case Mov => i.d < b
    case Comp(_) => i.B() < b && i.C() < b
    case ArithVV(_) => i.B() < b && i.C() < b
    case ArithVK(_) => i.B() < b
    case CopyJumpIf(_) => i.d < b
    case JumpIf(_) => i.d < b
    case DefineGlobal => i.a < b
    case SetGlobal => i.a < b
    case SetUpval => i.d < b
    case Return => i.a < b
    case _ => true
  }

  predicate Within(i: Instr, b: int) {
    && ReadsBelow(i, b) && (IsValueOp(i.op) || (IsCopy(i) && i.a != NO_REG) ==> i.a < b)
    && (i.op == Return ==> i.d == 2)
  }

  /** Registers that the instructions before hi read or write are below b. */
  ghost predicate Bounded(code: seq<Instr>, hi: int, b: int) {
    forall i {:trigger Within(code[i], b)} | 0 <= i < hi && i < |code| :: Within(code[i], b)
  }

  // ----- how code may still change -----

  /** f is what word c may have become: only unresolved words change, and the copy made by a
      test goes to a register from n on, or to x. */
  ghost predicate FutureAt(c: Instr, f: Instr, n: int, x: int) {
    if c.op == Jump && c.d == UNPATCHED then f.op == Jump && f.a == c.a
    else if IsCopy(c) && c.a == NO_REG then
      f == Plain(c) || (f.op == c.op && f.d == c.d && (f.a >= n || f.a == x))
    else f == c
  }

  /** Word i of the later code; x is a destination only for the tests of the jumps `own`. */
  ghost predicate LaterAt(c: seq<Instr>, f: seq<Instr>, i: int, n: int, x: int, own: multiset<nat>)
    requires 0 <= i < |c| && i < |f|
  {
    FutureAt(c[i], f[i], n, if i + 1 in own then x else -1)
  }

  ghost predicate Later(c: seq<Instr>, f: seq<Instr>, lo: int, hi: int, n: int, x: int, own: multiset<nat>) {
    && hi <= |c| && hi <= |f|
    && forall i {:trigger LaterAt(c, f, i, n, x, own)} | 0 <= lo <= i < hi :: LaterAt(c, f, i, n, x, own)
  }

  lemma LaterTrans(c: seq<Instr>, d: seq<Instr>, f: seq<Instr>, lo: int, hi: int, n: int, n': int, x: int,
                   own: multiset<nat>, own': multiset<nat>)
    requires n <= n' && hi <= |c|
    requires Later(c, d, lo, hi, n', -1, multiset{}) && Later(d, f, lo, hi, n, x, own')
    requires forall j: nat | lo < j <= hi && j in own' :: j in own
    ensures Later(c, f, lo, hi, n, x, own)
  {
    forall i | 0 <= lo <= i < hi ensures LaterAt(c, f, i, n, x, own) {
      assert LaterAt(c, d, i, n', -1, multiset{});
      assert LaterAt(d, f, i, n, x, own');
    }
  }

  /** Weaker bounds on a shorter range. */
  lemma LaterMono(c: seq<Instr>, f: seq<Instr>, lo: int, hi: int, n: int, x: int, own: multiset<nat>,
                  lo': int, hi': int, n': int, x': int, own': multiset<nat>)
    requires Later(c, f, lo, hi, n, x, own) && 0 <= lo <= lo' && hi' <= hi && n' <= n
    requires x == -1 || (x == x' && forall j: nat | lo' < j <= hi' && j in own :: j in own')
    ensures Later(c, f, lo', hi', n', x', own')
  {
    forall i | lo' <= i < hi' ensures LaterAt(c, f, i, n', x', own') {
      assert LaterAt(c, f, i, n, x, own);
    }
  }

  predicate SameTest(i: Instr, j: Instr) { IsCopy(i) || IsCopy(j) ==> i == j }

  /** A jump that is still open has kept its test, if it has one; a plain test stays as it is. */
  ghost predicate KeptAt(c: seq<Instr>, d: seq<Instr>, j: int)
    requires 1 <= j < |c| && j <= |d|
  {
    && (Open(d, j) ==> Open(c, j) && SameTest(c[j - 1], d[j - 1]))
    && (c[j - 1].op.JumpIf? ==> d[j - 1] == c[j - 1])
  }

  ghost predicate Kept(c: seq<Instr>, d: seq<Instr>) {
    && |c| <= |d|
    && forall j {:trigger KeptAt(c, d, j)} | 1 <= j < |c| :: KeptAt(c, d, j)
  }

  lemma LaterTwice(c: seq<Instr>, d: seq<Instr>, f: seq<Instr>, lo: int, hi: int, n: int, x: int, own: multiset<nat>)
    requires Later(c, d, lo, hi, n, x, own) && Later(d, f, lo, hi, n, x, own)
    ensures Later(c, f, lo, hi, n, x, own)
  {
    forall i | 0 <= lo <= i < hi ensures LaterAt(c, f, i, n, x, own) {
      assert LaterAt(c, d, i, n, x, own);
      assert LaterAt(d, f, i, n, x, own);
    }
  }

  lemma KeptTrans(c: seq<Instr>, d: seq<Instr>, e: seq<Instr>)
    requires Kept(c, d) && Kept(d, e)
    ensures Kept(c, e)
  {
    forall j | 1 <= j < |c| ensures KeptAt(c, e, j) {
      assert KeptAt(c, d, j);
      assert j < |d| ==> KeptAt(d, e, j);
    }
  }

  // ----- patching -----

  function Resolved(i: Instr, r: Reg): Instr {
    if !IsCopy(i) then i else if r == NO_REG || r == i.d then Plain(i) else i.(a := r)
  }

  /** Word i after jump_patch_value. */
  ghost function PatchedAt(code: seq<Instr>, list: seq<nat>, i: nat, vt: nat, r: Reg, ot: nat): Instr
    requires i < |code|
  {
    if i in list then
      var t := if IsCopy(At(code, i - 1)) then vt else ot;
      if Near(i, t) then JumpTo(code[i], i, t) else code[i]
    else if i + 1 in list then Resolved(code[i], r)
    else code[i]
  }

  ghost predicate AllOpen(code: seq<Instr>, list: seq<nat>) {
    && (forall j | j in list :: Open(code, j))
    && (forall a, b | 0 <= a < b < |list| :: list[a] != list[b])
  }

  /** The word and the test of one jump are all that patching it changes. */
  lemma PatchOneShape(code: seq<Instr>, pc: nat, vt: nat, r: Reg, ot: nat)
    requires WfCode(code) && Open(code, pc) && vt != pc && ot != pc
    requires PatchOne(code, pc, vt, r, ot).Ok?
    ensures var c := PatchOne(code, pc, vt, r, ot).value;
      && |c| == |code| && pc >= 1
      && Near(pc, if IsCopy(code[pc - 1]) then vt else ot)
      && (forall i: nat | i < |code| :: c[i] == PatchedAt(code, [pc], i, vt, r, ot))
      && WfCode(c)
      && (forall j: nat {:trigger Open(c, j)} {:trigger Open(code, j)} :: Open(c, j) <==> Open(code, j) && j != pc)
  {
    assert WfAt(code, 0);
    assert WfAt(code, pc - 1);
    var c := PatchOne(code, pc, vt, r, ot).value;
    forall i | 0 <= i < |c| ensures WfAt(c, i) {
      assert WfAt(code, i);
    }
  }

  /** Patching pc first and the rest of the list after it. */
  lemma PatchedCons(code: seq<Instr>, c1: seq<Instr>, pc: nat, rest: seq<nat>, i: nat, vt: nat, r: Reg, ot: nat)
    requires |c1| == |code| && i < |code| && pc !in rest
    requires WfCode(code) && Open(code, pc) && forall j | j in rest :: Open(code, j)
    requires c1[i] == PatchedAt(code, [pc], i, vt, r, ot)
    requires i >= 1 ==> c1[i - 1] == PatchedAt(code, [pc], i - 1, vt, r, ot)
    ensures PatchedAt(c1, rest, i, vt, r, ot) == PatchedAt(code, [pc] + rest, i, vt, r, ot)
  {
    assert WfAt(code, 0);
    assert forall k: nat :: k in [pc] + rest <==> k == pc || k in rest;
    if i in rest {
      assert Open(code, i);
      assert i - 1 == pc || c1[i - 1] == code[i - 1];
    }
  }

  /** Patching a list closes its jumps and no other. */
  lemma {:induction false} PatchListCloses(code: seq<Instr>, list: seq<nat>, vt: nat, r: Reg, ot: nat)
    requires WfCode(code) && AllOpen(code, list) && vt !in list && ot !in list
    requires PatchList(code, list, vt, r, ot).Ok?
    ensures var c := PatchList(code, list, vt, r, ot).value;
      && |c| == |code|
      && WfCode(c)
      && (forall j: nat {:trigger Open(c, j)} {:trigger Open(code, j)} :: Open(c, j) <==> Open(code, j) && j !in list)
    decreases list
  {
    if list != [] {
      PatchOneShape(code, list[0], vt, r, ot);
      PatchListCloses(PatchOne(code, list[0], vt, r, ot).value, list[1..], vt, r, ot);
    }
  }

  /** Every word after patching, and every distance was near enough. */
  lemma {:induction false} PatchListAt(code: seq<Instr>, list: seq<nat>, vt: nat, r: Reg, ot: nat, i: nat)
    requires WfCode(code) && AllOpen(code, list) && vt !in list && ot !in list
    requires PatchList(code, list, vt, r, ot).Ok? && i < |code|
    ensures var c := PatchList(code, list, vt, r, ot).value;
      && |c| == |code|
      && c[i] == PatchedAt(code, list, i, vt, r, ot)
      && (i in list ==> i >= 1 && Near(i, if IsCopy(code[i - 1]) then vt else ot))
    decreases list
  {
    if list != [] {
      var pc, rest := list[0], list[1..];
      assert list == [pc] + rest;
      PatchOneShape(code, pc, vt, r, ot);
      var c1 := PatchOne(code, pc, vt, r, ot).value;
      PatchListAt(c1, rest, vt, r, ot, i);
      PatchedCons(code, c1, pc, rest, i, vt, r, ot);
      if i in rest {
        assert c1[i - 1] == PatchedAt(code, [pc], i - 1, vt, r, ot);
      }
    }
  }

  // ----- patching a list among others -----

  lemma ListIsOpen(code: seq<Instr>, list: seq<nat>, lists: multiset<nat>)
    requires Tidy(code, lists) && multiset(list) <= lists
    ensures AllOpen(code, list)
  {
    forall j | j in list ensures Open(code, j) {
      assert multiset(list)[j] >= 1;
      assert lists[j] >= 1;
    }
    forall a, b | 0 <= a < b < |list| ensures list[a] != list[b] {
      assert lists[list[b]] <= 1;
      assert multiset(list)[list[b]] <= 1;
      assert list == list[..b] + [list[b]] + list[b + 1..];
      assert list[..b][a] == list[a];
    }
  }

  lemma PatchListTidy(code: seq<Instr>, list: seq<nat>, vt: nat, r: Reg, ot: nat, lists: multiset<nat>)
    requires Tidy(code, lists) && multiset(list) <= lists && vt !in list && ot !in list
    requires PatchList(code, list, vt, r, ot).Ok?
    ensures AllOpen(code, list)
    ensures var c := PatchList(code, list, vt, r, ot).value;
      |c| == |code| && Tidy(c, lists - multiset(list))
  {
    ListIsOpen(code, list, lists);
    PatchListCloses(code, list, vt, r, ot);
    var c := PatchList(code, list, vt, r, ot).value;
    forall j: nat ensures (lists - multiset(list))[j] == if Open(c, j) then 1 else 0 {
      assert lists[j] == if Open(code, j) then 1 else 0;
      assert j in list <==> multiset(list)[j] >= 1;
      assert Open(c, j) <==> Open(code, j) && j !in list;
    }
  }

  /** Patching with register r lets only the tests of the list copy, and only to r. */
  lemma PatchListLater(code: seq<Instr>, list: seq<nat>, vt: nat, r: Reg, ot: nat, n: int, x: int, own: multiset<nat>)
    requires WfCode(code) && AllOpen(code, list) && vt !in list && ot !in list
    requires PatchList(code, list, vt, r, ot).Ok?
    requires n <= NO_REG && (r >= n || (r == x && multiset(list) <= own))
    ensures Later(code, PatchList(code, list, vt, r, ot).value, 0, |code|, n, x, own)
  {
    var c := PatchList(code, list, vt, r, ot).value;
    PatchListCloses(code, list, vt, r, ot);
    forall i | 0 <= i < |code| ensures LaterAt(code, c, i, n, x, own) {
      PatchListAt(code, list, vt, r, ot, i);
      assert WfAt(code, i);
      assert i + 1 in list ==> multiset(list)[i + 1] >= 1;
      assert i + 1 in list ==> Open(code, i + 1);
    }
  }

  lemma PatchListKept(code: seq<Instr>, list: seq<nat>, vt: nat, r: Reg, ot: nat)
    requires WfCode(code) && AllOpen(code, list) && vt !in list && ot !in list
    requires PatchList(code, list, vt, r, ot).Ok?
    ensures Kept(code, PatchList(code, list, vt, r, ot).value)
  {
    var c := PatchList(code, list, vt, r, ot).value;
    PatchListCloses(code, list, vt, r, ot);
    forall j | 1 <= j < |code| ensures KeptAt(code, c, j) {
      PatchListAt(code, list, vt, r, ot, j - 1);
      assert j - 1 in list ==> Open(code, j - 1);
      if Open(c, j) {
        assert Open(code, j) && j !in list;
      }
    }
  }

  lemma PatchListBounds(code: seq<Instr>, list: seq<nat>, vt: nat, r: Reg, ot: nat, hi: int, b: int, t: int)
    requires WfCode(code) && AllOpen(code, list) && vt !in list && ot !in list
    requires PatchList(code, list, vt, r, ot).Ok?
    requires Bounded(code, hi, b) && (r < b || r == NO_REG)
    requires TargetsTo(code, t) && vt <= t && (ot <= t || !NoValue(code, list))
    ensures var c := PatchList(code, list, vt, r, ot).value;
      Bounded(c, hi, b) && TargetsTo(c, t)
  {
    var c := PatchList(code, list, vt, r, ot).value;
    PatchListCloses(code, list, vt, r, ot);
    forall i | 0 <= i < |code|
      ensures i < hi ==> Within(c[i], b)
      ensures TargetOk(c, i, t)
    {
      PatchListAt(code, list, vt, r, ot, i);
      assert TargetOk(code, i, t);
      assert i < hi ==> Within(code[i], b);
      if i in list && !IsCopy(code[i - 1]) {
        NoValueAt(code, list, i);
      }
    }
  }

  lemma {:induction false} NoValueAt(code: seq<Instr>, list: seq<nat>, j: nat)
    requires WfCode(code) && AllOpen(code, list) && j in list && j >= 1 && !IsCopy(code[j - 1])
    ensures NoValue(code, list)
    decreases list
  {
    var first := list[0];
    assert first in list && Open(code, first);
    assert WfAt(code, 0);
    assert WfAt(code, first - 1);
    if j != first {
      NoValueAt(code, list[1..], j);
    }
  }

  /** Whether a list has jumps without a value does not change while the list is open. */
  lemma {:induction false} NoValueKept(code: seq<Instr>, c: seq<Instr>, list: seq<nat>)
    requires WfCode(code) && WfCode(c) && Kept(code, c) && |c| == |code|
    requires forall j | j in list :: Open(c, j)
    ensures NoValue(c, list) == NoValue(code, list)
    decreases list
  {
    if list != [] {
      var j := list[0];
      assert Open(c, j);
      assert WfAt(c, 0);
      assert KeptAt(code, c, j);
      assert WfAt(c, j - 1) && WfAt(code, j - 1);
      NoValueKept(code, c, list[1..]);
    }
  }
}
