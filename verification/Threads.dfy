/** Jump lists threaded through the code: the displacement of an unresolved jump is the link
    to the next one of its list (src/parse.c, jump_next and the functions around it). */
module Threads {
  import opened Bytecode
  import opened CodeGen
  import opened Shape

  /** Word i of the threaded code c: links aside, it is the word of the plain code a. */
  ghost predicate ThreadAt(c: seq<Instr>, a: seq<Instr>, i: int)
    requires 0 <= i < |c| && i < |a|
  {
    if Open(a, i) then c[i].op == Jump && c[i].a == a[i].a else c[i] == a[i]
  }

  ghost predicate Threaded(c: seq<Instr>, a: seq<Instr>) {
    && |c| == |a|
    && forall i {:trigger ThreadAt(c, a, i)} | 0 <= i < |c| :: ThreadAt(c, a, i)
  }

  /** jump_next. */
  function Next(c: seq<Instr>, pc: nat): int
    requires pc < |c|
  {
    if c[pc].Disp() == -1 then NO_JUMP else pc + 1 + c[pc].Disp()
  }

  /** Following the links from head visits exactly the jumps of the list, in its order. */
  ghost predicate Chain(c: seq<Instr>, head: int, list: seq<nat>)
    decreases list
  {
    if list == [] then head == NO_JUMP
    else head == list[0] < |c| && Chain(c, Next(c, head), list[1..])
  }

  ghost predicate SameAt(c: seq<Instr>, c': seq<Instr>, j: nat) {
    j < |c| && j < |c'| && c[j] == c'[j]
  }

  /** The links of these jumps are as they were. */
  ghost predicate Same(c: seq<Instr>, c': seq<Instr>, jumps: multiset<nat>) {
    forall j: nat {:trigger SameAt(c, c', j)} | j in jumps :: SameAt(c, c', j)
  }

  lemma SameTrans(c: seq<Instr>, d: seq<Instr>, e: seq<Instr>, jumps: multiset<nat>)
    requires Same(c, d, jumps) && Same(d, e, jumps)
    ensures Same(c, e, jumps)
  {
    forall j: nat | j in jumps ensures SameAt(c, e, j) {
      assert SameAt(c, d, j) && SameAt(d, e, j);
    }
  }

  lemma SameSub(c: seq<Instr>, d: seq<Instr>, jumps: multiset<nat>, sub: multiset<nat>)
    requires Same(c, d, jumps) && sub <= jumps
    ensures Same(c, d, sub)
  {
    forall j: nat | j in sub ensures SameAt(c, d, j) {
      assert j in jumps;
    }
  }

  /** A chain depends only on its own links. */
  lemma {:induction false} ChainSame(c: seq<Instr>, c': seq<Instr>, head: int, list: seq<nat>)
    requires Chain(c, head, list) && forall j | j in list :: j < |c| && j < |c'| && c[j] == c'[j]
    ensures Chain(c', head, list)
    decreases list
  {
    if list != [] {
      assert list[0] in list && forall j | j in list[1..] :: j in list;
      ChainSame(c, c', Next(c, head), list[1..]);
    }
  }

  lemma ChainKept(c: seq<Instr>, c': seq<Instr>, head: int, list: seq<nat>, jumps: multiset<nat>)
    requires Chain(c, head, list) && Same(c, c', jumps) && multiset(list) <= jumps
    ensures Chain(c', head, list)
  {
    forall j | j in list ensures j < |c| && j < |c'| && c[j] == c'[j] {
      assert multiset(list)[j] >= 1;
      assert j in jumps;
      assert SameAt(c, c', j);
    }
    ChainSame(c, c', head, list);
  }

  /** The head tells whether the list is empty. */
  lemma ChainHead(c: seq<Instr>, head: int, list: seq<nat>)
    requires Chain(c, head, list)
    ensures (head == NO_JUMP <==> list == []) && (list != [] ==> head == list[0] && 0 <= head < |c|)
  {
  }

  // ----- tests -----

  /** Both codes answer alike at the word before an open jump. */
  lemma TestAlike(c: seq<Instr>, a: seq<Instr>, pc: nat)
    requires Threaded(c, a) && WfCode(a) && Open(a, pc)
    ensures pc >= 1 && pc < |c| && IsCopy(c[pc - 1]) == IsCopy(a[pc - 1])
    ensures (c[pc - 1].a == NO_REG) == (a[pc - 1].a == NO_REG)
    ensures IsCopy(a[pc - 1]) ==> c[pc - 1] == a[pc - 1] && !Open(a, pc - 1)
    ensures a[pc - 1].a == NO_REG ==> IsCopy(a[pc - 1])
  {
    assert WfAt(a, 0);
    assert WfAt(a, pc - 1);
    assert ThreadAt(c, a, pc - 1);
  }

  lemma {:induction false} NoValueAlike(c: seq<Instr>, a: seq<Instr>, list: seq<nat>)
    requires Threaded(c, a) && WfCode(a) && forall j | j in list :: Open(a, j)
    ensures NoValue(c, list) == NoValue(a, list)
    decreases list
  {
    if list != [] {
      assert Open(a, list[0]);
      TestAlike(c, a, list[0]);
      NoValueAlike(c, a, list[1..]);
    }
  }

  // ----- patching -----

  /** Patching one jump does the same to both codes, and touches no other open jump. */
  lemma PatchOneAlike(c: seq<Instr>, a: seq<Instr>, pc: nat, vt: nat, r: Reg, ot: nat)
    requires Threaded(c, a) && WfCode(a) && Open(a, pc) && vt != pc && ot != pc
    ensures PatchOne(c, pc, vt, r, ot).Ok? == PatchOne(a, pc, vt, r, ot).Ok?
    ensures PatchOne(a, pc, vt, r, ot).Ok? ==>
              var c', a' := PatchOne(c, pc, vt, r, ot).value, PatchOne(a, pc, vt, r, ot).value;
              && |c'| == |c| && Threaded(c', a') && WfCode(a')
              && (forall j | Open(a, j) && j != pc :: Open(a', j) && c'[j] == c[j])
  {
    TestAlike(c, a, pc);
    assert ThreadAt(c, a, pc);
    if PatchOne(a, pc, vt, r, ot).Ok? {
      var c', a' := PatchOne(c, pc, vt, r, ot).value, PatchOne(a, pc, vt, r, ot).value;
      PatchOneShape(a, pc, vt, r, ot);
      forall i | 0 <= i < |c'| ensures ThreadAt(c', a', i) {
        assert ThreadAt(c, a, i);
      }
    }
  }

  lemma {:induction false} StillValued(a: seq<Instr>, a1: seq<Instr>, list: seq<nat>, pc: nat, vt: nat, r: Reg, ot: nat)
    requires WfCode(a) && Open(a, pc) && AllOpen(a, list) && pc !in list
    requires !NoValue(a, list) && |a1| == |a| && WfCode(a1)
    requires forall i: nat | i < |a| :: a1[i] == PatchedAt(a, [pc], i, vt, r, ot)
    ensures !NoValue(a1, list)
    decreases list
  {
    if list != [] {
      var j := list[0];
      assert Open(a, j);
      assert WfAt(a, 0) && WfAt(a, j - 1);
      assert a1[j - 1] == PatchedAt(a, [pc], j - 1, vt, r, ot);
      StillValued(a, a1, list[1..], pc, vt, r, ot);
    }
  }

  // ----- appending -----

  function WithLink(c: seq<Instr>, pc: nat, dest: nat): seq<Instr>
    requires pc < |c| && Near(pc, dest)
  {
    c[pc := JumpTo(c[pc], pc, dest)]
  }

  lemma LinkThreaded(c: seq<Instr>, a: seq<Instr>, pc: nat, dest: nat)
    requires Threaded(c, a) && Open(a, pc) && Near(pc, dest)
    ensures Threaded(WithLink(c, pc, dest), a)
  {
    forall i | 0 <= i < |a| ensures ThreadAt(WithLink(c, pc, dest), a, i) {
      assert ThreadAt(c, a, i);
    }
  }

  /** Linking the last jump of one list to the first of another splices them. */
  lemma {:induction false} LinkChain(c: seq<Instr>, head1: int, l1: seq<nat>, head2: int, l2: seq<nat>)
    requires Chain(c, head1, l1) && Chain(c, head2, l2) && l1 != [] && l2 != []
    requires forall i, j | 0 <= i < |l1| && 0 <= j < |l2| :: l1[i] != l2[j]
    requires forall i, j | 0 <= i < j < |l1| :: l1[i] != l1[j]
    requires Near(l1[|l1| - 1], l2[0])
    ensures l1[|l1| - 1] < |c| && Chain(WithLink(c, l1[|l1| - 1], l2[0]), head1, l1 + l2)
    decreases l1
  {
    var last := l1[|l1| - 1];
    if |l1| == 1 {
      var c' := WithLink(c, last, l2[0]);
      assert (l1 + l2)[1..] == l2;
      forall j | j in l2 ensures j < |c| && c'[j] == c[j] {
        ChainMember(c, head2, l2, j);
      }
      ChainSame(c, c', head2, l2);
    } else {
      LinkChain(c, Next(c, head1), l1[1..], head2, l2);
      assert (l1 + l2)[1..] == l1[1..] + l2;
    }
  }

  lemma {:induction false} ChainMember(c: seq<Instr>, head: int, list: seq<nat>, j: nat)
    requires Chain(c, head, list) && j in list
    ensures j < |c|
    decreases list
  {
    if j != list[0] {
      ChainMember(c, Next(c, head), list[1..], j);
    }
  }

  /** From the i-th jump on, the chain is the rest of the list. */
  lemma {:induction false} ChainFrom(c: seq<Instr>, head: int, list: seq<nat>, i: nat)
    requires Chain(c, head, list) && i < |list|
    ensures list[i] < |c|
    ensures Next(c, list[i]) == if i + 1 < |list| then list[i + 1] else NO_JUMP
    decreases i
  {
    if i > 0 {
      ChainFrom(c, Next(c, head), list[1..], i - 1);
    } else if |list| > 1 {
      assert list[1..][0] == list[1];
    }
  }

  // ----- emitting -----

  lemma EmitThreaded(c: seq<Instr>, a: seq<Instr>, i: Instr)
    requires Threaded(c, a)
    ensures Threaded(c + [i], a + [i])
  {
    forall j | 0 <= j < |c| + 1 ensures ThreadAt(c + [i], a + [i], j) {
      if j < |c| {
        assert ThreadAt(c, a, j);
      }
    }
  }

  /** A word that is no open jump is overwritten. */
  lemma PutThreaded(c: seq<Instr>, a: seq<Instr>, pos: nat, i: Instr)
    requires Threaded(c, a) && pos < |a| && !Open(a, pos) && !(i.op == Jump)
    ensures Threaded(c[pos := i], a[pos := i])
  {
    var c', a' := c[pos := i], a[pos := i];
    forall j | 0 <= j < |c| ensures ThreadAt(c', a', j) {
      assert ThreadAt(c, a, j);
    }
  }
}
