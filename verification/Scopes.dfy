/** Names: locals, upvalues and globals (src/parse.c), and what OP_CLOSURE captures for them.

    The compilers of the functions that are being compiled form a list, outermost first. */
module Scopes {
  import opened Machine

  const MAX_LOCALS := 0x100
  const MAX_UPVALUES := 0x100
  const UV_IS_LOCAL := 0x100
  const OWN_INITIALIZER := "Cannot read local variable in its own initializer."
  const TOO_MANY_UPVALUES := "Too many closure variables in function."

  /** The local at index i lives in register i - 1; index 0 is `this`, or has no name. */
  datatype Local = Local(name: string, depth: int, captured: bool)
  datatype Level = Level(locals: seq<Local>, upvalues: seq<nat>)
  datatype Answer = LocalAt(i: nat) | UpvalueAt(u: nat) | GlobalName

  // ----- descriptors -----

  /** How the compiler writes a descriptor; arg is one more than the register or the index. */
  function Encode(isLocal: bool, arg: nat): nat {
    if isLocal && arg < UV_IS_LOCAL then UV_IS_LOCAL + arg else arg
  }

  // How OP_CLOSURE reads it.
  predicate IsLocal(d: nat) { d / UV_IS_LOCAL % 2 == 1 }
  function Index(d: nat): int { d % 0x100 - 1 }

  /** A descriptor means what it was made for exactly when it is not of the upvalue 255, which
      reads as register -1. */
  lemma DescriptorExact(isLocal: bool, arg: nat)
    requires if isLocal then arg < MAX_LOCALS else 1 <= arg <= MAX_UPVALUES
    ensures (IsLocal(Encode(isLocal, arg)) == isLocal && Index(Encode(isLocal, arg)) == arg - 1) <==>
            (isLocal || arg != 0x100)
    ensures !isLocal && arg == 0x100 ==> IsLocal(Encode(isLocal, arg)) && Index(Encode(isLocal, arg)) == -1
  {
  }

  // ----- lookup -----

  /** The innermost of the locals with this name, or -1. */
  function Innermost(locals: seq<Local>, name: string): (i: int)
    ensures -1 <= i < |locals| && (i >= 0 ==> locals[i].name == name)
    ensures forall j | i < j < |locals| :: locals[j].name != name
  {
    if locals == [] then -1
    else if locals[|locals| - 1].name == name then |locals| - 1
    else Innermost(locals[..|locals| - 1], name)
  }

  /** The first descriptor equal to d, or the number of descriptors. */
  function FirstOf(uvs: seq<nat>, d: nat): (i: nat)
    ensures i <= |uvs| && (i < |uvs| ==> uvs[i] == d) && forall j | 0 <= j < i :: uvs[j] != d
  {
    if uvs == [] || uvs[0] == d then 0 else 1 + FirstOf(uvs[1..], d)
  }

  function Mark(l: Level, i: nat): Level
    requires i < |l.locals|
  {
    l.(locals := l.locals[i := l.locals[i].(captured := true)])
  }

  /** var_lookup_uv. */
  function AddUpvalue(l: Level, isLocal: bool, arg: nat): (r: Result<(Level, nat)>)
    ensures r.Ok? ==> r.value.0.locals == l.locals && l.upvalues <= r.value.0.upvalues
    ensures r.Ok? ==> r.value.1 < |r.value.0.upvalues|
    ensures r.Ok? ==> r.value.0.upvalues[r.value.1] == Encode(isLocal, arg)
  {
    var d := Encode(isLocal, arg);
    var i := FirstOf(l.upvalues, d);
    if i < |l.upvalues| then Ok((l, i))
    else if |l.upvalues| == MAX_UPVALUES then Err(TOO_MANY_UPVALUES)
    else Ok((l.(upvalues := l.upvalues + [d]), |l.upvalues|))
  }

  /** var_lookup: what the name is in the innermost function, and what becomes of the levels.
      `local` says that the innermost function itself asks. */
  function Lookup(levels: seq<Level>, name: string, local: bool): (r: Result<(seq<Level>, Answer)>)
    ensures r.Ok? ==> |r.value.0| == |levels|
    ensures r.Ok? && levels == [] ==> r.value.1.GlobalName?
    decreases |levels|
  {
    if levels == [] then Ok((levels, GlobalName))
    else
      var top, outer := levels[|levels| - 1], levels[..|levels| - 1];
      var i := Innermost(top.locals, name);
      if i >= 0 then
        if top.locals[i].depth == -1 then Err(OWN_INITIALIZER)
        else Ok((outer + [if local then top else Mark(top, i)], LocalAt(i)))
      else
        var (outer', a) :- Lookup(outer, name, false);
        if a.GlobalName? then Ok((outer' + [top], a))
        else
          var (top', u) :- AddUpvalue(top, a.LocalAt?, if a.LocalAt? then a.i else a.u + 1);
          Ok((outer' + [top'], UpvalueAt(u)))
  }

  // ----- what the answers mean -----

  datatype Option<T> = None | Some(value: T)

  /** The local at index i of the function at this level. */
  datatype Variable = Variable(level: nat, i: int)

  /** The innermost enclosing declaration of a name. */
  function Declared(levels: seq<Level>, name: string): Option<Variable>
    decreases |levels|
  {
    if levels == [] then None
    else
      var i := Innermost(levels[|levels| - 1].locals, name);
      if i >= 0 then Some(Variable(|levels| - 1, i)) else Declared(levels[..|levels| - 1], name)
  }

  predicate CanCapture(uv: seq<nat>, inherited: nat) {
    forall i | 0 <= i < |uv| :: !IsLocal(uv[i]) ==> 0 <= Index(uv[i]) < inherited
  }

  /** What OP_CLOSURE captures: what is in the register named, or what the running closure has. */
  function Captured<T>(uv: seq<nat>, register: int -> T, inherited: seq<T>): (r: seq<T>)
    requires CanCapture(uv, |inherited|)
    ensures |r| == |uv|
    ensures forall i | 0 <= i < |uv| ::
      r[i] == if IsLocal(uv[i]) then register(Index(uv[i])) else inherited[Index(uv[i])]
  {
    seq(|uv|, i requires 0 <= i < |uv| => if IsLocal(uv[i]) then register(Index(uv[i])) else inherited[Index(uv[i])])
  }

  function Registers(level: nat): int -> Variable { r => Variable(level, r + 1) }

  /** A level that the compiler makes inside the given one. */
  predicate WfIn(outer: Option<Level>, l: Level) {
    && 1 <= |l.locals| <= MAX_LOCALS && |l.upvalues| <= MAX_UPVALUES && Distinct(l.upvalues)
    && match outer
       case None => l.upvalues == []
       case Some(o) => forall i {:trigger l.upvalues[i]} | 0 <= i < |l.upvalues| :: DescriptorOk(o, l.upvalues[i])
  }

  predicate DescriptorOk(o: Level, d: nat) {
    d < 2 * UV_IS_LOCAL && if IsLocal(d) then 0 <= Index(d) + 1 < |o.locals| else 0 <= Index(d) < |o.upvalues|
  }

  predicate Distinct(s: seq<nat>) { forall i, j | 0 <= i < j < |s| :: s[i] != s[j] }

  predicate Wf(levels: seq<Level>)
    decreases |levels|
  {
    levels == [] ||
    (Wf(levels[..|levels| - 1]) &&
     WfIn(if |levels| == 1 then None else Some(levels[|levels| - 2]), levels[|levels| - 1]))
  }

  /** The variables that the upvalues of the innermost function stand for. */
  function Stands(levels: seq<Level>): (r: seq<Variable>)
    requires Wf(levels) && levels != []
    ensures |r| == |levels[|levels| - 1].upvalues|
    decreases |levels|
  {
    if |levels| == 1 then []
    else Captured(levels[|levels| - 1].upvalues, Registers(|levels| - 2), Stands(levels[..|levels| - 1]))
  }

  function Meaning(levels: seq<Level>, a: Answer): Option<Variable>
    requires Wf(levels) && levels != [] && (a.UpvalueAt? ==> a.u < |levels[|levels| - 1].upvalues|)
  {
    match a
    case GlobalName => None
    case LocalAt(i) => Some(Variable(|levels| - 1, i))
    case UpvalueAt(u) => Some(Stands(levels)[u])
  }

  // ----- lookup keeps what was there -----

  predicate LevelExtends(l: Level, l': Level) {
    && |l'.locals| == |l.locals| && l.upvalues <= l'.upvalues
    && forall i | 0 <= i < |l.locals| ::
        l'.locals[i].name == l.locals[i].name && l'.locals[i].depth == l.locals[i].depth &&
        (l.locals[i].captured ==> l'.locals[i].captured)
  }

  predicate Extends(levels: seq<Level>, levels': seq<Level>)
    decreases |levels|
  {
    |levels'| == |levels| &&
    (levels == [] || (Extends(levels[..|levels| - 1], levels'[..|levels| - 1]) &&
                       LevelExtends(levels[|levels| - 1], levels'[|levels| - 1])))
  }

  lemma {:induction false} ExtendsSelf(levels: seq<Level>)
    ensures Extends(levels, levels)
    decreases |levels|
  {
    if levels != [] {
      ExtendsSelf(levels[..|levels| - 1]);
    }
  }

  lemma WfStep(levels: seq<Level>, outer: seq<Level>, top: Level)
    requires levels == outer + [top] && Wf(outer) && WfIn(if outer == [] then None else Some(outer[|outer| - 1]), top)
    ensures Wf(levels)
  {
    assert levels[..|levels| - 1] == outer;
  }

  lemma AddUpvalueWf(o: Level, l: Level, isLocal: bool, arg: nat)
    requires WfIn(Some(o), l) && AddUpvalue(l, isLocal, arg).Ok? && 1 <= |o.locals|
    requires if isLocal then arg < |o.locals| <= MAX_LOCALS else 1 <= arg <= |o.upvalues| <= MAX_UPVALUES
    ensures WfIn(Some(o), AddUpvalue(l, isLocal, arg).value.0)
  {
  }

  lemma ExtendsStep(levels: seq<Level>, outer: seq<Level>, top: Level, outer': seq<Level>, top': Level)
    requires levels == outer + [top] && Extends(outer, outer') && LevelExtends(top, top')
    ensures Extends(levels, outer' + [top'])
  {
    assert levels[..|levels| - 1] == outer && (outer' + [top'])[..|levels| - 1] == outer';
  }

  /** The name is a local of the innermost function. */
  lemma CaseHere(levels: seq<Level>, name: string, local: bool, outer: seq<Level>, top: Level)
    requires levels == outer + [top] && Lookup(levels, name, local).Ok? && Innermost(top.locals, name) >= 0
    ensures var i := Innermost(top.locals, name);
      Lookup(levels, name, local).value == (outer + [if local then top else Mark(top, i)], LocalAt(i)) &&
      top.locals[i].depth != -1
  {
    assert levels[..|levels| - 1] == outer;
  }

  /** Otherwise the answer comes from outside. */
  lemma CaseThere(levels: seq<Level>, name: string, local: bool, outer: seq<Level>, top: Level)
    requires levels == outer + [top] && Lookup(levels, name, local).Ok? && Innermost(top.locals, name) < 0
    ensures Lookup(outer, name, false).Ok?
    ensures var (outer', b) := Lookup(outer, name, false).value;
      if b.GlobalName? then Lookup(levels, name, local).value == (outer' + [top], b)
      else
        && AddUpvalue(top, b.LocalAt?, Arg(b)).Ok?
        && Lookup(levels, name, local).value ==
            (outer' + [AddUpvalue(top, b.LocalAt?, Arg(b)).value.0], UpvalueAt(AddUpvalue(top, b.LocalAt?, Arg(b)).value.1))
  {
    assert levels[..|levels| - 1] == outer;
  }

  function Arg(a: Answer): nat {
    match a case LocalAt(i) => i case UpvalueAt(u) => u + 1 case GlobalName => 0
  }

  lemma MarkExtends(outer: Option<Level>, top: Level, i: nat)
    requires WfIn(outer, top) && i < |top.locals|
    ensures WfIn(outer, Mark(top, i)) && LevelExtends(top, Mark(top, i))
  {
  }

  lemma WfTop(levels: seq<Level>, outer: seq<Level>, top: Level)
    requires levels == outer + [top] && Wf(levels)
    ensures Wf(outer) && WfIn(if outer == [] then None else Some(outer[|outer| - 1]), top)
    ensures outer != [] ==>
        1 <= |outer[|outer| - 1].locals| <= MAX_LOCALS && |outer[|outer| - 1].upvalues| <= MAX_UPVALUES
  {
    assert levels[..|levels| - 1] == outer;
  }

  lemma ExtendsTop(outer: seq<Level>, outer': seq<Level>, top: Level)
    requires outer != [] && Extends(outer, outer') && Wf(outer') && WfIn(Some(outer[|outer| - 1]), top)
    ensures |outer| == |outer'| && LevelExtends(outer[|outer| - 1], outer'[|outer| - 1])
    ensures WfIn(Some(outer'[|outer| - 1]), top)
    ensures |outer'[|outer| - 1].locals| == |outer[|outer| - 1].locals|
    ensures 1 <= |outer'[|outer| - 1].locals| <= MAX_LOCALS && |outer'[|outer| - 1].upvalues| <= MAX_UPVALUES
  {
    var o, o' := outer[|outer| - 1], outer'[|outer| - 1];
    forall i | 0 <= i < |top.upvalues| ensures DescriptorOk(o', top.upvalues[i]) {
      assert DescriptorOk(o, top.upvalues[i]);
    }
  }

  /** What a lookup leaves of the levels, and where its answer is. */
  predicate Keeps(levels: seq<Level>, r: (seq<Level>, Answer)) {
    && Wf(r.0) && Extends(levels, r.0)
    && (r.1.UpvalueAt? ==> levels != [] && |r.0| == |levels| && r.1.u < |r.0[|levels| - 1].upvalues|)
    && (r.1.LocalAt? ==> levels != [] && r.1.i < |levels[|levels| - 1].locals|)
  }

  /** Lookup only adds descriptors, and never one that is there already. */
  lemma {:induction false} LookupExtends(levels: seq<Level>, name: string, local: bool)
    requires Wf(levels) && Lookup(levels, name, local).Ok?
    ensures Keeps(levels, Lookup(levels, name, local).value)
    decreases |levels|
  {
    if levels != [] {
      hide Wf, WfIn, AddUpvalue, Mark, Lookup, Keeps;
      var n := |levels| - 1;
      var top, outer := levels[n], levels[..n];
      assert levels == outer + [top];
      WfTop(levels, outer, top);
      if Innermost(top.locals, name) >= 0 {
        CaseHere(levels, name, local, outer, top);
        KeepsHere(levels, outer, top, Innermost(top.locals, name), local);
      } else {
        CaseThere(levels, name, local, outer, top);
        LookupExtends(outer, name, false);
        var (outer', b) := Lookup(outer, name, false).value;
        KeepsThere(levels, outer, outer', top, b);
      }
    }
  }

  lemma KeepsHere(levels: seq<Level>, outer: seq<Level>, top: Level, i: nat, local: bool)
    requires levels == outer + [top] && Wf(levels) && Wf(outer) && i < |top.locals|
    requires WfIn(if outer == [] then None else Some(outer[|outer| - 1]), top)
    ensures Keeps(levels, (outer + [if local then top else Mark(top, i)], LocalAt(i)))
  {
    var top' := if local then top else Mark(top, i);
    hide Wf, Extends, WfIn, LevelExtends, Mark;
    ExtendsSelf(outer);
    LevelExtendsSelf(top);
    MarkExtends(if outer == [] then None else Some(outer[|outer| - 1]), top, i);
    ExtendsStep(levels, outer, top, outer, top');
    WfStep(outer + [top'], outer, top');
  }

  lemma KeepsThere(levels: seq<Level>, outer: seq<Level>, outer': seq<Level>, top: Level, b: Answer)
    requires levels == outer + [top] && Wf(levels) && Keeps(outer, (outer', b)) && |outer'| == |outer|
    requires WfIn(if outer == [] then None else Some(outer[|outer| - 1]), top)
    ensures b.GlobalName? ==> Keeps(levels, (outer' + [top], b))
    ensures !b.GlobalName? && AddUpvalue(top, b.LocalAt?, Arg(b)).Ok? ==>
        var (top', u) := AddUpvalue(top, b.LocalAt?, Arg(b)).value; Keeps(levels, (outer' + [top'], UpvalueAt(u)))
  {
    hide Wf, Extends, WfIn, LevelExtends, AddUpvalue;
    if outer != [] {
      ExtendsTop(outer, outer', top);
    }
    LevelExtendsSelf(top);
    ExtendsStep(levels, outer, top, outer', top);
    WfStep(outer' + [top], outer', top);
    if !b.GlobalName? && AddUpvalue(top, b.LocalAt?, Arg(b)).Ok? {
      var (top', u) := AddUpvalue(top, b.LocalAt?, Arg(b)).value;
      LookupAdds(outer', top, b);
      ExtendsStep(levels, outer, top, outer', top');
      WfStep(outer' + [top'], outer', top');
    }
  }

  lemma LevelExtendsSelf(l: Level)
    ensures LevelExtends(l, l)
  {
  }

  lemma LookupAdds(outer: seq<Level>, top: Level, b: Answer)
    requires outer != [] && WfIn(Some(outer[|outer| - 1]), top)
    requires !b.GlobalName? && AddUpvalue(top, b.LocalAt?, Arg(b)).Ok?
    requires var o := outer[|outer| - 1];
      1 <= |o.locals| <= MAX_LOCALS && |o.upvalues| <= MAX_UPVALUES &&
      if b.LocalAt? then b.i < |o.locals| else b.u < |o.upvalues|
    ensures var (top', u) := AddUpvalue(top, b.LocalAt?, Arg(b)).value;
      WfIn(Some(outer[|outer| - 1]), top') && LevelExtends(top, top') && u < |top'.upvalues|
  {
    AddUpvalueWf(outer[|outer| - 1], top, b.LocalAt?, Arg(b));
  }

  // ----- lookup finds the innermost declaration -----

  /** On the way to the declaration some function is asked for it from inside and answers with
      its 256th upvalue. */
  predicate PassesFar(levels: seq<Level>, name: string)
    decreases |levels|
  {
    levels != [] && Innermost(levels[|levels| - 1].locals, name) < 0 &&
    (PassesFar(levels[..|levels| - 1], name) ||
     (var r := Lookup(levels[..|levels| - 1], name, false); r.Ok? && r.value.1 == UpvalueAt(MAX_UPVALUES - 1)))
  }

  lemma {:induction false} DeclaredLevel(levels: seq<Level>, name: string)
    ensures Declared(levels, name).Some? ==> Declared(levels, name).value.level < |levels|
    decreases |levels|
  {
    if levels != [] {
      DeclaredLevel(levels[..|levels| - 1], name);
    }
  }

  lemma StandsTop(levels: seq<Level>, outer: seq<Level>, top: Level, u: nat)
    requires levels == outer + [top] && Wf(levels) && outer != [] && u < |top.upvalues|
    ensures Wf(outer)
    ensures var d := top.upvalues[u];
      Stands(levels)[u] ==
        if IsLocal(d) then Variable(|outer| - 1, Index(d) + 1)
        else if 0 <= Index(d) < |Stands(outer)| then Stands(outer)[Index(d)]
        else Variable(0, 0)
  {
    assert levels[..|levels| - 1] == outer;
    assert DescriptorOk(outer[|outer| - 1], top.upvalues[u]);
  }

  /** The answer, with the captures that OP_CLOSURE makes at each level, denotes the innermost
      enclosing declaration, unless it passes through a 256th upvalue. */
  lemma {:induction false} LookupDenotes(levels: seq<Level>, name: string, local: bool)
    requires Wf(levels) && Lookup(levels, name, local).Ok? && levels != []
    ensures Wf(Lookup(levels, name, local).value.0)
    ensures var (levels', a) := Lookup(levels, name, local).value;
      && |levels'| == |levels| && (a.UpvalueAt? ==> a.u < |levels'[|levels'| - 1].upvalues|)
      && (Meaning(levels', a) == Declared(levels, name) <==> !PassesFar(levels, name))
    decreases |levels|
  {
    hide Wf, Lookup, AddUpvalue, Mark, Stands, WfIn, Extends;
    var n := |levels| - 1;
    var top, outer := levels[n], levels[..n];
    assert levels == outer + [top];
    LookupExtends(levels, name, local);
    WfTop(levels, outer, top);
    var (levels', a) := Lookup(levels, name, local).value;
    if Innermost(top.locals, name) >= 0 {
      CaseHere(levels, name, local, outer, top);
    } else {
      CaseThere(levels, name, local, outer, top);
      if outer == [] {
        LookupNowhere(name);
      } else {
        LookupDenotes(outer, name, false);
        LookupExtends(outer, name, false);
        var (outer', b) := Lookup(outer, name, false).value;
        if !b.GlobalName? {
          StandsTop(levels', outer', levels'[n], a.u);
          if b.UpvalueAt? {
            NotHere(outer, name);
          }
          LookupBounds(outer, outer', b);
          DescriptorMeaning(outer', levels'[n], b, a.u, top);
        }
      }
    }
  }

  lemma LookupNowhere(name: string)
    ensures Lookup([], name, false) == Ok(([], GlobalName))
  {
  }

  lemma LookupBounds(outer: seq<Level>, outer': seq<Level>, b: Answer)
    requires outer != [] && Wf(outer') && Extends(outer, outer')
    ensures |outer| == |outer'| && |outer'[|outer| - 1].upvalues| <= MAX_UPVALUES
    ensures |outer'[|outer| - 1].locals| == |outer[|outer| - 1].locals| <= MAX_LOCALS
  {
  }

  lemma DescriptorMeaning(outer: seq<Level>, top': Level, b: Answer, u: nat, top: Level)
    requires outer != [] && Wf(outer) && !b.GlobalName? && AddUpvalue(top, b.LocalAt?, Arg(b)) == Ok((top', u))
    requires if b.LocalAt? then b.i < MAX_LOCALS else b.u < |Stands(outer)| <= MAX_UPVALUES
    ensures u < |top'.upvalues|
    ensures var d := top'.upvalues[u];
      && (b.LocalAt? ==> IsLocal(d) && Index(d) == b.i - 1)
      && (b.UpvalueAt? && b.u < MAX_UPVALUES - 1 ==> !IsLocal(d) && Index(d) == b.u)
      && (b.UpvalueAt? && b.u == MAX_UPVALUES - 1 ==> IsLocal(d) && Index(d) == -1)
  {
    DescriptorExact(b.LocalAt?, Arg(b));
  }

  /** What is an upvalue in a function is declared further out. */
  lemma NotHere(levels: seq<Level>, name: string)
    requires levels != [] && Lookup(levels, name, false).Ok? && Lookup(levels, name, false).value.1.UpvalueAt?
    ensures Declared(levels, name).Some? ==> Declared(levels, name).value.level < |levels| - 1
  {
    DeclaredLevel(levels[..|levels| - 1], name);
  }

  // ----- when that happens -----

  function FirstStanding(vs: seq<Variable>, v: Variable): (i: nat)
    ensures i <= |vs| && (i < |vs| ==> vs[i] == v) && forall j | 0 <= j < i :: vs[j] != v
  {
    if vs == [] || vs[0] == v then 0 else 1 + FirstStanding(vs[1..], v)
  }

  /** The upvalue that stands for v in the innermost function: its index if there is one, else
      the number of the upvalues, which is the index that it would get. */
  function SlotOf(levels: seq<Level>, v: Variable): (i: nat)
    requires Wf(levels) && levels != []
    ensures i <= |levels[|levels| - 1].upvalues|
  {
    FirstStanding(Stands(levels), v)
  }

  lemma {:induction false} WfPrefix(levels: seq<Level>, k: nat)
    requires Wf(levels) && k <= |levels|
    ensures Wf(levels[..k])
    decreases |levels|
  {
    if k == |levels| {
      assert levels[..k] == levels;
    } else {
      WfPrefix(levels[..|levels| - 1], k);
      assert levels[..|levels| - 1][..k] == levels[..k];
    }
  }

  /** The upvalues of the innermost function stand for variables further out, each for another. */
  lemma {:induction false} StandsDistinct(levels: seq<Level>)
    requires Wf(levels) && levels != []
    ensures forall i | 0 <= i < |Stands(levels)| :: Stands(levels)[i].level < |levels| - 1
    ensures forall i, j | 0 <= i < j < |Stands(levels)| :: Stands(levels)[i] != Stands(levels)[j]
    decreases |levels|
  {
    if |levels| > 1 {
      var n := |levels| - 1;
      var outer, top := levels[..n], levels[n];
      assert levels == outer + [top];
      StandsDistinct(outer);
      forall i | 0 <= i < |top.upvalues| ensures Stands(levels)[i].level < n {
        StandsTop(levels, outer, top, i);
        assert DescriptorOk(outer[n - 1], top.upvalues[i]);
      }
      forall i, j | 0 <= i < j < |top.upvalues| ensures Stands(levels)[i] != Stands(levels)[j] {
        StandsTop(levels, outer, top, i);
        StandsTop(levels, outer, top, j);
        assert DescriptorOk(outer[n - 1], top.upvalues[i]) && DescriptorOk(outer[n - 1], top.upvalues[j]);
        if Stands(levels)[i] == Stands(levels)[j] {
          SameDescriptor(top.upvalues[i], top.upvalues[j]);
        }
      }
    }
  }

  lemma SameDescriptor(d: nat, e: nat)
    requires d < 2 * UV_IS_LOCAL && e < 2 * UV_IS_LOCAL && IsLocal(d) == IsLocal(e) && Index(d) == Index(e)
    ensures d == e
  {
  }

  /** The descriptors that stand for v are those that a lookup of it would write. */
  lemma StandingIs(levels: seq<Level>, outer: seq<Level>, top: Level, v: Variable, b: Answer, u: nat)
    requires levels == outer + [top] && Wf(levels) && outer != [] && u < |top.upvalues|
    requires if v.level == |outer| - 1 then 0 <= v.i < MAX_LOCALS && b == LocalAt(v.i)
             else Wf(outer) && v.level < |outer| - 1 && b == UpvalueAt(SlotOf(outer, v)) && b.u < MAX_UPVALUES - 1
    ensures top.upvalues[u] == Encode(b.LocalAt?, Arg(b)) <==> Stands(levels)[u] == v
  {
    hide Stands;
    StandsTop(levels, outer, top, u);
    StandsDistinct(outer);
    var d, e := top.upvalues[u], Encode(b.LocalAt?, Arg(b));
    assert DescriptorOk(outer[|outer| - 1], d);
    DescriptorExact(b.LocalAt?, Arg(b));
    if Stands(levels)[u] == v {
      SameDescriptor(d, e);
    }
  }

  lemma FirstsAgree(uvs: seq<nat>, d: nat, vs: seq<Variable>, v: Variable)
    requires |uvs| == |vs| && forall u | 0 <= u < |uvs| :: uvs[u] == d <==> vs[u] == v
    ensures FirstOf(uvs, d) == FirstStanding(vs, v)
  {
  }

  /** A variable from outside is found in its slot, if nothing went wrong on the way. */
  lemma {:induction false} SlotIsAnswer(levels: seq<Level>, name: string, local: bool, v: Variable)
    requires Wf(levels) && Lookup(levels, name, local).Ok? && !PassesFar(levels, name)
    requires Declared(levels, name) == Some(v) && v.level < |levels| - 1
    ensures Lookup(levels, name, local).value.1 == UpvalueAt(SlotOf(levels, v))
    decreases |levels|
  {
    hide Wf, Lookup, Stands, WfIn, Extends;
    var n := |levels| - 1;
    var top, outer := levels[n], levels[..n];
    assert levels == outer + [top];
    WfTop(levels, outer, top);
    CaseThere(levels, name, local, outer, top);
    var (outer', b) := Lookup(outer, name, false).value;
    if v.level == n - 1 {
      DeclaredHere(outer, name);
    } else {
      SlotIsAnswer(outer, name, false, v);
      LookupExtends(outer, name, false);
      LookupBounds(outer, outer', b);
    }
    forall u | 0 <= u < |top.upvalues|
      ensures top.upvalues[u] == Encode(b.LocalAt?, Arg(b)) <==> Stands(levels)[u] == v {
      StandingIs(levels, outer, top, v, b, u);
    }
    FirstsAgree(top.upvalues, Encode(b.LocalAt?, Arg(b)), Stands(levels), v);
  }

  /** What is declared in the innermost function is found there. */
  lemma DeclaredHere(levels: seq<Level>, name: string)
    requires Wf(levels) && Lookup(levels, name, false).Ok? && levels != []
    requires Declared(levels, name).Some? && Declared(levels, name).value.level == |levels| - 1
    ensures 0 <= Innermost(levels[|levels| - 1].locals, name) == Declared(levels, name).value.i < MAX_LOCALS
    ensures Lookup(levels, name, false).value.1 == LocalAt(Declared(levels, name).value.i)
  {
    DeclaredLevel(levels[..|levels| - 1], name);
  }

  /** Some function between the innermost one and the declaration has, or gets, the variable as
      its 256th upvalue. */
  ghost predicate Crowded(levels: seq<Level>, name: string)
    requires Wf(levels)
  {
    Declared(levels, name).Some? && exists k :: CrowdedAt(levels, Declared(levels, name).value, k)
  }

  ghost predicate CrowdedAt(levels: seq<Level>, v: Variable, k: int)
    requires Wf(levels)
  {
    v.level < k < |levels| - 1 && Wf(levels[..k + 1]) && SlotOf(levels[..k + 1], v) == MAX_UPVALUES - 1
  }

  lemma {:induction false} PassesFarWhen(levels: seq<Level>, name: string, local: bool)
    requires Wf(levels) && Lookup(levels, name, local).Ok? && levels != []
    ensures PassesFar(levels, name) <==> Crowded(levels, name)
    decreases |levels|
  {
    var n := |levels| - 1;
    var outer, top := levels[..n], levels[n];
    assert levels == outer + [top];
    hide Wf, Lookup, Stands, WfIn, Extends, SlotOf;
    DeclaredLevel(outer, name);
    if Innermost(top.locals, name) < 0 && outer != [] {
      WfTop(levels, outer, top);
      CaseThere(levels, name, local, outer, top);
      PassesFarWhen(outer, name, false);
      CrowdedStep(levels, outer, top, name);
      if !PassesFar(outer, name) && Lookup(outer, name, false).value.1.UpvalueAt? {
        FarAnswer(outer, name);
      }
      if Declared(outer, name).Some? && Declared(outer, name).value.level < n - 1 && !PassesFar(outer, name) {
        SlotIsAnswer(outer, name, false, Declared(outer, name).value);
      }
      if Declared(outer, name).Some? && Declared(outer, name).value.level == n - 1 {
        DeclaredHere(outer, name);
      }
    } else {
      NotCrowded(levels, name);
    }
  }

  /** The innermost function has or gets the variable, declared further out, as its 256th upvalue. */
  ghost predicate FullFor(levels: seq<Level>, v: Option<Variable>)
    requires Wf(levels) && levels != []
  {
    v.Some? && v.value.level < |levels| - 1 && SlotOf(levels, v.value) == MAX_UPVALUES - 1
  }

  /** Crowded further out, or in the function that encloses the innermost one. */
  lemma CrowdedStep(levels: seq<Level>, outer: seq<Level>, top: Level, name: string)
    requires levels == outer + [top] && Wf(levels) && Wf(outer) && outer != [] && Innermost(top.locals, name) < 0
    ensures Declared(levels, name) == Declared(outer, name)
    ensures Crowded(levels, name) <==> (Crowded(outer, name) || FullFor(outer, Declared(outer, name)))
  {
    hide Wf, SlotOf;
    assert levels[..|levels| - 1] == outer;
    DeclaredLevel(outer, name);
    if Declared(outer, name).Some? {
      var v := Declared(outer, name).value;
      forall k
          ensures CrowdedAt(levels, v, k) <==>
          CrowdedAt(outer, v, k) || (k == |outer| - 1 && v.level < k && SlotOf(outer, v) == MAX_UPVALUES - 1) {
        if k < |outer| - 1 {
          CrowdedOutside(levels, outer, v, k);
        } else if k == |outer| - 1 {
          assert levels[..k + 1] == outer;
        }
      }
      if v.level < |outer| - 1 && SlotOf(outer, v) == MAX_UPVALUES - 1 {
        assert CrowdedAt(levels, v, |outer| - 1);
      }
      if k :| CrowdedAt(outer, v, k) {
        assert CrowdedAt(levels, v, k);
      }
    }
  }

  lemma CrowdedOutside(levels: seq<Level>, outer: seq<Level>, v: Variable, k: int)
    requires Wf(levels) && Wf(outer) && levels != [] && outer == levels[..|levels| - 1] && k < |outer| - 1
    ensures CrowdedAt(levels, v, k) <==> CrowdedAt(outer, v, k)
  {
    if 0 <= k {
      assert levels[..k + 1] == outer[..k + 1];
    }
  }

  lemma NotCrowded(levels: seq<Level>, name: string)
    requires Wf(levels) && levels != [] && (Innermost(levels[|levels| - 1].locals, name) >= 0 || |levels| == 1)
    ensures !Crowded(levels, name) && !PassesFar(levels, name)
  {
  }

  lemma FarAnswer(levels: seq<Level>, name: string)
    requires Wf(levels) && Lookup(levels, name, false).Ok? && levels != [] && !PassesFar(levels, name)
    requires Lookup(levels, name, false).value.1.UpvalueAt?
    ensures Declared(levels, name).Some? && Declared(levels, name).value.level < |levels| - 1
  {
    LookupDenotes(levels, name, false);
    NotHere(levels, name);
  }

  // ----- when a lookup succeeds -----

  /** What the innermost function's upvalue for v stands for, v being declared further out: v, unless a
      function on the way has it as its 256th upvalue, which the next one reads as its own slot. */
  function Carried(levels: seq<Level>, v: Variable): (w: Variable)
    requires Wf(levels) && v.level < |levels|
    ensures v.level <= w.level < |levels| && (v.level < |levels| - 1 ==> w.level < |levels| - 1)
    decreases |levels|
  {
    var n := |levels| - 1;
    if v.level >= n - 1 then v
    else
      var w := Carried(levels[..n], v);
      if SlotOf(levels[..n], w) == 0xff then Variable(n - 1, 0) else w
  }

  /** The innermost function has an upvalue for v, or room for one. */
  ghost predicate Room(levels: seq<Level>, v: Variable)
    requires Wf(levels) && v.level < |levels|
  {
    |levels[|levels| - 1].upvalues| < 0x100 || Carried(levels, v) in Stands(levels)
  }

  ghost predicate RoomAt(levels: seq<Level>, v: Variable, k: int) {
    v.level < k < |levels| ==> Wf(levels[..k + 1]) && Room(levels[..k + 1], v)
  }

  /** The steps of a lookup. */
  lemma LookupEnds(levels: seq<Level>, name: string, local: bool)
    requires levels == [] || Innermost(levels[|levels| - 1].locals, name) >= 0
    ensures var d, r := Declared(levels, name), Lookup(levels, name, local);
      if levels == [] then d == None && r.Ok? && r.value.1 == GlobalName
      else
        var i := Innermost(levels[|levels| - 1].locals, name);
        && d == Some(Variable(|levels| - 1, i)) && i < |levels[|levels| - 1].locals|
        && (if levels[|levels| - 1].locals[i].depth == -1 then r == Err("Cannot read local variable in its own initializer.")
            else r.Ok? && r.value.1 == LocalAt(i))
  {
  }

  lemma LookupOuter(levels: seq<Level>, outer: seq<Level>, top: Level, name: string, local: bool)
    requires levels == outer + [top] && Innermost(top.locals, name) < 0
    ensures Declared(levels, name) == Declared(outer, name)
    ensures var b, r := Lookup(outer, name, false), Lookup(levels, name, local);
      if b.Err? then r == b
      else if b.value.1.GlobalName? then r.Ok? && r.value.1 == GlobalName
      else
        var a := AddUpvalue(top, b.value.1.LocalAt?, Arg(b.value.1));
        if a.Ok? then r.Ok? && r.value.1 == UpvalueAt(a.value.1) else r == Err(a.msg)
  {
    hide AddUpvalue;
    assert levels[..|levels| - 1] == outer;
  }

  /** A lookup succeeds if and only if the innermost declaration of the name, if there is one, is
      initialized, and every function between it and the one that asks, and that one too, has an
      upvalue for it or room for one. */
  lemma {:induction false} LookupSucceeds(levels: seq<Level>, name: string, local: bool)
    requires Wf(levels)
    ensures var d, r := Declared(levels, name), Lookup(levels, name, local);
      if d.None? then r.Ok? && r.value.1 == GlobalName
      else
        && d.value.level < |levels| && 0 <= d.value.i < |levels[d.value.level].locals|
        && if levels[d.value.level].locals[d.value.i].depth == -1 then
             r == Err("Cannot read local variable in its own initializer.")
           else if forall k {:trigger RoomAt(levels, d.value, k)} :: RoomAt(levels, d.value, k) then
             r.Ok? && r.value.1 == Standing(levels, d.value) && (r.value.1.UpvalueAt? ==> r.value.1.u <= 0xff)
           else r == Err("Too many closure variables in function.")
    decreases |levels|
  {
    hide Stands, Wf, WfIn, SlotOf, AddUpvalue, Carried, RoomAt, Room, Standing, Lookup, Declared, Innermost;
    if levels == [] {
      LookupEnds(levels, name, local);
    } else {
      var n := |levels| - 1;
      var top, outer := levels[n], levels[..n];
      assert levels == outer + [top];
      WfTop(levels, outer, top);
      var i := Innermost(top.locals, name);
      if i >= 0 {
        LookupEnds(levels, name, local);
        RoomHere(levels, Variable(n, i));
      } else {
        LookupOuter(levels, outer, top, name, local);
        LookupSucceeds(outer, name, false);
        if Declared(outer, name).Some? {
          var v, b := Declared(outer, name).value, Lookup(outer, name, false);
          assert v.level < n;
          RoomSteps(levels, outer, top, v);
          assert levels[v.level] == outer[v.level];
          WfLevel(outer, v.level);
          if b.Ok? {
            assert b.value.1 == Standing(outer, v);
            AddSucceeds(levels, outer, top, v, b.value.1);
          }
        }
      }
    }
  }

  /** The answer for a variable. */
  function Standing(levels: seq<Level>, v: Variable): Answer
    requires Wf(levels) && 0 <= v.i && v.level < |levels|
  {
    if v.level == |levels| - 1 then LocalAt(v.i) else UpvalueAt(SlotOf(levels, Carried(levels, v)))
  }

  lemma RoomHere(levels: seq<Level>, v: Variable)
    requires Wf(levels) && v.level == |levels| - 1 && 0 <= v.i
    ensures (forall k {:trigger RoomAt(levels, v, k)} :: RoomAt(levels, v, k)) && Standing(levels, v) == LocalAt(v.i)
  {
  }

  lemma {:induction false} WfLevel(levels: seq<Level>, k: nat)
    requires Wf(levels) && k < |levels|
    ensures |levels[k].locals| <= MAX_LOCALS
    decreases |levels|
  {
    if k < |levels| - 1 {
      WfLevel(levels[..|levels| - 1], k);
    }
  }

  lemma RoomBefore(levels: seq<Level>, outer: seq<Level>, v: Variable, k: int)
    requires outer <= levels && v.level < |outer| && k < |outer|
    ensures RoomAt(levels, v, k) <==> RoomAt(outer, v, k)
  {
    hide Room, Wf;
    if 0 <= k {
      assert levels[..k + 1] == outer[..k + 1];
    }
  }

  lemma RoomSteps(levels: seq<Level>, outer: seq<Level>, top: Level, v: Variable)
    requires levels == outer + [top] && Wf(levels) && Wf(outer) && v.level < |outer|
    ensures (forall k {:trigger RoomAt(levels, v, k)} :: RoomAt(levels, v, k)) <==>
            ((forall k {:trigger RoomAt(outer, v, k)} :: RoomAt(outer, v, k)) && Room(levels, v))
  {
    hide Room, Wf, Carried, Stands;
    var n := |outer|;
    assert levels[..n + 1] == levels;
    forall k | k < n ensures RoomAt(levels, v, k) <==> RoomAt(outer, v, k) {
      RoomBefore(levels, outer, v, k);
    }
    assert RoomAt(levels, v, n) <==> Room(levels, v);
    forall k | k > n ensures RoomAt(levels, v, k) && RoomAt(outer, v, k) {
    }
    assert RoomAt(outer, v, n);
  }

  /** The step for the innermost function. */
  lemma AddSucceeds(levels: seq<Level>, outer: seq<Level>, top: Level, v: Variable, b: Answer)
    requires levels == outer + [top] && Wf(levels) && Wf(outer) && v.level < |outer|
    requires 0 <= v.i < |outer[v.level].locals| <= MAX_LOCALS && b == Standing(outer, v)
    requires b.UpvalueAt? ==> b.u <= 0xff
    ensures !b.GlobalName?
    ensures var r := AddUpvalue(top, b.LocalAt?, Arg(b));
      if Room(levels, v) then r.Ok? && UpvalueAt(r.value.1) == Standing(levels, v) && r.value.1 <= 0xff
      else r == Err("Too many closure variables in function.")
  {
    hide Stands, Wf, WfIn, Carried;
    WfTop(levels, outer, top);
    var w := Carried(levels, v);
    CarriedStep(levels, outer, v);
    forall u | 0 <= u < |top.upvalues| ensures top.upvalues[u] == Encode(b.LocalAt?, Arg(b)) <==> Stands(levels)[u] == w {
      StandingFor(levels, outer, top, v, b, u);
    }
    FirstsAgree(top.upvalues, Encode(b.LocalAt?, Arg(b)), Stands(levels), w);
    assert |top.upvalues| <= MAX_UPVALUES by { BoundTop(levels, top); }
  }

  lemma BoundTop(levels: seq<Level>, top: Level)
    requires Wf(levels) && levels != [] && top == levels[|levels| - 1]
    ensures |top.upvalues| <= MAX_UPVALUES
  {
  }

  lemma CarriedStep(levels: seq<Level>, outer: seq<Level>, v: Variable)
    requires Wf(levels) && Wf(outer) && levels != [] && outer == levels[..|levels| - 1] && v.level < |outer|
    ensures Carried(levels, v) ==
        if v.level == |outer| - 1 then v
        else if SlotOf(outer, Carried(outer, v)) == 0xff then Variable(|outer| - 1, 0)
        else Carried(outer, v)
  {
  }

  /** The descriptors that stand for what is carried are those that the lookup would write. */
  lemma StandingFor(levels: seq<Level>, outer: seq<Level>, top: Level, v: Variable, b: Answer, u: nat)
    requires levels == outer + [top] && Wf(levels) && Wf(outer) && v.level < |outer| && u < |top.upvalues|
    requires 0 <= v.i < |outer[v.level].locals| <= MAX_LOCALS && b == Standing(outer, v)
    requires b.UpvalueAt? ==> b.u <= 0xff
    ensures top.upvalues[u] == Encode(b.LocalAt?, Arg(b)) <==> Stands(levels)[u] == Carried(levels, v)
  {
    hide Stands, Wf, WfIn, Carried;
    CarriedStep(levels, outer, v);
    if v.level == |outer| - 1 {
      StandingIs(levels, outer, top, v, b, u);
    } else if b.u < MAX_UPVALUES - 1 {
      StandingIs(levels, outer, top, Carried(outer, v), b, u);
    } else {
      StandingFar(levels, outer, top, b, u);
    }
  }

  /** A descriptor for a 256th upvalue, and none for a 257th. */
  lemma StandingFar(levels: seq<Level>, outer: seq<Level>, top: Level, b: Answer, u: nat)
    requires levels == outer + [top] && Wf(levels) && Wf(outer) && outer != [] && u < |top.upvalues|
    requires b == UpvalueAt(0xff)
    ensures top.upvalues[u] == Encode(false, Arg(b)) <==> Stands(levels)[u] == Variable(|outer| - 1, 0)
  {
    hide Wf, Stands, IsLocal, Index, Encode, Distinct;
    StandsTop(levels, outer, top, u);
    StandsDistinct(outer);
    WfTop(levels, outer, top);
    var d := top.upvalues[u];
    assert DescriptorOk(outer[|outer| - 1], d);
    FarDescriptor(d);
    if !IsLocal(d) {
      var w := Stands(outer)[Index(d)];
      assert Stands(levels)[u] == w && w.level < |outer| - 1;
    }
  }

  lemma FarDescriptor(d: nat)
    requires d < 2 * UV_IS_LOCAL
    ensures d == Encode(false, 0x100) <==> IsLocal(d) && Index(d) == -1
  {
  }

  /** The innermost declaration of a name: the last local with the name in the innermost function that has
      one, if there is a function that has one. */
  lemma {:induction false} DeclaredIs(levels: seq<Level>, name: string)
    ensures var d := Declared(levels, name);
      if d.None? then forall k, j | 0 <= k < |levels| && 0 <= j < |levels[k].locals| :: levels[k].locals[j].name != name
      else
        && var v := d.value;
        && v.level < |levels| && 0 <= v.i < |levels[v.level].locals| && levels[v.level].locals[v.i].name == name
        && (forall j | v.i < j < |levels[v.level].locals| :: levels[v.level].locals[j].name != name)
        && forall k, j | v.level < k < |levels| && 0 <= j < |levels[k].locals| :: levels[k].locals[j].name != name
    decreases |levels|
  {
    if levels != [] {
      var n := |levels| - 1;
      DeclaredIs(levels[..n], name);
      assert forall k | 0 <= k < n :: levels[..n][k] == levels[k];
    }
  }

  /** The declaration of the name, if there is one, can be read and captured. */
  ghost predicate Findable(levels: seq<Level>, name: string) {
    match Declared(levels, name)
    case None => true
    case Some(v) =>
      && v.level < |levels| && 0 <= v.i < |levels[v.level].locals| && levels[v.level].locals[v.i].depth != -1
      && forall k {:trigger RoomAt(levels, v, k)} :: RoomAt(levels, v, k)
  }

  predicate Initialized(levels: seq<Level>, name: string) {
    var d := Declared(levels, name);
    d.Some? && d.value.level < |levels| && 0 <= d.value.i < |levels[d.value.level].locals| ==>
      levels[d.value.level].locals[d.value.i].depth != -1
  }

  function WhyNot(levels: seq<Level>, name: string): string {
    if Initialized(levels, name) then "Too many closure variables in function."
    else "Cannot read local variable in its own initializer."
  }

  lemma LookupFindable(levels: seq<Level>, name: string, local: bool)
    requires Wf(levels)
    ensures Lookup(levels, name, local).Ok? <==> Findable(levels, name)
    ensures Lookup(levels, name, local).Err? ==> Lookup(levels, name, local).msg == WhyNot(levels, name)
  {
    hide Lookup, RoomAt;
    LookupSucceeds(levels, name, local);
  }

  /** Where no function in between is crowded, it is v itself that is carried. */
  lemma {:induction false} CarriedSame(levels: seq<Level>, v: Variable)
    requires Wf(levels) && v.level < |levels| && forall k {:trigger CrowdedAt(levels, v, k)} :: !CrowdedAt(levels, v, k)
    ensures Carried(levels, v) == v
    decreases |levels|
  {
    hide SlotOf, Stands;
    var n := |levels| - 1;
    if v.level < n - 1 {
      var outer := levels[..n];
      forall k ensures !CrowdedAt(outer, v, k) {
        if k < |outer| - 1 {
          CrowdedOutside(levels, outer, v, k);
        }
      }
      CarriedSame(outer, v);
      assert levels[..n - 1 + 1] == outer && !CrowdedAt(levels, v, n - 1);
    }
  }

  /** The function at level k has fewer than 256 upvalues, or one for the variable. */
  ghost predicate RoomFor(levels: seq<Level>, v: Variable, k: int) {
    v.level < k < |levels| ==>
      Wf(levels[..k + 1]) && (|levels[k].upvalues| < 0x100 || v in Stands(levels[..k + 1]))
  }

  /** So there the lookup succeeds if and only if the declaration is initialized, and that is so of
      every function from there on to the one that asks. */
  lemma LookupPlainly(levels: seq<Level>, name: string, local: bool, v: Variable)
    requires Wf(levels) && Declared(levels, name) == Some(v) && !Crowded(levels, name)
    ensures v.level < |levels| && 0 <= v.i < |levels[v.level].locals|
    ensures Lookup(levels, name, local).Ok? <==>
            levels[v.level].locals[v.i].depth != -1 && forall k {:trigger RoomFor(levels, v, k)} :: RoomFor(levels, v, k)
  {
    hide Lookup, Wf, SlotOf, Stands, Carried;
    LookupSucceeds(levels, name, local);
    forall k ensures RoomAt(levels, v, k) <==> RoomFor(levels, v, k) {
      if v.level < k < |levels| {
        RoomIs(levels, v, k);
      }
    }
  }

  lemma RoomIs(levels: seq<Level>, v: Variable, k: int)
    requires Wf(levels) && v.level < k < |levels|
    requires forall j {:trigger CrowdedAt(levels, v, j)} :: !CrowdedAt(levels, v, j)
    ensures RoomAt(levels, v, k) <==> RoomFor(levels, v, k)
  {
    hide Wf, SlotOf, Stands, Carried;
    WfPrefix(levels, k + 1);
    var inner := levels[..k + 1];
    forall j ensures !CrowdedAt(inner, v, j) {
      assert v.level < j < k ==> levels[..j + 1] == inner[..j + 1];
      assert !CrowdedAt(levels, v, j);
    }
    CarriedSame(inner, v);
  }

  /** Lexical addressing is exact: the answer, with the captures made at each level, denotes the
      innermost enclosing declaration if and only if no function in between is crowded. */
  lemma LookupExact(levels: seq<Level>, name: string, local: bool)
    requires Wf(levels) && Lookup(levels, name, local).Ok? && levels != []
    ensures Wf(Lookup(levels, name, local).value.0)
    ensures var (levels', a) := Lookup(levels, name, local).value;
      && |levels'| == |levels| && (a.UpvalueAt? ==> a.u < |levels'[|levels'| - 1].upvalues|)
      && (Meaning(levels', a) == Declared(levels, name) <==> !Crowded(levels, name))
  {
    LookupDenotes(levels, name, local);
    PassesFarWhen(levels, name, local);
  }

  /** Fewer than 255 upvalues in every function are never too many. */
  lemma FewUpvalues(levels: seq<Level>, name: string)
    requires Wf(levels) && forall l | l in levels :: |l.upvalues| < MAX_UPVALUES - 1
    ensures !Crowded(levels, name)
  {
    forall k | Declared(levels, name).Some? ensures !CrowdedAt(levels, Declared(levels, name).value, k) {
      assert 0 <= k < |levels| ==> levels[k] in levels;
    }
  }

  /** Three functions: the outermost has 256 locals, of which the middle one captures all but the
      last, and the innermost one asks for the last. */
  function FullLevels(): seq<Level> {
    [Level(seq(MAX_LOCALS, i => Local(if i == MAX_LOCALS - 1 then "x" else "", 0, false)), []),
     Level([Local("", 0, false)], seq(MAX_UPVALUES - 1, i => UV_IS_LOCAL + i)),
     Level([Local("", 0, false)], [])]
  }

  lemma FullWf()
    ensures Wf(FullLevels())
  {
    hide Wf;
    var ls := FullLevels();
    assert ls[..2] == [ls[0], ls[1]] && ls[..2][..1] == [ls[0]] && [ls[0]][..0] == [];
    assert WfIn(None, ls[0]);
    forall i | 0 <= i < |ls[1].upvalues| ensures DescriptorOk(ls[0], ls[1].upvalues[i]) {
    }
    assert WfIn(Some(ls[0]), ls[1]);
    assert WfIn(Some(ls[1]), ls[2]);
    WfStep([ls[0]], [], ls[0]);
    WfStep(ls[..2], [ls[0]], ls[1]);
    WfStep(ls, ls[..2], ls[2]);
  }

  /** There the upvalue that should be x reads as register -1 of the middle function. */
  lemma FullFails()
    ensures Wf(FullLevels()) && Crowded(FullLevels(), "x")
    ensures Declared(FullLevels(), "x") == Some(Variable(0, MAX_LOCALS - 1))
    ensures Lookup(FullLevels(), "x", true).Ok?
    ensures var (levels', a) := Lookup(FullLevels(), "x", true).value;
      a == UpvalueAt(0) && |levels'| == 3 && Wf(levels') && |levels'[2].upvalues| == 1 &&
      Meaning(levels', a) == Some(Variable(1, 0))
  {
    hide Lookup, FullLevels, Wf, Stands, SlotOf, Mark, Declared;
    var ls := FullLevels();
    FullWf();
    FullLookup();
    FullShape();
    WfPrefix(ls, 2);
    FullSlot();
    assert CrowdedAt(ls, Variable(0, MAX_LOCALS - 1), 1);
    LookupExtends(ls, "x", true);
    var levels' := Lookup(ls, "x", true).value.0;
    assert levels' == levels'[..2] + [levels'[2]];
    StandsTop(levels', levels'[..2], levels'[2], 0);
  }

  lemma FullLookup()
    ensures Declared(FullLevels(), "x") == Some(Variable(0, MAX_LOCALS - 1))
    ensures var ls := FullLevels();
      Lookup(ls, "x", true) ==
          Ok(([Mark(ls[0], MAX_LOCALS - 1), ls[1].(upvalues := ls[1].upvalues + [0x1ff]), ls[2].(upvalues := [UV_IS_LOCAL])],
          UpvalueAt(0)))
  {
    hide Lookup, Mark, FullLevels;
    FullShape();
    var ls := FullLevels();
    var l0, l1, l2 := Mark(ls[0], MAX_LOCALS - 1),
        ls[1].(upvalues := ls[1].upvalues + [0x1ff]), ls[2].(upvalues := [UV_IS_LOCAL]);
    FullTwo();
    FirstIs([], UV_IS_LOCAL, 0);
    var none: seq<nat> := [];
    assert none + [UV_IS_LOCAL] == [UV_IS_LOCAL];
    assert AddUpvalue(ls[2], false, MAX_UPVALUES) == Ok((l2, 0));
    assert ls == ls[..2] + [ls[2]];
    LookupOutside(ls, ls[..2], ls[2], "x", true);
    assert [l0, l1] + [l2] == [l0, l1, l2];
  }

  lemma FullShape()
    ensures var ls := FullLevels();
      && |ls| == 3 && Innermost(ls[0].locals, "x") == MAX_LOCALS - 1
      && Innermost(ls[1].locals, "x") == Innermost(ls[2].locals, "x") == -1
      && ls[0].locals[MAX_LOCALS - 1].depth == 0 && ls[2].upvalues == []
      && FirstOf(ls[1].upvalues, 0x1ff) == |ls[1].upvalues| == MAX_UPVALUES - 1
  {
    var ls := FullLevels();
    InnermostIs(ls[0].locals, "x", MAX_LOCALS - 1);
    InnermostIs(ls[1].locals, "x", -1);
    InnermostIs(ls[2].locals, "x", -1);
    FirstIs(ls[1].upvalues, 0x1ff, MAX_UPVALUES - 1);
  }

  lemma FullTwo()
    ensures |FullLevels()| == 3 && Declared(FullLevels()[..2], "x") == Some(Variable(0, MAX_LOCALS - 1))
    ensures |FullLevels()[0].locals| == MAX_LOCALS
    ensures var ls := FullLevels();
      var l0, l1 := Mark(ls[0], MAX_LOCALS - 1), ls[1].(upvalues := ls[1].upvalues + [0x1ff]);
      Lookup(ls[..2], "x", false) == Ok(([l0, l1], UpvalueAt(MAX_UPVALUES - 1)))
  {
    hide Lookup, Mark, FullLevels;
    FullShape();
    FullFirst();
    var ls := FullLevels();
    var none: seq<Level>, one, two := [], ls[..1], ls[..2];
    assert two[..1] == one && one == none + [ls[0]] && one[..0] == none;
    LookupFound(one, none, ls[0], "x", false, MAX_LOCALS - 1);
    var l0, l1 := Mark(ls[0], MAX_LOCALS - 1), ls[1].(upvalues := ls[1].upvalues + [0x1ff]);
    assert none + [l0] == [l0];
    assert AddUpvalue(ls[1], true, MAX_LOCALS - 1) == Ok((l1, MAX_UPVALUES - 1));
    LookupOutside(two, one, ls[1], "x", false);
    assert two == one + [ls[1]] && [l0] + [l1] == [l0, l1];
  }

  lemma FullFirst()
    ensures |FullLevels()[0].locals| == MAX_LOCALS
  {
  }

  lemma FullSlot()
    requires Wf(FullLevels()[..2])
    ensures SlotOf(FullLevels()[..2], Variable(0, MAX_LOCALS - 1)) == MAX_UPVALUES - 1
  {
    var ls := FullLevels();
    var two := ls[..2];
    forall u | 0 <= u < MAX_UPVALUES - 1 ensures Stands(two)[u] == Variable(0, u) {
      StandsTop(two, two[..1], two[1], u);
    }
  }

  /** Descriptors that were there before still stand for the same variables. */
  lemma {:induction false} StandsKept(levels: seq<Level>, levels': seq<Level>)
    requires Wf(levels) && Wf(levels') && Extends(levels, levels') && levels != []
    ensures Stands(levels) <= Stands(levels')
    decreases |levels|
  {
    hide Stands;
    if |levels| > 1 {
      var n := |levels| - 1;
      StandsKept(levels[..n], levels'[..n]);
      var uv, uv' := levels[n].upvalues, levels'[n].upvalues;
      forall u | 0 <= u < |uv| ensures Stands(levels)[u] == Stands(levels')[u] {
        assert uv[u] == uv'[u];
        StandsTop(levels, levels[..n], levels[n], u);
        StandsTop(levels', levels'[..n], levels'[n], u);
        assert DescriptorOk(levels[n - 1], uv[u]);
      }
    }
  }

  /** A lookup adds descriptors and changes none: at every level those that were there before stand
      for the same variables, and every answer that was given before means the same. */
  lemma LookupStable(levels: seq<Level>, name: string, local: bool)
    requires Wf(levels) && Lookup(levels, name, local).Ok? && levels != []
    ensures var levels' := Lookup(levels, name, local).value.0;
      && Wf(levels') && levels' != [] && Extends(levels, levels') && Stands(levels) <= Stands(levels')
      && (forall a: Answer | a.UpvalueAt? ==> a.u < |levels[|levels| - 1].upvalues| ::
            (a.UpvalueAt? ==> a.u < |levels'[|levels'| - 1].upvalues|) && Meaning(levels', a) == Meaning(levels, a))
  {
    hide Stands, Lookup, Extends;
    LookupExtends(levels, name, local);
    LookupDenotes(levels, name, local);
    StandsKept(levels, Lookup(levels, name, local).value.0);
  }

  // ----- what the closures hold -----

  function CellsOf<T(!new)>(cell: Variable -> T, level: nat): int -> T { r => cell(Variable(level, r + 1)) }

  /** The captures of the innermost of closures that OP_CLOSURE made one inside the other, each
      while a frame of its level was current; cell is what the registers of those frames are. */
  function Closures<T(!new)>(levels: seq<Level>, cell: Variable -> T): (r: seq<T>)
    requires Wf(levels) && levels != []
    ensures |r| == |levels[|levels| - 1].upvalues|
    decreases |levels|
  {
    if |levels| == 1 then []
    else
      Captured(levels[|levels| - 1].upvalues, CellsOf(cell, |levels| - 2), Closures(levels[..|levels| - 1], cell))
  }

  /** At run time every upvalue of a closure is the variable that its descriptor stands for. */
  lemma {:induction false} ClosuresHold<T(!new)>(levels: seq<Level>, cell: Variable -> T, u: nat)
    requires Wf(levels) && levels != [] && u < |levels[|levels| - 1].upvalues|
    ensures Closures(levels, cell)[u] == cell(Stands(levels)[u])
    decreases |levels|
  {
    if |levels| > 1 {
      var n := |levels| - 1;
      var d := levels[n].upvalues[u];
      assert DescriptorOk(levels[n - 1], d);
      if !IsLocal(d) {
        ClosuresHold(levels[..n], cell, Index(d));
      }
    }
  }

  /** A name that is an upvalue in the innermost function is, at run time, the variable of its
      innermost enclosing declaration. */
  lemma UpvalueIsVariable<T(!new)>(levels: seq<Level>, name: string, local: bool, cell: Variable -> T)
    requires Wf(levels) && Lookup(levels, name, local).Ok? && levels != [] && !Crowded(levels, name)
    requires Lookup(levels, name, local).value.1.UpvalueAt?
    ensures var (levels', a) := Lookup(levels, name, local).value;
      && Wf(levels') && levels' != [] && a.u < |Closures(levels', cell)|
      && Declared(levels, name).Some? && Closures(levels', cell)[a.u] == cell(Declared(levels, name).value)
  {
    PassesFarWhen(levels, name, local);
    LookupDenotes(levels, name, local);
    var (levels', a) := Lookup(levels, name, local).value;
    ClosuresHold(levels', cell, a.u);
  }

  // ----- captured locals are marked -----

  predicate MarkedIn(o: Level, d: nat) {
    IsLocal(d) && 0 <= Index(d) && Index(d) + 1 < |o.locals| ==> o.locals[Index(d) + 1].captured
  }

  /** Every local that an inner function captures is marked, so that the end of its scope closes it
      (but break and continue jump past that: module Exits). */
  predicate Marked(levels: seq<Level>) {
    forall k, i {:trigger levels[k].upvalues[i]} | 1 <= k < |levels| && 0 <= i < |levels[k].upvalues| ::
      MarkedIn(levels[k - 1], levels[k].upvalues[i])
  }

  predicate MarkedAnswer(r: (seq<Level>, Answer), local: bool) {
    Marked(r.0) &&
    (r.1.LocalAt? && !local && r.0 != [] && r.1.i < |r.0[|r.0| - 1].locals| ==> r.0[|r.0| - 1].locals[r.1.i].captured)
  }

  lemma {:induction false} LookupMarks(levels: seq<Level>, name: string, local: bool)
    requires Wf(levels) && Lookup(levels, name, local).Ok? && Marked(levels)
    ensures MarkedAnswer(Lookup(levels, name, local).value, local)
    decreases |levels|
  {
    if levels != [] {
      hide Wf, Lookup, AddUpvalue, WfIn, Extends, Marked, MarkedIn, LevelExtends, MarkedAnswer, Mark;
      var n := |levels| - 1;
      var top, outer := levels[n], levels[..n];
      assert levels == outer + [top];
      WfTop(levels, outer, top);
      MarkedOuter(levels, outer);
      if Innermost(top.locals, name) >= 0 {
        CaseHere(levels, name, local, outer, top);
        MarkedHere(levels, outer, top, Innermost(top.locals, name), local);
      } else if outer == [] {
        CaseThere(levels, name, local, outer, top);
        LookupNowhere(name);
        MarkedSame(levels, [], top, local);
      } else {
        CaseThere(levels, name, local, outer, top);
        LookupMarks(outer, name, false);
        LookupExtends(outer, name, false);
        var (outer', b) := Lookup(outer, name, false).value;
        MarkedThere(levels, outer, outer', top, b, local);
      }
    }
  }

  lemma MarkedSame(levels: seq<Level>, outer: seq<Level>, top: Level, local: bool)
    requires levels == outer + [top] && Marked(levels)
    ensures MarkedAnswer((outer + [top], GlobalName), local)
  {
  }

  lemma MarkedHere(levels: seq<Level>, outer: seq<Level>, top: Level, i: nat, local: bool)
    requires levels == outer + [top] && Marked(levels) && Marked(outer) && i < |top.locals|
    ensures MarkedAnswer((outer + [if local then top else Mark(top, i)], LocalAt(i)), local)
  {
    if outer != [] {
      LevelExtendsSelf(outer[|outer| - 1]);
    }
    MarkedTop(outer, outer, top, Mark(top, i), levels);
  }

  lemma MarkedThere(levels: seq<Level>, outer: seq<Level>, outer': seq<Level>, top: Level, b: Answer, local: bool)
    requires levels == outer + [top] && Marked(levels) && Wf(outer') && Extends(outer, outer') && outer != []
    requires WfIn(Some(outer[|outer| - 1]), top) && MarkedAnswer((outer', b), false)
    requires b.LocalAt? ==> b.i < |outer[|outer| - 1].locals|
    requires b.UpvalueAt? ==> b.u < |outer'[|outer| - 1].upvalues|
    ensures b.GlobalName? ==> MarkedAnswer((outer' + [top], b), local)
    ensures !b.GlobalName? && AddUpvalue(top, b.LocalAt?, Arg(b)).Ok? ==>
        var (top', u) := AddUpvalue(top, b.LocalAt?, Arg(b)).value; MarkedAnswer((outer' + [top'], UpvalueAt(u)), local)
  {
    hide Marked, Wf, AddUpvalue, Extends;
    ExtendsTop(outer, outer', top);
    MarkedTop(outer, outer', top, top, levels);
    if !b.GlobalName? && AddUpvalue(top, b.LocalAt?, Arg(b)).Ok? {
      DescriptorExact(b.LocalAt?, Arg(b));
      AddedDescriptor(top, b.LocalAt?, Arg(b));
      MarkedTop(outer, outer', top, AddUpvalue(top, b.LocalAt?, Arg(b)).value.0, levels);
    }
  }

  lemma AddedDescriptor(l: Level, isLocal: bool, arg: nat)
    requires AddUpvalue(l, isLocal, arg).Ok?
    ensures var (l', u) := AddUpvalue(l, isLocal, arg).value;
      l'.locals == l.locals && forall i | 0 <= i < |l'.upvalues| ::
          l'.upvalues[i] == if i < |l.upvalues| then l.upvalues[i] else Encode(isLocal, arg)
  {
  }

  lemma MarkedOuter(levels: seq<Level>, outer: seq<Level>)
    requires Marked(levels) && outer <= levels
    ensures Marked(outer)
  {
  }

  /** The marks after a lookup that changed the outer levels to outer' and the innermost to top'. */
  lemma MarkedTop(outer: seq<Level>, outer': seq<Level>, top: Level, top': Level, levels: seq<Level>)
    requires levels == outer + [top] && Marked(levels) && Marked(outer') && |outer'| == |outer|
    requires outer != [] ==> LevelExtends(outer[|outer| - 1], outer'[|outer| - 1])
    requires outer != [] ==> (forall i | 0 <= i < |top'.upvalues| ::
        (i < |top.upvalues| && top'.upvalues[i] == top.upvalues[i]) || MarkedIn(outer'[|outer| - 1], top'.upvalues[i]))
    ensures Marked(outer' + [top'])
  {
    var levels' := outer' + [top'];
    forall k, i | 1 <= k < |levels'| && 0 <= i < |levels'[k].upvalues|
      ensures MarkedIn(levels'[k - 1], levels'[k].upvalues[i]) {
      if k < |outer| {
        assert levels'[k] == outer'[k];
      } else {
        assert levels[k].upvalues == top.upvalues;
        if i < |top.upvalues| {
          assert MarkedIn(levels[k - 1], levels[k].upvalues[i]);
        }
      }
    }
  }

  // ----- scopes -----

  /** How many locals remain when the scope at this depth ends. */
  function Remaining(locals: seq<Local>, depth: int): (n: nat)
    ensures n <= |locals| && (n > 0 ==> locals[n - 1].depth < depth)
    ensures forall j | n <= j < |locals| :: locals[j].depth >= depth
  {
    if locals == [] || locals[|locals| - 1].depth < depth then |locals| else Remaining(locals[..|locals| - 1], depth)
  }

  /** The end of a scope leaves exactly the locals from before it. */
  lemma {:induction false} ScopeRestores(before: seq<Local>, declared: seq<Local>, depth: int)
    requires forall l | l in before :: l.depth < depth
    requires forall l | l in declared :: l.depth >= depth
    ensures (before + declared)[..Remaining(before + declared, depth)] == before
    decreases |declared|
  {
    var all := before + declared;
    if declared == [] {
      assert all == before;
      assert before != [] ==> before[|before| - 1] in before;
    } else {
      assert all[|all| - 1] in declared;
      assert all[..|all| - 1] == before + declared[..|declared| - 1];
      ScopeRestores(before, declared[..|declared| - 1], depth);
    }
  }

  const ALREADY_DECLARED := "Variable with this name already declared in this scope."
  const TOO_MANY_LOCALS := "Too many local variables in function."

  /** The first of the locals that declareVariable compares a new name with. */
  function ScopeStart(locals: seq<Local>, depth: int): (n: nat)
    ensures n <= |locals| && (n > 0 ==> locals[n - 1].depth != -1 && locals[n - 1].depth < depth)
    ensures forall j | n <= j < |locals| :: locals[j].depth == -1 || locals[j].depth >= depth
  {
    if locals == [] || (locals[|locals| - 1].depth != -1 && locals[|locals| - 1].depth < depth) then |locals|
    else ScopeStart(locals[..|locals| - 1], depth)
  }

  lemma NewLevel(outer: seq<Level>, l: Local)
    requires Wf(outer) && Marked(outer)
    ensures Wf(outer + [Level([l], [])]) && Marked(outer + [Level([l], [])])
  {
    WfStep(outer + [Level([l], [])], outer, Level([l], []));
  }

  lemma TopLocals(levels: seq<Level>, outer: seq<Level>, top: Level, top': Level)
    requires levels == outer + [top] && Wf(levels) && Marked(levels)
    requires top'.upvalues == top.upvalues && 1 <= |top'.locals| <= MAX_LOCALS
    ensures Wf(outer + [top']) && Marked(outer + [top'])
  {
    WfTop(levels, outer, top);
    WfStep(outer + [top'], outer, top');
    forall k, i | 1 <= k < |levels| && 0 <= i < |levels[k].upvalues|
      ensures MarkedIn((outer + [top'])[k - 1], (outer + [top'])[k].upvalues[i]) {
      assert MarkedIn(levels[k - 1], levels[k].upvalues[i]);
    }
  }

  /** The part of a Compiler that knows names. */
  class Names {
    var enclosing: Names?
    var locals: array<Local>
    var actVar: nat
    var upvalues: array<nat>
    var uvCount: nat
    var scopeDepth: nat
    ghost var Repr: set<object>

    ghost predicate Shaped()
      reads this, Repr
      decreases Repr
    {
      && this in Repr && locals in Repr && upvalues in Repr
      && locals.Length == MAX_LOCALS && upvalues.Length == MAX_UPVALUES
      && actVar < MAX_LOCALS && uvCount <= MAX_UPVALUES && locals[0].depth == 0
      && (enclosing != null ==>
             enclosing in Repr && enclosing.Repr <= Repr - {this, locals, upvalues} && enclosing.Shaped())
    }

    /** The names are in order: well formed, and every captured local is marked. */
    ghost predicate Valid()
      reads this, Repr
    {
      Shaped() && Wf(View()) && Marked(View())
    }

    function Own(): Level
      requires Shaped()
      reads this, Repr
    {
      Level(locals[..actVar + 1], upvalues[..uvCount])
    }

    /** This function and the enclosing ones, outermost first. */
    ghost function View(): (v: seq<Level>)
      requires Shaped()
      reads this, Repr
      ensures v != [] && v[|v| - 1] == Own()
      decreases Repr
    {
      (if enclosing == null then [] else enclosing.View()) + [Own()]
    }

    constructor (enclosing: Names?, thisName: string)
      requires enclosing != null ==> enclosing.Shaped()
      ensures Shaped() && fresh(Repr - (if enclosing == null then {} else enclosing.Repr))
      ensures this.enclosing == enclosing
      ensures locals[..actVar + 1] == [Local(thisName, 0, false)] && uvCount == 0 && scopeDepth == 0
    {
      this.enclosing := enclosing;
      var ls := new Local[MAX_LOCALS](_ => Local(thisName, 0, false));
      locals, actVar := ls, 0;
      var us := new nat[MAX_UPVALUES](_ => 0);
      upvalues, uvCount := us, 0;
      scopeDepth := 0;
      Repr := {this, ls, us} + (if enclosing == null then {} else enclosing.Repr);
      new;
      assert locals[..1] == [Local(thisName, 0, false)];
    }

    lemma Nested(outer: seq<Level>, l: Local)
      requires Shaped() && ViewOf(enclosing) == outer && locals[..actVar + 1] == [l] && uvCount == 0
      requires Wf(outer + [Level([l], [])]) && Marked(outer + [Level([l], [])])
      ensures Valid() && View() == outer + [Level([l], [])]
    {
      hide Wf, Marked;
    }

    /** endCompiler: back to the enclosing function, which is in order, with the descriptors that
        this one made it capture. */
    method EndCompiler() returns (outer: Names?)
      requires Valid()
      ensures outer == enclosing && (outer != null ==> outer.Valid())
      ensures ViewOf(outer) == View()[..|View()| - 1]
    {
      outer := enclosing;
      if outer != null {
        EnclosingValid();
      }
    }

    lemma EnclosingValid()
      requires Valid() && enclosing != null
      ensures enclosing.Valid()
    {
      WfTop(View(), enclosing.View(), Own());
      MarkedOuter(View(), enclosing.View());
    }

    /** Only the locals of this function have changed. */
    lemma LocalsChanged(view: seq<Level>)
      requires Shaped() && Wf(view) && Marked(view) && view != [] && view[..|view| - 1] == ViewOf(enclosing)
      requires view[|view| - 1].upvalues == Own().upvalues
      ensures Valid()
    {
      TopLocals(view, ViewOf(enclosing), view[|view| - 1], Own());
    }

    /** resolveLocal: the register of the innermost local with the name, or -2. */
    method ResolveLocal(name: string) returns (r: Result<int>)
      requires Shaped()
      ensures var i := Innermost(Own().locals, name);
        if i < 0 then r == Ok(-2) else if Own().locals[i].depth == -1 then r == Err(OWN_INITIALIZER) else r == Ok(i - 1)
    {
      var i := actVar;
      while i >= 0
        invariant -1 <= i <= actVar && forall j | i < j <= actVar :: locals[j].name != name
      {
        if locals[i].name == name {
          InnermostIs(Own().locals, name, i);
          if locals[i].depth == -1 {
            return Err(OWN_INITIALIZER);
          }
          return Ok(i - 1);
        }
        i := i - 1;
      }
      InnermostIs(Own().locals, name, -1);
      return Ok(-2);
    }

    /** beginScope. */
    method BeginScope()
      requires Valid()
      modifies `scopeDepth
      ensures Valid() && scopeDepth == old(scopeDepth) + 1 && Own() == old(Own())
    {
      hide Wf, Marked;
      ghost var view := View();
      scopeDepth := scopeDepth + 1;
      LocalsChanged(view);
    }

    /** declareVariable, with addLocal: a name that is not yet declared in the scope gets the next
        register; it cannot be read before markInitialized. */
    method DeclareVariable(name: string) returns (r: Result<int>)
      requires Valid()
      modifies `actVar, locals
      ensures Valid()
      ensures scopeDepth == 0 ==> r == Ok(-1) && Own() == old(Own())
      ensures var ls := old(Own()).locals;
        scopeDepth != 0 ==>
          if exists i :: ScopeStart(ls, scopeDepth) <= i < |ls| && ls[i].name == name
            then r == Err(ALREADY_DECLARED) && Own() == old(Own())
          else if |ls| == MAX_LOCALS then r == Err(TOO_MANY_LOCALS) && Own() == old(Own())
          else r == Ok(|ls| - 1) && Own() == old(Own()).(locals := ls + [Local(name, -1, false)])
    {
      hide Valid, ScopeStart;
      if scopeDepth == 0 {
        return Ok(-1);
      }
      ShapedHere();
      var twice := IsDeclared(name);
      if twice {
        return Err(ALREADY_DECLARED);
      }
      r := AddLocal(name);
    }

    lemma ShapedHere()
      requires Valid()
      ensures Shaped()
    {
    }

    /** addLocal. */
    method AddLocal(name: string) returns (r: Result<int>)
      requires Valid()
      modifies `actVar, locals
      ensures Valid()
      ensures var ls := old(Own()).locals;
        if |ls| == MAX_LOCALS then r == Err(TOO_MANY_LOCALS) && Own() == old(Own())
        else r == Ok(|ls| - 1) && Own() == old(Own()).(locals := ls + [Local(name, -1, false)])
    {
      hide Wf, Marked;
      ghost var view := View();
      if actVar + 1 == MAX_LOCALS {
        return Err(TOO_MANY_LOCALS);
      }
      ghost var before := locals[..actVar + 1];
      actVar := actVar + 1;
      locals[actVar] := Local(name, -1, false);
      assert locals[..actVar + 1] == before + [Local(name, -1, false)];
      LocalsChanged(view);
      return Ok(actVar - 1);
    }

    /** The loop of declareVariable. */
    method IsDeclared(name: string) returns (twice: bool)
      requires Shaped()
      ensures var ls := Own().locals; twice <==> exists i ::
        ScopeStart(ls, scopeDepth) <= i < |ls| && ls[i].name == name
    {
      hide ScopeStart;
      ghost var ls := Own().locals;
      assert ls[..actVar + 1] == ls;
      var i := actVar;
      while i >= 0
        invariant -1 <= i < |ls| && forall j | i < j < |ls| :: ls[j].name != name
        invariant ScopeStart(ls, scopeDepth) == ScopeStart(ls[..i + 1], scopeDepth)
      {
        ScopeStartStep(ls, i, scopeDepth);
        if locals[i].depth != -1 && locals[i].depth < scopeDepth {
          break;
        }
        if locals[i].name == name {
          return true;
        }
        i := i - 1;
      }
      return false;
    }

    /** markInitialized. */
    method MarkInitialized()
      requires Valid() && (scopeDepth > 0 ==> actVar > 0)
      modifies locals
      ensures Valid()
      ensures var ls := old(Own()).locals;
        Own() == old(Own()).(locals :=
            if scopeDepth == 0 then ls else ls[|ls| - 1 := ls[|ls| - 1].(depth := scopeDepth)])
    {
      hide Wf, Marked, ScopeStart;
      ghost var view := View();
      if scopeDepth == 0 {
        return;
      }
      locals[actVar] := locals[actVar].(depth := scopeDepth);
      LocalsChanged(view);
    }

    /** localIsCaptured: whether a local of the scope that ends is captured. */
    method LocalIsCaptured() returns (closeUpvalues: bool)
      requires Shaped()
      ensures closeUpvalues <==> CapturedFrom(Own().locals, Remaining(Own().locals, scopeDepth))
    {
      hide Remaining;
      ghost var ls := Own().locals;
      assert ls[..actVar + 1] == ls;
      closeUpvalues := false;
      var i := actVar;
      while i >= 0 && locals[i].depth >= scopeDepth
        invariant -1 <= i < |ls| && Remaining(ls, scopeDepth) == Remaining(ls[..i + 1], scopeDepth)
        invariant closeUpvalues <==> CapturedFrom(ls, i + 1)
      {
        RemainingStep(ls, i, scopeDepth);
        CapturedStep(ls, i);
        closeUpvalues := closeUpvalues || locals[i].captured;
        i := i - 1;
      }
      if i >= 0 {
        RemainingStep(ls, i, scopeDepth);
      }
    }

    /** endScope: the locals of the scope go. */
    method EndScope()
      requires Valid() && scopeDepth >= 1
      modifies `actVar, `scopeDepth
      ensures Valid() && scopeDepth == old(scopeDepth) - 1
      ensures var ls := old(Own()).locals; Own() == old(Own()).(locals := ls[..Remaining(ls, old(scopeDepth))])
    {
      hide Wf, Marked, Remaining, ScopeStart, Stands;
      ghost var view := View();
      DropLocals();
      scopeDepth := scopeDepth - 1;
      LocalsChanged(view);
    }

    /** The loop of endScope. */
    method DropLocals()
      requires Shaped() && scopeDepth >= 1
      modifies `actVar
      ensures Shaped() && var ls := old(Own()).locals; Own() == old(Own()).(locals := ls[..Remaining(ls, scopeDepth)])
    {
      hide Remaining;
      ghost var ls := locals[..actVar + 1];
      assert ls[..actVar + 1] == ls;
      while locals[actVar].depth >= scopeDepth
        invariant actVar < |ls| <= MAX_LOCALS && Remaining(ls, scopeDepth) == Remaining(ls[..actVar + 1], scopeDepth)
        decreases actVar
      {
        RemainingStep(ls, actVar, scopeDepth);
        actVar := actVar - 1;
      }
      RemainingStep(ls, actVar, scopeDepth);
      assert locals[..actVar + 1] == ls[..actVar + 1];
    }

    /** uv_mark. */
    method UvMark(i: nat)
      requires Shaped() && i <= actVar
      modifies locals
      ensures Shaped() && Own() == Mark(old(Own()), i)
      ensures enclosing != null ==> enclosing.Shaped() && enclosing.View() == old(enclosing.View())
    {
      locals[i] := locals[i].(captured := true);
    }

    /** var_lookup_uv. */
    method VarLookupUv(arg: nat, isLocal: bool) returns (r: Result<nat>)
      requires Shaped() && (isLocal ==> arg < MAX_LOCALS)
      modifies `uvCount, upvalues
      ensures Shaped()
      ensures match AddUpvalue(old(Own()), isLocal, arg)
                    case Ok(lu) => Own() == lu.0 && r == Ok(lu.1)
                    case Err(m) => r == Err(m)
      ensures var d, uvs := if isLocal then 0x100 + arg else arg, old(Own()).upvalues;
        if d in uvs then
          && r.Ok? && r.value < |uvs| && uvs[r.value] == d && (forall i | 0 <= i < r.value :: uvs[i] != d)
          && Own() == old(Own())
        else if |uvs| < 0x100 then r == Ok(|uvs|) && Own() == old(Own()).(upvalues := uvs + [d])
        else r == Err("Too many closure variables in function.")
      ensures enclosing != null ==> enclosing.Shaped() && enclosing.View() == old(enclosing.View())
    {
      hide View;
      // UV_IS_LOCAL | arg is a sum, because arg has no such bit.
      var larg := if isLocal then UV_IS_LOCAL + arg else arg;
      var i := FindUpvalue(larg);
      if i < uvCount {
        return Ok(i);
      }
      if uvCount == MAX_UPVALUES {
        return Err(TOO_MANY_UPVALUES);
      }
      AppendUpvalue(larg);
      return Ok(i);
    }

    /** The loop of var_lookup_uv. */
    method FindUpvalue(larg: nat) returns (i: nat)
      requires Shaped()
      ensures i == FirstOf(Own().upvalues, larg) <= uvCount == |Own().upvalues|
    {
      i := 0;
      while i < uvCount
        invariant i <= uvCount && forall j | 0 <= j < i :: upvalues[j] != larg
      {
        if upvalues[i] == larg {
          break;
        }
        i := i + 1;
      }
      FirstIs(Own().upvalues, larg, i);
    }

    method AppendUpvalue(larg: nat)
      requires Shaped() && uvCount < MAX_UPVALUES
      modifies `uvCount, upvalues
      ensures Shaped() && Own() == old(Own()).(upvalues := old(Own()).upvalues + [larg])
      ensures enclosing != null ==> enclosing.Shaped() && enclosing.View() == old(enclosing.View())
    {
      upvalues[uvCount] := larg;
      uvCount := uvCount + 1;
    }
  }

  /** Some local from index n on is captured. */
  predicate CapturedFrom(locals: seq<Local>, n: nat) { exists i :: n <= i < |locals| && locals[i].captured }

  lemma CapturedStep(locals: seq<Local>, n: nat)
    requires n < |locals|
    ensures CapturedFrom(locals, n) <==> locals[n].captured || CapturedFrom(locals, n + 1)
    ensures !CapturedFrom(locals, |locals|)
  {
  }

  lemma RemainingStep(ls: seq<Local>, i: nat, depth: int)
    requires i < |ls|
    ensures Remaining(ls[..i + 1], depth) == if ls[i].depth < depth then i + 1 else Remaining(ls[..i], depth)
  {
    assert ls[..i + 1][..i] == ls[..i];
  }

  lemma ScopeStartStep(ls: seq<Local>, i: nat, depth: int)
    requires i < |ls|
    ensures ScopeStart(ls[..i + 1], depth) ==
        if ls[i].depth != -1 && ls[i].depth < depth then i + 1 else ScopeStart(ls[..i], depth)
  {
    assert ls[..i + 1][..i] == ls[..i];
  }

  lemma {:induction false} InnermostIs(locals: seq<Local>, name: string, i: int)
    requires -1 <= i < |locals| && (i >= 0 ==> locals[i].name == name)
    requires forall j | i < j < |locals| :: locals[j].name != name
    ensures Innermost(locals, name) == i
  {
  }

  lemma {:induction false} FirstIs(uvs: seq<nat>, d: nat, i: nat)
    requires i <= |uvs| && (i < |uvs| ==> uvs[i] == d) && forall j | 0 <= j < i :: uvs[j] != d
    ensures FirstOf(uvs, d) == i
  {
  }

  /** initCompiler; thisName is "this" in a method, else empty. */
  method InitCompiler(enclosing: Names?, thisName: string) returns (c: Names)
    requires enclosing != null ==> enclosing.Valid()
    ensures c.Valid() && c.enclosing == enclosing && fresh(c.Repr - (if enclosing == null then {} else enclosing.Repr))
    ensures c.View() == old(ViewOf(enclosing)) + [Level([Local(thisName, 0, false)], [])] && c.scopeDepth == 0
  {
    hide Wf, Marked;
    ghost var outer, l := ViewOf(enclosing), Local(thisName, 0, false);
    WholeLevels(enclosing);
    NewLevel(outer, l);
    c := new Names(enclosing, thisName);
    assert ViewOf(enclosing) == outer;
    c.Nested(outer, l);
  }

  lemma WholeLevels(c: Names?)
    requires c != null ==> c.Valid()
    ensures Wf(ViewOf(c)) && Marked(ViewOf(c))
  {
  }

  ghost function ViewOf(c: Names?): seq<Level>
    requires c != null ==> c.Shaped()
    reads if c == null then {} else c.Repr
  {
    if c == null then [] else c.View()
  }

  /** var_lookup, as an expression calls it. */
  method LookUp(c: Names, name: string) returns (r: Result<Answer>)
    requires c.Valid()
    modifies c.Repr
    ensures c.Shaped() && c.Repr == old(c.Repr) && LookedUp(old(c.View()), name, true, r, c.View())
    ensures r.Ok? ==> c.Valid() && Lookup(old(c.View()), name, true) == Ok((c.View(), r.value))
    ensures r.Ok? <==> Findable(old(c.View()), name)
    ensures r.Err? ==> r.msg == WhyNot(old(c.View()), name)
  {
    ghost var view := c.View();
    LookupFindable(view, name, true);
    r := VarLookup(c, name, true);
    if r.Ok? {
      LookupExtends(view, name, true);
      LookupMarks(view, name, true);
    }
  }

  /** var_lookup. */
  method VarLookup(c: Names?, name: string, local: bool) returns (r: Result<Answer>)
    requires c != null ==> c.Shaped()
    modifies if c == null then {} else c.Repr
    ensures c != null ==> c.Shaped() && c.Repr == old(c.Repr)
    ensures LookedUp(old(ViewOf(c)), name, local, r, ViewOf(c))
    decreases if c == null then {} else c.Repr, 1
  {
    if c == null {
      return Ok(GlobalName);
    }
    r := LookupIn(c, name, local);
  }

  /** The same, when there is a function. */
  method LookupIn(c: Names, name: string, local: bool) returns (r: Result<Answer>)
    requires c.Shaped()
    modifies c.Repr
    ensures c.Shaped() && c.Repr == old(c.Repr) && LookedUp(old(c.View()), name, local, r, c.View())
    decreases c.Repr, 0
  {
    hide Lookup, LookedUp, Innermost;
    ghost var outer, top := ViewOf(c.enclosing), c.Own();
    assert c.View() == outer + [top];
    var found := c.ResolveLocal(name);
    if found.Err? {
      LookupOwn(c.View(), outer, top, name, local);
      return Err(found.msg);
    }
    if found.value >= -1 {
      r := LookupHere(c, name, local, found.value + 1);
    } else {
      var a := VarLookup(c.enclosing, name, false);
      assert c.Own() == top;
      r := LookupThere(c, name, local, a, outer, top);
    }
  }

  /** The answer and the levels are what Lookup says. */
  ghost predicate LookedUp(levels: seq<Level>, name: string, local: bool, r: Result<Answer>, levels': seq<Level>) {
    && (match Lookup(levels, name, local) case Ok(la) => levels' == la.0 && r == Ok(la.1) case Err(m) => r == Err(m))
    && (r.Ok? && r.value.LocalAt? ==> r.value.i < MAX_LOCALS)
  }

  method LookupHere(c: Names, name: string, local: bool, i: nat) returns (r: Result<Answer>)
    requires c.Shaped() && i == Innermost(c.Own().locals, name) && c.Own().locals[i].depth != -1
    modifies c.locals
    ensures c.Shaped() && LookedUp(old(c.View()), name, local, r, c.View())
  {
    ghost var outer, top := ViewOf(c.enclosing), c.Own();
    assert c.View() == outer + [top];
    LookupFound(c.View(), outer, top, name, local, i);
    if !local {
      c.UvMark(i);
    }
    assert c.View() == outer + [c.Own()];
    return Ok(LocalAt(i));
  }

  lemma LookupOwn(levels: seq<Level>, outer: seq<Level>, top: Level, name: string, local: bool)
    requires levels == outer + [top] && Innermost(top.locals, name) >= 0
    requires top.locals[Innermost(top.locals, name)].depth == -1
    ensures LookedUp(levels, name, local, Err(OWN_INITIALIZER), levels)
  {
  }

  lemma LookupFound(levels: seq<Level>, outer: seq<Level>, top: Level, name: string, local: bool, i: nat)
    requires levels == outer + [top] && i < |top.locals|
    requires i == Innermost(top.locals, name) && top.locals[i].depth != -1
    ensures Lookup(levels, name, local) == Ok((outer + [if local then top else Mark(top, i)], LocalAt(i)))
  {
    assert levels[..|levels| - 1] == outer;
  }

  method LookupThere(c: Names, name: string, local: bool, outer: Result<Answer>, ghost outerView: seq<Level>,
                     ghost top: Level)
      returns (r: Result<Answer>)
    requires c.Shaped() && LookedUp(outerView, name, false, outer, ViewOf(c.enclosing))
    requires top == c.Own() && Innermost(top.locals, name) < 0
    modifies c`uvCount, c.upvalues
    ensures c.Shaped() && LookedUp(outerView + [top], name, local, r, c.View())
  {
    hide Lookup, AddUpvalue, LookedUp, Innermost;
    assert c.View() == ViewOf(c.enclosing) + [top];
    LookedUpThrough(outerView, top, name, local, outer, ViewOf(c.enclosing));
    if outer.Err? || outer.value.GlobalName? {
      return outer;
    }
    r := Capture(c, name, local, outer.value, outerView, top);
  }

  /** The end of var_lookup, for an answer from the enclosing function. */
  method Capture(c: Names, name: string, local: bool, a: Answer, ghost outerView: seq<Level>, ghost top: Level)
      returns (r: Result<Answer>)
    requires c.Shaped() && LookedUp(outerView, name, false, Ok(a), ViewOf(c.enclosing))
    requires top == c.Own() && Innermost(top.locals, name) < 0 && !a.GlobalName? && (a.LocalAt? ==> a.i < MAX_LOCALS)
    modifies c`uvCount, c.upvalues
    ensures c.Shaped() && LookedUp(outerView + [top], name, local, r, c.View())
  {
    hide Lookup, AddUpvalue, LookedUp, Innermost;
    ghost var view := ViewOf(c.enclosing);
    var ret := c.VarLookupUv(if a.LocalAt? then a.i else a.u + 1, a.LocalAt?);
    assert c.View() == view + [c.Own()];
    LookedUpAdded(outerView, top, name, local, a, view, c.Own(), ret);
    return if ret.Ok? then Ok(UpvalueAt(ret.value)) else Err(ret.msg);
  }

  lemma LookedUpThrough(outer: seq<Level>, top: Level, name: string, local: bool, r: Result<Answer>, outer': seq<Level>)
    requires LookedUp(outer, name, false, r, outer') && Innermost(top.locals, name) < 0
    ensures r.Err? || r.value.GlobalName? ==> LookedUp(outer + [top], name, local, r, outer' + [top])
    ensures r.Ok? && r.value.LocalAt? ==> r.value.i < MAX_LOCALS
  {
    hide Lookup;
    LookupOutside(outer + [top], outer, top, name, local);
  }

  lemma LookedUpAdded(outer: seq<Level>, top: Level, name: string, local: bool, a: Answer, outer': seq<Level>,
                      top': Level, ret: Result<nat>)
    requires LookedUp(outer, name, false, Ok(a), outer') && Innermost(top.locals, name) < 0 && !a.GlobalName?
    requires match AddUpvalue(top, a.LocalAt?, Arg(a))
                   case Ok(lu) => top' == lu.0 && ret == Ok(lu.1)
                   case Err(m) => ret == Err(m)
    ensures LookedUp(outer + [top], name, local,
        if ret.Ok? then Ok(UpvalueAt(ret.value)) else Err(ret.msg), outer' + [top'])
  {
    hide Lookup;
    LookupOutside(outer + [top], outer, top, name, local);
  }

  lemma LookupOutside(levels: seq<Level>, outer: seq<Level>, top: Level, name: string, local: bool)
    requires levels == outer + [top] && Innermost(top.locals, name) < 0
    ensures match Lookup(outer, name, false)
      case Err(m) => Lookup(levels, name, local) == Err(m)
      case Ok(ob) =>
        if ob.1.GlobalName? then Lookup(levels, name, local) == Ok((ob.0 + [top], ob.1))
        else match AddUpvalue(top, ob.1.LocalAt?, Arg(ob.1))
          case Err(m) => Lookup(levels, name, local) == Err(m)
          case Ok(tu) => Lookup(levels, name, local) == Ok((ob.0 + [tu.0], UpvalueAt(tu.1)))
  {
    assert levels[..|levels| - 1] == outer;
  }
}
