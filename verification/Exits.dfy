/** Leaving a scope: endScope closes the captured locals of a block at its end (src/parse.c), but
    break and continue jump past the end. Here are the statements as far as this matters, and what
    is open when a function is called or a local is declared. */
module Exits {
  import Stack

  /** A block: its locals are declared one after the other. */
  datatype Stmts = Done | Declare(rest: Stmts) | Then(s: Stmt, more: Stmts)

  /** Capture(i) makes a closure that uses local i of the enclosing function; local 0 is its own
      slot, and local i is in register i - 1. Call(f, above) calls from a register above the
      locals. Which way a condition goes is not known. */
  datatype Stmt =
    | Capture(i: nat)
    | Call(f: nat, above: nat)
    | Block(body: Stmts)
    | Choice(yes: Stmt, no: Stmt)
    | While(loop: Stmt)
    | Break
    | Continue
    | Return

  datatype Function = Function(arity: nat, body: Stmts)

  // ----- what the compiler knows -----

  /** The locals that ss captures, of its own and of what is around it, when n are active before. */
  function Caught(ss: Stmts, n: nat): set<nat> {
    match ss
    case Done => {}
    case Declare(rest) => Caught(rest, n + 1)
    case Then(s, more) => CaughtBy(s, n) + Caught(more, n)
  }

  function CaughtBy(s: Stmt, n: nat): set<nat> {
    match s
    case Capture(i) => {i}
    case Block(body) => set i | i in Caught(body, n) && i <= n
    case Choice(yes, no) => CaughtBy(yes, n) + CaughtBy(no, n)
    case While(loop) => CaughtBy(loop, n)
    case _ => {}
  }

  /** localIsCaptured at the end of a block: it is closed when one of its own locals is captured. */
  predicate Closes(body: Stmts, n: nat) { exists i :: i in Caught(body, n) && i > n }

  // ----- which captures get where -----

  /** A point that a run gets to is described by a set: START, and the locals that some run has open
      there. The empty set is a point that no run gets to. */
  const START := -1

  function Upto(open: set<int>, n: nat): set<int> { set i | i in open && i <= n }

  /** What is open after ss, when it is left in this way. */
  function Flow(ss: Stmts, n: nat, open: set<int>, e: Exit): set<int>
    decreases ss
  {
    match ss
    case Done => if e.Ended? then open else {}
    case Declare(rest) => Flow(rest, n + 1, open, e)
    case Then(s, more) =>
      (if e.Ended? then {} else FlowBy(s, n, open, e)) + Flow(more, n, FlowBy(s, n, open, Ended), e)
  }

  function FlowBy(s: Stmt, n: nat, open: set<int>, e: Exit): set<int>
    decreases s, 0
  {
    match s
    case Capture(i) => if e.Ended? && open != {} then open + {i} else {}
    case Call(_, _) => if e.Ended? then open else {}
    case Block(body) => if e.Ended? && Closes(body, n) then Upto(Flow(body, n, open, e), n) else Flow(body, n, open, e)
    case Choice(yes, no) => FlowBy(yes, n, open, e) + FlowBy(no, n, open, e)
    case While(loop) =>
      if e.Ended? then Head(loop, n, open) + FlowBy(loop, n, Head(loop, n, open), Broken) else {}
    case Break => if e.Broken? then open else {}
    case Continue => if e.Continued? then open else {}
    case Return => {}
  }

  /** What is open when a loop begins a turn. */
  function Head(loop: Stmt, n: nat, open: set<int>): set<int>
    decreases loop, 1
  {
    open + FlowBy(loop, n, open, Ended) + FlowBy(loop, n, open, Continued)
  }

  /** Local i is open where a function is called or a local is declared, and is not active there. */
  predicate Stale(ss: Stmts, n: nat, open: set<int>, i: int)
    decreases ss
  {
    match ss
    case Done => false
    case Declare(rest) => (i in open && i > n) || Stale(rest, n + 1, open, i)
    case Then(s, more) => StaleIn(s, n, open, i) || Stale(more, n, FlowBy(s, n, open, Ended), i)
  }

  predicate StaleIn(s: Stmt, n: nat, open: set<int>, i: int)
    decreases s
  {
    match s
    case Call(_, _) => i in open && i > n
    case Block(body) => Stale(body, n, open, i)
    case Choice(yes, no) => StaleIn(yes, n, open, i) || StaleIn(no, n, open, i)
    case While(loop) => StaleIn(loop, n, Head(loop, n, open), i)
    case _ => false
  }

  /** No capture gets to a call or a declaration that its local is not active at. */
  ghost predicate Good(f: Function) { forall i :: !Stale(f.body, f.arity, {START}, i) }

  // ----- what the compiled code does -----

  datatype Exit = Ended | Broken | Continued | Returned | Spent

  /** The slots with an open upvalue when the slot `limit` is the first above the locals: at a
      call that puts its header into the slots from `header` on, or at a declaration, whose
      variable gets the slot. */
  datatype Event = Event(limit: int, header: int, open: set<int>)

  /** What is open, which way the conditions to come go, and what happened. */
  datatype State = State(open: set<int>, bits: seq<bool>, log: seq<Event>)

  function Below(open: set<int>, limit: int): set<int> { set a | a in open && a < limit }

  function Logged(st: State, e: Event): State { st.(log := st.log + [e]) }

  function Bit(st: State): bool { st.bits != [] && st.bits[0] }

  function Tossed(st: State): State { if st.bits == [] then st else st.(bits := st.bits[1..]) }

  function Exec(p: seq<Function>, ss: Stmts, base: int, n: nat, st: State, fuel: nat): (Exit, State)
    decreases fuel, ss
  {
    match ss
    case Done => (Ended, st)
    case Declare(rest) => Exec(p, rest, base, n + 1, Logged(st, Event(base + n, base + n, st.open)), fuel)
    case Then(s, more) =>
      var r := ExecOne(p, s, base, n, st, fuel);
      if r.0.Ended? then Exec(p, more, base, n, r.1, fuel) else r
  }

  function ExecOne(p: seq<Function>, s: Stmt, base: int, n: nat, st: State, fuel: nat): (Exit, State)
    decreases fuel, s
  {
    match s
    case Capture(i) => (Ended, st.(open := st.open + {base + i - 1}))
    case Call(f, above) =>
      var st1 := Logged(st, Event(base + n, base + n + above, st.open));
      if f >= |p| then (Ended, st1)
      else if fuel == 0 then (Spent, st1)
      else
        var base' := base + n + above + 3;
        var r := Exec(p, p[f].body, base', p[f].arity, st1, fuel - 1);
        if r.0.Spent? then r else (Ended, r.1.(open := Below(r.1.open, base' - 1)))
    case Block(body) =>
      var r := Exec(p, body, base, n, st, fuel);
      if r.0.Ended? && Closes(body, n) then (Ended, r.1.(open := Below(r.1.open, base + n))) else r
    case Choice(yes, no) => ExecOne(p, if Bit(st) then yes else no, base, n, Tossed(st), fuel)
    case While(loop) =>
      if !Bit(st) then (Ended, Tossed(st))
      else if fuel == 0 then (Spent, st)
      else
        var r := ExecOne(p, loop, base, n, Tossed(st), fuel - 1);
        if r.0.Broken? then (Ended, r.1)
        else if r.0.Ended? || r.0.Continued? then ExecOne(p, s, base, n, r.1, fuel - 1)
        else r
    case Break => (Broken, st)
    case Continue => (Continued, st)
    case Return => (Returned, st)
  }

  // ----- Flow -----

  lemma {:induction false} FlowNothing(ss: Stmts, n: nat, none: set<int>, e: Exit)
    requires none == {}
    ensures Flow(ss, n, none, e) == {}
    decreases ss
  {
    match ss
    case Done =>
    case Declare(rest) => FlowNothing(rest, n + 1, none, e);
    case Then(s, more) =>
      FlowNothingBy(s, n, none, e);
      FlowNothingBy(s, n, none, Ended);
      FlowNothing(more, n, none, e);
  }

  lemma {:induction false} FlowNothingBy(s: Stmt, n: nat, none: set<int>, e: Exit)
    requires none == {}
    ensures FlowBy(s, n, none, e) == {}
    decreases s
  {
    match s
    case Block(body) => FlowNothing(body, n, none, e);
    case Choice(yes, no) =>
      FlowNothingBy(yes, n, none, e);
      FlowNothingBy(no, n, none, e);
    case While(loop) =>
      FlowNothingBy(loop, n, none, Ended);
      FlowNothingBy(loop, n, none, Continued);
      assert Head(loop, n, none) == none;
      FlowNothingBy(loop, n, none, Broken);
    case _ =>
  }

  /** A point with locals open is one that runs get to. */
  lemma {:induction false} FlowStart(ss: Stmts, n: nat, open: set<int>, e: Exit)
    requires START in open && Flow(ss, n, open, e) != {}
    ensures START in Flow(ss, n, open, e)
    decreases ss
  {
    match ss
    case Done =>
    case Declare(rest) => FlowStart(rest, n + 1, open, e);
    case Then(s, more) =>
      var mid := FlowBy(s, n, open, Ended);
      if !e.Ended? && FlowBy(s, n, open, e) != {} {
        FlowStartBy(s, n, open, e);
      } else if mid == {} {
        FlowNothing(more, n, mid, e);
      } else {
        FlowStartBy(s, n, open, Ended);
        FlowStart(more, n, mid, e);
      }
  }

  lemma {:induction false} FlowStartBy(s: Stmt, n: nat, open: set<int>, e: Exit)
    requires START in open && FlowBy(s, n, open, e) != {}
    ensures START in FlowBy(s, n, open, e)
    decreases s
  {
    match s
    case Block(body) => FlowStart(body, n, open, e);
    case Choice(yes, no) =>
      if FlowBy(yes, n, open, e) != {} {
        FlowStartBy(yes, n, open, e);
      } else {
        FlowStartBy(no, n, open, e);
      }
    case _ =>
  }

  /** Each local goes its own way: what comes out depends on whether it was there before. */
  lemma {:induction false} FlowElement(ss: Stmts, n: nat, a: set<int>, b: set<int>, e: Exit, i: int)
    requires START in a && START in b && i in Flow(ss, n, a, e) && (i in a ==> i in b)
    ensures i in Flow(ss, n, b, e)
    decreases ss
  {
    match ss
    case Done =>
    case Declare(rest) => FlowElement(rest, n + 1, a, b, e, i);
    case Then(s, more) =>
      var mid, mid' := FlowBy(s, n, a, Ended), FlowBy(s, n, b, Ended);
      if !e.Ended? && i in FlowBy(s, n, a, e) {
        FlowElementBy(s, n, a, b, e, i);
      } else if mid == {} {
        FlowNothing(more, n, mid, e);
      } else {
        FlowStartBy(s, n, a, Ended);
        FlowElementBy(s, n, a, b, Ended, START);
        if i in mid {
          FlowElementBy(s, n, a, b, Ended, i);
        }
        FlowElement(more, n, mid, mid', e, i);
      }
  }

  lemma {:induction false} FlowElementBy(s: Stmt, n: nat, a: set<int>, b: set<int>, e: Exit, i: int)
    requires START in a && START in b && i in FlowBy(s, n, a, e) && (i in a ==> i in b)
    ensures i in FlowBy(s, n, b, e)
    decreases s, 0
  {
    match s
    case Block(body) => FlowElement(body, n, a, b, e, i);
    case Choice(yes, no) =>
      if i in FlowBy(yes, n, a, e) {
        FlowElementBy(yes, n, a, b, e, i);
      } else {
        FlowElementBy(no, n, a, b, e, i);
      }
    case While(loop) =>
      if i in Head(loop, n, a) {
        HeadElement(loop, n, a, b, i);
      } else {
        FlowElementBy(loop, n, Head(loop, n, a), Head(loop, n, b), Broken, i);
      }
    case _ =>
  }

  lemma {:induction false} HeadElement(loop: Stmt, n: nat, a: set<int>, b: set<int>, i: int)
    requires START in a && START in b && i in Head(loop, n, a) && (i in a ==> i in b)
    ensures i in Head(loop, n, b)
    decreases loop, 1
  {
    if i in FlowBy(loop, n, a, Ended) {
      FlowElementBy(loop, n, a, b, Ended, i);
    } else if i in FlowBy(loop, n, a, Continued) {
      FlowElementBy(loop, n, a, b, Continued, i);
    }
  }

  /** Another turn of a loop brings nothing new. */
  lemma HeadClosed(loop: Stmt, n: nat, open: set<int>)
    requires START in open
    ensures var head := Head(loop, n, open);
      FlowBy(loop, n, head, Ended) <= head && FlowBy(loop, n, head, Continued) <= head && Head(loop, n, head) == head
  {
    var head := Head(loop, n, open);
    forall i | i in FlowBy(loop, n, head, Ended) ensures i in head {
      if i !in head {
        FlowElementBy(loop, n, head, open, Ended, i);
      }
    }
    forall i | i in FlowBy(loop, n, head, Continued) ensures i in head {
      if i !in head {
        FlowElementBy(loop, n, head, open, Continued, i);
      }
    }
  }

  // ----- nothing is open above the locals -----

  predicate Low(open: set<int>, limit: int) { forall a | a in open :: a < limit }

  predicate AllLow(log: seq<Event>) { forall e | e in log :: Low(e.open, e.limit) && e.limit <= e.header }

  /** The open slots belong to functions further out, or to locals of this one that the set has. */
  ghost predicate Covered(open: set<int>, base: int, may: set<int>) {
    START in may && forall a | a in open :: a < base - 1 || a - base + 1 in may
  }

  /** What a run leaves open, on the way that it leaves by: nothing of functions that it called. */
  ghost predicate Left(open: set<int>, base: int, exit: Exit, may: set<int>, open': set<int>) {
    && (!exit.Returned? && !exit.Spent? ==> Covered(open', base, may))
    && forall a | a in open' :: a in open || a >= base - 1
  }

  /** Where no capture is stale, no run calls or declares with anything open above the locals. */
  lemma {:induction false} GoodRun(p: seq<Function>, ss: Stmts, base: int, n: nat, st: State, fuel: nat, may: set<int>)
    requires (forall f | f in p :: Good(f)) && Covered(st.open, base, may) && AllLow(st.log)
    requires forall i :: !Stale(ss, n, may, i)
    ensures var r := Exec(p, ss, base, n, st, fuel);
      AllLow(r.1.log) && Left(st.open, base, r.0, Flow(ss, n, may, r.0), r.1.open)
    decreases fuel, ss
  {
    match ss
    case Done =>
    case Declare(rest) =>
      assert forall i | i in may :: i > n ==> Stale(ss, n, may, i);
      assert forall i | Stale(rest, n + 1, may, i) :: Stale(ss, n, may, i);
      GoodRun(p, rest, base, n + 1, Logged(st, Event(base + n, base + n, st.open)), fuel, may);
    case Then(s, more) =>
      assert forall i | StaleIn(s, n, may, i) :: Stale(ss, n, may, i);
      GoodStep(p, s, base, n, st, fuel, may);
      var r := ExecOne(p, s, base, n, st, fuel);
      if r.0.Ended? {
        assert forall i | Stale(more, n, FlowBy(s, n, may, Ended), i) :: Stale(ss, n, may, i);
        GoodRun(p, more, base, n, r.1, fuel, FlowBy(s, n, may, Ended));
      }
  }

  lemma {:induction false} GoodStep(p: seq<Function>, s: Stmt, base: int, n: nat, st: State, fuel: nat, may: set<int>)
    requires (forall f | f in p :: Good(f)) && Covered(st.open, base, may) && AllLow(st.log)
    requires forall i :: !StaleIn(s, n, may, i)
    ensures var r := ExecOne(p, s, base, n, st, fuel);
      AllLow(r.1.log) && Left(st.open, base, r.0, FlowBy(s, n, may, r.0), r.1.open)
    decreases fuel, s
  {
    match s
    case Call(f, above) =>
      assert forall i | i in may && i > n :: StaleIn(s, n, may, i);
      var st1 := Logged(st, Event(base + n, base + n + above, st.open));
      if f < |p| && fuel > 0 {
        assert Good(p[f]);
        GoodRun(p, p[f].body, base + n + above + 3, p[f].arity, st1, fuel - 1, {START});
      }
    case Block(body) =>
      assert forall i | Stale(body, n, may, i) :: StaleIn(s, n, may, i);
      GoodRun(p, body, base, n, st, fuel, may);
    case Choice(yes, no) =>
      assert forall i | StaleIn(yes, n, may, i) || StaleIn(no, n, may, i) :: StaleIn(s, n, may, i);
      GoodStep(p, if Bit(st) then yes else no, base, n, Tossed(st), fuel, may);
    case While(loop) =>
      if Bit(st) && fuel > 0 {
        GoodTurns(p, loop, base, n, st, fuel, may);
      }
    case _ =>
  }

  /** A turn of a loop, and the turns after it. */
  lemma {:induction false} GoodTurns(p: seq<Function>, loop: Stmt, base: int, n: nat, st: State, fuel: nat,
                                     may: set<int>)
    requires (forall f | f in p :: Good(f)) && Covered(st.open, base, may) && AllLow(st.log) && Bit(st) && fuel > 0
    requires forall i :: !StaleIn(While(loop), n, may, i)
    ensures var r := ExecOne(p, While(loop), base, n, st, fuel);
      AllLow(r.1.log) && Left(st.open, base, r.0, FlowBy(While(loop), n, may, r.0), r.1.open)
    decreases fuel, loop
  {
    var s, head := While(loop), Head(loop, n, may);
    HeadClosed(loop, n, may);
    assert forall i | StaleIn(loop, n, head, i) :: StaleIn(s, n, may, i);
    GoodStep(p, loop, base, n, Tossed(st), fuel - 1, head);
    var r := ExecOne(p, loop, base, n, Tossed(st), fuel - 1);
    if r.0.Ended? || r.0.Continued? {
      assert forall i | StaleIn(s, n, head, i) :: StaleIn(s, n, may, i);
      GoodStep(p, s, base, n, r.1, fuel - 1, head);
    }
  }

  // ----- and the other way round: every stale capture has its run -----

  /** A function by itself: a call returns at once. With these bits, whatever follows them, the run
      leaves ss in this way. */
  ghost predicate GetsAt(ss: Stmts, base: int, n: nat, open: set<int>, bits: seq<bool>, more: seq<bool>,
                         log: seq<Event>, fuel: nat,
                         e: Exit, open': set<int>) {
    var r := Exec([], ss, base, n, State(open, bits + more, log), fuel);
    r.0 == e && r.1.open == open' && r.1.bits == more
  }

  ghost predicate GetsByAt(s: Stmt, base: int, n: nat, open: set<int>, bits: seq<bool>, more: seq<bool>,
                           log: seq<Event>, fuel: nat,
                           e: Exit, open': set<int>) {
    var r := ExecOne([], s, base, n, State(open, bits + more, log), fuel);
    r.0 == e && r.1.open == open' && r.1.bits == more
  }

  ghost predicate Gets(ss: Stmts, base: int, n: nat, open: set<int>, bits: seq<bool>, least: nat, e: Exit,
                       open': set<int>) {
    forall more, log, fuel: nat {:trigger GetsAt(ss, base, n, open, bits, more, log, fuel, e, open')} | fuel >= least ::
      GetsAt(ss, base, n, open, bits, more, log, fuel, e, open')
  }

  ghost predicate GetsBy(s: Stmt, base: int, n: nat, open: set<int>, bits: seq<bool>, least: nat, e: Exit,
                         open': set<int>) {
    forall more, log, fuel: nat {:trigger GetsByAt(s, base, n, open, bits, more, log, fuel, e, open')} | fuel >= least ::
      GetsByAt(s, base, n, open, bits, more, log, fuel, e, open')
  }

  /** Local i is open, if it is a local. */
  predicate IsOpen(open: set<int>, base: int, i: int) { i == START || base + i - 1 in open }

  lemma GetsAfter(s: Stmt, more: Stmts, base: int, n: nat, open: set<int>, bits1: seq<bool>, least1: nat,
                  open1: set<int>,
                  bits2: seq<bool>, least2: nat, e: Exit, open2: set<int>)
    requires GetsBy(s, base, n, open, bits1, least1, Ended, open1)
    requires Gets(more, base, n, open1, bits2, least2, e, open2)
    ensures Gets(Then(s, more), base, n, open, bits1 + bits2, least1 + least2, e, open2)
  {
    forall rest, log, fuel: nat | fuel >= least1 + least2
      ensures GetsAt(Then(s, more), base, n, open, bits1 + bits2, rest, log, fuel, e, open2)
    {
      assert bits1 + bits2 + rest == bits1 + (bits2 + rest);
      assert GetsByAt(s, base, n, open, bits1, bits2 + rest, log, fuel, Ended, open1);
      var log1 := ExecOne([], s, base, n, State(open, bits1 + (bits2 + rest), log), fuel).1.log;
      assert GetsAt(more, base, n, open1, bits2, rest, log1, fuel, e, open2);
    }
  }

  lemma {:induction false} Reach(ss: Stmts, base: int, n: nat, may: set<int>, e: Exit, i: int, open: set<int>)
      returns (bits: seq<bool>, least: nat, open': set<int>)
    requires START in may && i in Flow(ss, n, may, e) && (i in may ==> IsOpen(open, base, i))
    ensures Gets(ss, base, n, open, bits, least, e, open') && IsOpen(open', base, i)
    decreases ss
  {
    match ss
    case Done => bits, least, open' := [], 0, open;
    case Declare(rest) =>
      bits, least, open' := Reach(rest, base, n + 1, may, e, i, open);
      forall more, log, fuel: nat | fuel >= least ensures GetsAt(ss, base, n, open, bits, more, log, fuel, e, open') {
        assert GetsAt(rest, base, n + 1, open, bits, more, log + [Event(base + n, base + n, open)], fuel, e, open');
      }
    case Then(s, more) =>
      var mid := FlowBy(s, n, may, Ended);
      if !e.Ended? && i in FlowBy(s, n, may, e) {
        bits, least, open' := ReachBy(s, base, n, may, e, i, open);
        forall rest, log, fuel: nat | fuel >= least ensures GetsAt(ss, base, n, open, bits, rest, log, fuel, e, open') {
          assert GetsByAt(s, base, n, open, bits, rest, log, fuel, e, open');
        }
      } else if mid == {} {
        FlowNothing(more, n, mid, e);
        assert false;
      } else {
        FlowStartBy(s, n, may, Ended);
        var bits1, least1, open1 := ReachBy(s, base, n, may, Ended, if i in mid then i else START, open);
        var bits2, least2;
        bits2, least2, open' := Reach(more, base, n, mid, e, i, open1);
        GetsAfter(s, more, base, n, open, bits1, least1, open1, bits2, least2, e, open');
        bits, least := bits1 + bits2, least1 + least2;
      }
  }

  lemma {:induction false} ReachBy(s: Stmt, base: int, n: nat, may: set<int>, e: Exit, i: int, open: set<int>)
      returns (bits: seq<bool>, least: nat, open': set<int>)
    requires START in may && i in FlowBy(s, n, may, e) && (i in may ==> IsOpen(open, base, i))
    ensures GetsBy(s, base, n, open, bits, least, e, open') && IsOpen(open', base, i)
    decreases s, 0
  {
    match s
    case Capture(k) => bits, least, open' := [], 0, open + {base + k - 1};
    case Call(_, _) => bits, least, open' := [], 0, open;
    case Block(body) =>
      bits, least, open' := Reach(body, base, n, may, e, i, open);
      var open1 := open';
      if e.Ended? && Closes(body, n) {
        open' := Below(open', base + n);
      }
      forall more, log, fuel: nat | fuel >= least ensures GetsByAt(s, base, n, open, bits, more, log, fuel, e, open') {
        assert GetsAt(body, base, n, open, bits, more, log, fuel, e, open1);
      }
    case Choice(yes, no) =>
      var b := i in FlowBy(yes, n, may, e);
      var t := if b then yes else no;
      var bits1;
      bits1, least, open' := ReachBy(t, base, n, may, e, i, open);
      bits := [b] + bits1;
      forall more, log, fuel: nat | fuel >= least ensures GetsByAt(s, base, n, open, bits, more, log, fuel, e, open') {
        assert (bits + more)[1..] == bits1 + more;
        assert GetsByAt(t, base, n, open, bits1, more, log, fuel, e, open');
      }
    case While(loop) =>
      bits, least, open' := ReachLoop(loop, base, n, may, i, open);
    case Break => bits, least, open' := [], 0, open;
    case Continue => bits, least, open' := [], 0, open;
    case Return => assert false;
  }

  lemma {:induction false} ReachLoop(loop: Stmt, base: int, n: nat, may: set<int>, i: int, open: set<int>)
      returns (bits: seq<bool>, least: nat, open': set<int>)
    requires START in may && i in FlowBy(While(loop), n, may, Ended) && (i in may ==> IsOpen(open, base, i))
    ensures GetsBy(While(loop), base, n, open, bits, least, Ended, open') && IsOpen(open', base, i)
    decreases loop, 1
  {
    if i in may {
      bits, least, open' := [false], 0, open;
      NoTurn(loop, base, n, open);
    } else if i in Head(loop, n, may) {
      var e := if i in FlowBy(loop, n, may, Ended) then Ended else Continued;
      var bits1, least1;
      bits1, least1, open' := ReachBy(loop, base, n, may, e, i, open);
      NoTurn(loop, base, n, open');
      OneTurn(loop, base, n, open, bits1, least1, e, open', [false], 0, Ended, open');
      bits, least := [true] + bits1 + [false], least1 + 0 + 1;
    } else {
      var bits1, least1;
      bits1, least1, open' := ReachBy(loop, base, n, Head(loop, n, may), Broken, i, open);
      LastTurn(loop, base, n, open, bits1, least1, open');
      bits, least := [true] + bits1, least1 + 1;
    }
  }

  lemma NoTurn(loop: Stmt, base: int, n: nat, open: set<int>)
    ensures GetsBy(While(loop), base, n, open, [false], 0, Ended, open)
  {
    forall more, log, fuel: nat ensures GetsByAt(While(loop), base, n, open, [false], more, log, fuel, Ended, open) {
      assert ([false] + more)[1..] == more;
    }
  }

  lemma OneTurn(loop: Stmt, base: int, n: nat, open: set<int>, bits1: seq<bool>, least1: nat, e1: Exit, open1: set<int>,
                bits2: seq<bool>, least2: nat, e: Exit, open2: set<int>)
    requires GetsBy(loop, base, n, open, bits1, least1, e1, open1) && (e1.Ended? || e1.Continued?)
    requires GetsBy(While(loop), base, n, open1, bits2, least2, e, open2)
    ensures GetsBy(While(loop), base, n, open, [true] + bits1 + bits2, least1 + least2 + 1, e, open2)
  {
    forall more, log, fuel: nat | fuel >= least1 + least2 + 1
      ensures GetsByAt(While(loop), base, n, open, [true] + bits1 + bits2, more, log, fuel, e, open2)
    {
      hide ExecOne;
      var rest := bits1 + (bits2 + more);
      assert [true] + bits1 + bits2 + more == [true] + rest;
      assert GetsByAt(loop, base, n, open, bits1, bits2 + more, log, fuel - 1, e1, open1);
      var r := ExecOne([], loop, base, n, State(open, rest, log), fuel - 1);
      TurnStep(loop, base, n, open, rest, log, fuel);
      assert r.1 == State(open1, bits2 + more, r.1.log);
      assert GetsByAt(While(loop), base, n, open1, bits2, more, r.1.log, fuel - 1, e, open2);
    }
  }

  lemma TurnStep(loop: Stmt, base: int, n: nat, open: set<int>, rest: seq<bool>, log: seq<Event>, fuel: nat)
    requires fuel > 0
    ensures var r := ExecOne([], loop, base, n, State(open, rest, log), fuel - 1);
      r.0.Ended? || r.0.Continued? ==>
        ExecOne([], While(loop), base, n, State(open, [true] + rest, log), fuel)
          == ExecOne([], While(loop), base, n, r.1, fuel - 1)
  {
    assert Tossed(State(open, [true] + rest, log)) == State(open, rest, log);
  }

  lemma LastTurn(loop: Stmt, base: int, n: nat, open: set<int>, bits1: seq<bool>, least1: nat, open1: set<int>)
    requires GetsBy(loop, base, n, open, bits1, least1, Broken, open1)
    ensures GetsBy(While(loop), base, n, open, [true] + bits1, least1 + 1, Ended, open1)
  {
    forall more, log, fuel: nat | fuel >= least1 + 1
      ensures GetsByAt(While(loop), base, n, open, [true] + bits1, more, log, fuel, Ended, open1)
    {
      assert ([true] + bits1 + more)[1..] == bits1 + more;
      assert GetsByAt(loop, base, n, open, bits1, more, log, fuel - 1, Broken, open1);
    }
  }

  // ----- runs that call or declare too low -----

  ghost predicate AnyHigh(log: seq<Event>) { exists e :: e in log && !Low(e.open, e.limit) }

  ghost predicate HitsAt(ss: Stmts, base: int, n: nat, open: set<int>, bits: seq<bool>, log: seq<Event>, fuel: nat) {
    AnyHigh(Exec([], ss, base, n, State(open, bits, log), fuel).1.log)
  }

  ghost predicate HitsByAt(s: Stmt, base: int, n: nat, open: set<int>, bits: seq<bool>, log: seq<Event>, fuel: nat) {
    AnyHigh(ExecOne([], s, base, n, State(open, bits, log), fuel).1.log)
  }

  ghost predicate Hits(ss: Stmts, base: int, n: nat, open: set<int>, bits: seq<bool>, least: nat) {
    forall log, fuel: nat {:trigger HitsAt(ss, base, n, open, bits, log, fuel)} | fuel >= least ::
      HitsAt(ss, base, n, open, bits, log, fuel)
  }

  ghost predicate HitsBy(s: Stmt, base: int, n: nat, open: set<int>, bits: seq<bool>, least: nat) {
    forall log, fuel: nat {:trigger HitsByAt(s, base, n, open, bits, log, fuel)} | fuel >= least ::
      HitsByAt(s, base, n, open, bits, log, fuel)
  }

  lemma {:induction false} LogGrows(p: seq<Function>, ss: Stmts, base: int, n: nat, st: State, fuel: nat)
    ensures st.log <= Exec(p, ss, base, n, st, fuel).1.log
    decreases fuel, ss
  {
    match ss
    case Done =>
    case Declare(rest) => LogGrows(p, rest, base, n + 1, Logged(st, Event(base + n, base + n, st.open)), fuel);
    case Then(s, more) =>
      LogGrowsBy(p, s, base, n, st, fuel);
      var r := ExecOne(p, s, base, n, st, fuel);
      if r.0.Ended? {
        LogGrows(p, more, base, n, r.1, fuel);
      }
  }

  lemma {:induction false} LogGrowsBy(p: seq<Function>, s: Stmt, base: int, n: nat, st: State, fuel: nat)
    ensures st.log <= ExecOne(p, s, base, n, st, fuel).1.log
    decreases fuel, s
  {
    match s
    case Call(f, above) =>
      if f < |p| && fuel > 0 {
        LogGrows(p, p[f].body, base + n + above + 3, p[f].arity, Logged(st, Event(base + n, base + n + above, st.open)),
            fuel - 1);
      }
    case Block(body) => LogGrows(p, body, base, n, st, fuel);
    case Choice(yes, no) => LogGrowsBy(p, if Bit(st) then yes else no, base, n, Tossed(st), fuel);
    case While(loop) =>
      if Bit(st) && fuel > 0 {
        LogGrowsBy(p, loop, base, n, Tossed(st), fuel - 1);
        var r := ExecOne(p, loop, base, n, Tossed(st), fuel - 1);
        if r.0.Ended? || r.0.Continued? {
          LogGrowsBy(p, s, base, n, r.1, fuel - 1);
        }
      }
    case _ =>
  }

  lemma HighStays(log: seq<Event>, log': seq<Event>)
    requires log <= log' && AnyHigh(log)
    ensures AnyHigh(log')
  {
    var e :| e in log && !Low(e.open, e.limit);
    assert e in log';
  }

  lemma {:induction false} Hit(ss: Stmts, base: int, n: nat, may: set<int>, i: int, open: set<int>)
      returns (bits: seq<bool>, least: nat)
    requires START in may && Stale(ss, n, may, i) && (i in may ==> IsOpen(open, base, i))
    ensures Hits(ss, base, n, open, bits, least)
    decreases ss
  {
    match ss
    case Declare(rest) =>
      if i in may && i > n {
        bits, least := [], 0;
        forall log, fuel: nat ensures HitsAt(ss, base, n, open, bits, log, fuel) {
          DeclaredHigh(rest, base, n, i, open, bits, log, fuel);
        }
      } else {
        bits, least := Hit(rest, base, n + 1, may, i, open);
        forall log, fuel: nat | fuel >= least ensures HitsAt(ss, base, n, open, bits, log, fuel) {
          assert HitsAt(rest, base, n + 1, open, bits, log + [Event(base + n, base + n, open)], fuel);
        }
      }
    case Then(s, more) =>
      var mid := FlowBy(s, n, may, Ended);
      if StaleIn(s, n, may, i) {
        bits, least := HitBy(s, base, n, may, i, open);
        forall log, fuel: nat | fuel >= least ensures HitsAt(ss, base, n, open, bits, log, fuel) {
          assert HitsByAt(s, base, n, open, bits, log, fuel);
          var r := ExecOne([], s, base, n, State(open, bits, log), fuel);
          LogGrows([], more, base, n, r.1, fuel);
          HighStays(r.1.log, Exec([], ss, base, n, State(open, bits, log), fuel).1.log);
        }
      } else if mid == {} {
        StaleNothing(more, n, mid, i);
        assert false;
      } else {
        FlowStartBy(s, n, may, Ended);
        var bits1, least1, open1 := ReachBy(s, base, n, may, Ended, if i in mid then i else START, open);
        var bits2, least2 := Hit(more, base, n, mid, i, open1);
        bits, least := bits1 + bits2, least1 + least2;
        forall log, fuel: nat | fuel >= least ensures HitsAt(ss, base, n, open, bits, log, fuel) {
          assert GetsByAt(s, base, n, open, bits1, bits2, log, fuel, Ended, open1);
          var log1 := ExecOne([], s, base, n, State(open, bits, log), fuel).1.log;
          assert HitsAt(more, base, n, open1, bits2, log1, fuel);
        }
      }
  }

  lemma DeclaredHigh(rest: Stmts, base: int, n: nat, i: int, open: set<int>, bits: seq<bool>, log: seq<Event>,
                     fuel: nat)
    requires i > n && IsOpen(open, base, i)
    ensures HitsAt(Declare(rest), base, n, open, bits, log, fuel)
  {
    var st, e := State(open, bits, log), Event(base + n, base + n, open);
    LogGrows([], rest, base, n + 1, Logged(st, e), fuel);
    assert e in Logged(st, e).log && base + i - 1 in e.open;
    HighStays(Logged(st, e).log, Exec([], rest, base, n + 1, Logged(st, e), fuel).1.log);
  }

  lemma {:induction false} StaleNothing(ss: Stmts, n: nat, none: set<int>, i: int)
    requires none == {}
    ensures !Stale(ss, n, none, i)
    decreases ss
  {
    match ss
    case Done =>
    case Declare(rest) => StaleNothing(rest, n + 1, none, i);
    case Then(s, more) =>
      StaleNothingIn(s, n, none, i);
      FlowNothingBy(s, n, none, Ended);
      StaleNothing(more, n, none, i);
  }

  lemma {:induction false} StaleNothingIn(s: Stmt, n: nat, none: set<int>, i: int)
    requires none == {}
    ensures !StaleIn(s, n, none, i)
    decreases s
  {
    match s
    case Block(body) => StaleNothing(body, n, none, i);
    case Choice(yes, no) =>
      StaleNothingIn(yes, n, none, i);
      StaleNothingIn(no, n, none, i);
    case While(loop) =>
      FlowNothingBy(loop, n, none, Ended);
      FlowNothingBy(loop, n, none, Continued);
      assert Head(loop, n, none) == none;
      StaleNothingIn(loop, n, none, i);
    case _ =>
  }

  lemma {:induction false} HitBy(s: Stmt, base: int, n: nat, may: set<int>, i: int, open: set<int>)
      returns (bits: seq<bool>, least: nat)
    requires START in may && StaleIn(s, n, may, i) && (i in may ==> IsOpen(open, base, i))
    ensures HitsBy(s, base, n, open, bits, least)
    decreases s, 0
  {
    match s
    case Call(f, above) =>
      bits, least := [], 0;
      forall log, fuel: nat ensures HitsByAt(s, base, n, open, bits, log, fuel) {
        var e := Event(base + n, base + n + above, open);
        assert e in log + [e] && base + i - 1 in e.open;
        HighStays(log + [e], ExecOne([], s, base, n, State(open, bits, log), fuel).1.log);
      }
    case Block(body) =>
      bits, least := Hit(body, base, n, may, i, open);
      forall log, fuel: nat | fuel >= least ensures HitsByAt(s, base, n, open, bits, log, fuel) {
        assert HitsAt(body, base, n, open, bits, log, fuel);
      }
    case Choice(yes, no) =>
      var b := StaleIn(yes, n, may, i);
      var t := if b then yes else no;
      var bits1;
      bits1, least := HitBy(t, base, n, may, i, open);
      bits := [b] + bits1;
      forall log, fuel: nat | fuel >= least ensures HitsByAt(s, base, n, open, bits, log, fuel) {
        assert bits[1..] == bits1;
        assert HitsByAt(t, base, n, open, bits1, log, fuel);
      }
    case While(loop) =>
      bits, least := HitLoop(loop, base, n, may, i, open);
  }

  lemma {:induction false} HitLoop(loop: Stmt, base: int, n: nat, may: set<int>, i: int, open: set<int>)
      returns (bits: seq<bool>, least: nat)
    requires START in may && StaleIn(While(loop), n, may, i) && (i in may ==> IsOpen(open, base, i))
    ensures HitsBy(While(loop), base, n, open, bits, least)
    decreases loop, 1
  {
    var head := Head(loop, n, may);
    if i in head && i !in may {
      var e := if i in FlowBy(loop, n, may, Ended) then Ended else Continued;
      var bits1, least1, open1 := ReachBy(loop, base, n, may, e, i, open);
      var bits2, least2 := HitBy(loop, base, n, head, i, open1);
      HitTurn(loop, base, n, open1, bits2, least2);
      bits, least := [true] + bits1 + ([true] + bits2), least1 + (least2 + 1) + 1;
      forall log, fuel: nat | fuel >= least ensures HitsByAt(While(loop), base, n, open, bits, log, fuel) {
        assert bits[1..] == bits1 + ([true] + bits2);
        assert GetsByAt(loop, base, n, open, bits1, [true] + bits2, log, fuel - 1, e, open1);
        var log1 := ExecOne([], loop, base, n, State(open, bits1 + ([true] + bits2), log), fuel - 1).1.log;
        assert HitsByAt(While(loop), base, n, open1, [true] + bits2, log1, fuel - 1);
      }
    } else {
      var bits1, least1 := HitBy(loop, base, n, head, i, open);
      HitTurn(loop, base, n, open, bits1, least1);
      bits, least := [true] + bits1, least1 + 1;
    }
  }

  lemma HitTurn(loop: Stmt, base: int, n: nat, open: set<int>, bits: seq<bool>, least: nat)
    requires HitsBy(loop, base, n, open, bits, least)
    ensures HitsBy(While(loop), base, n, open, [true] + bits, least + 1)
  {
    forall log, fuel: nat | fuel >= least + 1 ensures HitsByAt(While(loop), base, n, open, [true] + bits, log, fuel) {
      assert ([true] + bits)[1..] == bits;
      assert HitsByAt(loop, base, n, open, bits, log, fuel - 1);
      var r := ExecOne([], loop, base, n, State(open, bits, log), fuel - 1);
      if r.0.Ended? || r.0.Continued? {
        LogGrowsBy([], While(loop), base, n, r.1, fuel - 1);
        HighStays(r.1.log, ExecOne([], While(loop), base, n, r.1, fuel - 1).1.log);
      }
    }
  }

  // ----- the theorems -----

  /** Every frame is pushed where no open upvalue is, so that the headers of the frames stay clear,
      and every new local has a slot that no open upvalue points at, so that closures never share
      the variable of another block or of another turn of a loop. */
  lemma HeadersFree(p: seq<Function>, main: Function, base: int, bits: seq<bool>, fuel: nat, e: Event, slots: seq<nat>)
    requires (forall f | f in p :: Good(f)) && Good(main)
    requires e in Exec(p, main.body, base, main.arity, State({}, bits, []), fuel).1.log
    requires forall j | 0 <= j < |slots| :: slots[j] in e.open
    ensures Stack.HeaderFree(slots, e.header + 2) && e.limit !in e.open
  {
    GoodRun(p, main.body, base, main.arity, State({}, bits, []), fuel, {START});
  }

  /** The condition is exact for every function by itself: it holds if and only if no run, whatever way the
      conditions go and with calls that return, calls or declares with anything open above the
      locals. */
  lemma GoodExact(f: Function, base: int)
    ensures Good(f) <==> forall bits, fuel: nat ::
      AllLow(Exec([], f.body, base, f.arity, State({}, bits, []), fuel).1.log)
  {
    if Good(f) {
      forall bits, fuel: nat ensures AllLow(Exec([], f.body, base, f.arity, State({}, bits, []), fuel).1.log) {
        GoodRun([], f.body, base, f.arity, State({}, bits, []), fuel, {START});
      }
    } else {
      var i :| Stale(f.body, f.arity, {START}, i);
      var bits, least := Hit(f.body, base, f.arity, {START}, i, {});
      assert HitsAt(f.body, base, f.arity, {}, bits, [], least);
      assert !AllLow(Exec([], f.body, base, f.arity, State({}, bits, []), least).1.log);
    }
  }

  // ----- a condition that is easy to see -----

  /** Closures capture active locals only. */
  predicate Scoped(ss: Stmts, n: nat) {
    match ss
    case Done => true
    case Declare(rest) => Scoped(rest, n + 1)
    case Then(s, more) => ScopedIn(s, n) && Scoped(more, n)
  }

  predicate ScopedIn(s: Stmt, n: nat) {
    match s
    case Capture(i) => i <= n
    case Block(body) => Scoped(body, n)
    case Choice(yes, no) => ScopedIn(yes, n) && ScopedIn(no, n)
    case While(loop) => ScopedIn(loop, n)
    case _ => true
  }

  /** A break or continue leaves ss for a loop around it. */
  predicate Leaves(ss: Stmts) {
    match ss
    case Done => false
    case Declare(rest) => Leaves(rest)
    case Then(s, more) => LeavesFrom(s) || Leaves(more)
  }

  predicate LeavesFrom(s: Stmt) {
    match s
    case Break => true
    case Continue => true
    case Block(body) => Leaves(body)
    case Choice(yes, no) => LeavesFrom(yes) || LeavesFrom(no)
    case _ => false
  }

  /** No break or continue leaves a block that captured locals are closed at the end of. */
  predicate Tidy(ss: Stmts, n: nat) {
    match ss
    case Done => true
    case Declare(rest) => Tidy(rest, n + 1)
    case Then(s, more) => TidyIn(s, n) && Tidy(more, n)
  }

  predicate TidyIn(s: Stmt, n: nat) {
    match s
    case Block(body) => Tidy(body, n) && (Closes(body, n) ==> !Leaves(body))
    case Choice(yes, no) => TidyIn(yes, n) && TidyIn(no, n)
    case While(loop) => TidyIn(loop, n)
    case _ => true
  }

  ghost predicate Active(open: set<int>, n: nat) { forall i | i in open :: i <= n }

  lemma {:induction false} TidyFlow(ss: Stmts, n: nat, open: set<int>, e: Exit)
    requires Scoped(ss, n) && Tidy(ss, n) && Active(open, n)
    ensures Flow(ss, n, open, e) <= open + Caught(ss, n) && forall i :: !Stale(ss, n, open, i)
    ensures !e.Ended? && Flow(ss, n, open, e) != {} ==> Leaves(ss)
    decreases ss
  {
    match ss
    case Done =>
    case Declare(rest) => TidyFlow(rest, n + 1, open, e);
    case Then(s, more) =>
      TidyFlowBy(s, n, open, e);
      TidyFlowBy(s, n, open, Ended);
      TidyFlow(more, n, FlowBy(s, n, open, Ended), e);
  }

  lemma {:induction false} TidyFlowBy(s: Stmt, n: nat, open: set<int>, e: Exit)
    requires ScopedIn(s, n) && TidyIn(s, n) && Active(open, n)
    ensures FlowBy(s, n, open, e) <= open + CaughtBy(s, n) && Active(FlowBy(s, n, open, e), n)
    ensures forall i :: !StaleIn(s, n, open, i)
    ensures !e.Ended? && FlowBy(s, n, open, e) != {} ==> LeavesFrom(s)
    decreases s
  {
    match s
    case Block(body) => TidyFlow(body, n, open, e);
    case Choice(yes, no) =>
      TidyFlowBy(yes, n, open, e);
      TidyFlowBy(no, n, open, e);
    case While(loop) =>
      TidyFlowBy(loop, n, open, Ended);
      TidyFlowBy(loop, n, open, Continued);
      TidyFlowBy(loop, n, Head(loop, n, open), Broken);
    case _ =>
  }

  /** Functions where no break or continue leaves a block with captured locals meet the condition. */
  lemma TidyIsGood(f: Function)
    requires Scoped(f.body, f.arity) && Tidy(f.body, f.arity)
    ensures Good(f)
  {
    TidyFlow(f.body, f.arity, {START}, Ended);
  }

  // ----- a break or continue that leaves a captured local behind -----

  /** `{ var x; fun h() { return x; } … }` where n locals are active, so that x is local n + 1 and h
      is local n + 2: the block is left. */
  function LeftBody(n: nat, exit: Stmt): Stmts { Declare(Declare(Then(Capture(n + 1), Then(exit, Done)))) }

  lemma BodyLeft(p: seq<Function>, base: int, n: nat, exit: Stmt, st: State, fuel: nat)
    requires exit.Break? || exit.Continue?
    ensures Closes(LeftBody(n, exit), n)
    ensures FlowBy(Block(LeftBody(n, exit)), n, {START}, if exit.Break? then Broken else Continued) == {START, n + 1}
    ensures ExecOne(p, Block(LeftBody(n, exit)), base, n, st, fuel)
        == (if exit.Break? then Broken else Continued,
            State(st.open + {base + n}, st.bits, st.log + Declared(base + n, st.open)))
  {
    var last, inner := Then(exit, Done), Then(Capture(n + 1), Then(exit, Done));
    var rest := Declare(inner);
    assert LeftBody(n, exit) == Declare(rest) && last.Then?;
    assert Caught(inner, n + 2) == CaughtBy(Capture(n + 1), n + 2) + Caught(last, n + 2);
    assert n + 1 in Caught(rest, n + 1) && n + 1 in Caught(LeftBody(n, exit), n);
    var e := if exit.Break? then Broken else Continued;
    assert Flow(last, n + 2, {START, n + 1}, e) == {START, n + 1};
    assert FlowBy(Capture(n + 1), n + 2, {START}, Ended) == {START, n + 1};
    assert Flow(inner, n + 2, {START}, e) == {START, n + 1};
    assert Flow(rest, n + 1, {START}, e) == {START, n + 1};
    assert Flow(LeftBody(n, exit), n, {START}, e) == {START, n + 1};
    var st1 := Logged(Logged(st, Event(base + n, base + n, st.open)), Event(base + n + 1, base + n + 1, st.open));
    assert st1.log == st.log + Declared(base + n, st.open);
    var st2 := st1.(open := st1.open + {base + n});
    assert Exec(p, last, base, n + 2, st2, fuel) == (e, st2);
    assert ExecOne(p, Capture(n + 1), base, n + 2, st1, fuel) == (Ended, st2);
    assert Exec(p, inner, base, n + 2, st1, fuel) == (e, st2);
    assert Exec(p, rest, base, n + 1, Logged(st, Event(base + n, base + n, st.open)), fuel) == (e, st2);
    assert Exec(p, LeftBody(n, exit), base, n, st, fuel) == (e, st2);
  }

  /** Two declarations in a row. */
  function Declared(slot: int, open: set<int>): seq<Event> {
    [Event(slot, slot, open), Event(slot + 1, slot + 1, open)]
  }

  lemma LeftStale(loop: Stmt, n: nat)
    requires loop == While(Block(LeftBody(n, Break)))
    ensures n + 1 in FlowBy(loop, n, {START}, Ended)
  {
    var block := Block(LeftBody(n, Break));
    BodyLeft([], 0, n, Break, State({}, [], []), 0);
    var head := Head(block, n, {START});
    FlowElementBy(block, n, {START}, head, Broken, n + 1);
  }

  lemma ContinueStale(loop: Stmt, n: nat)
    requires loop == While(Block(LeftBody(n, Continue)))
    ensures StaleIn(loop, n, {START}, n + 1)
  {
    var block := Block(LeftBody(n, Continue));
    BodyLeft([], 0, n, Continue, State({}, [], []), 0);
    var head := Head(block, n, {START});
    assert n + 1 in head;
    assert Stale(LeftBody(n, Continue), n, head, n + 1);
  }

  /** `while(c) { var x; fun h() { return x; } break; } k();` with the call in the first register
      above the n locals. Whatever has run before: the slot of x is still open, and the call puts
      the header of its frame there. */
  lemma BreakFails(p: seq<Function>, base: int, n: nat, st: State, fuel: nat, loop: Stmt, k: Stmts)
    requires Bit(st) && fuel >= 1 && loop == While(Block(LeftBody(n, Break))) && k == Then(Call(|p|, 0), Done)
    ensures !Good(Function(n, Then(loop, k)))
    ensures var log := Exec(p, Then(loop, k), base, n, st, fuel).1.log;
      log != [] && log[|log| - 1] == Event(base + n, base + n, st.open + {base + n})
  {
    BodyLeft(p, base, n, Break, Tossed(st), fuel - 1);
    LeftStale(loop, n);
    assert Stale(Function(n, Then(loop, k)).body, n, {START}, n + 1);
    var st1 := ExecOne(p, loop, base, n, st, fuel).1;
    assert st1.open == st.open + {base + n};
    var call := ExecOne(p, Call(|p|, 0), base, n, st1, fuel);
    assert call == (Ended, Logged(st1, Event(base + n, base + n, st1.open)));
    assert Exec(p, Done, base, n, call.1, fuel) == call;
    assert Exec(p, k, base, n, st1, fuel) == call;
  }

  /** `while(c) { var x; fun h() { return x; } continue; }`: in the second turn the new x gets the
      slot that the upvalue of the first turn still points at. */
  lemma ContinueFails(p: seq<Function>, base: int, n: nat, st: State, fuel: nat, loop: Stmt)
    requires |st.bits| == 3 && st.bits[0] && st.bits[1] && !st.bits[2]
    requires fuel >= 2 && loop == While(Block(LeftBody(n, Continue)))
    ensures StaleIn(loop, n, {START}, n + 1)
    ensures var log := ExecOne(p, loop, base, n, st, fuel).1.log;
      |log| >= 2 && log[|log| - 2] == Event(base + n, base + n, st.open + {base + n})
  {
    BodyLeft(p, base, n, Continue, Tossed(st), fuel - 1);
    ContinueStale(loop, n);
    var st1 := ExecOne(p, Block(LeftBody(n, Continue)), base, n, Tossed(st), fuel - 1).1;
    BodyLeft(p, base, n, Continue, Tossed(st1), fuel - 2);
    var st2 := ExecOne(p, Block(LeftBody(n, Continue)), base, n, Tossed(st1), fuel - 2).1;
    assert ExecOne(p, loop, base, n, st2, fuel - 2) == (Ended, Tossed(st2));
    assert ExecOne(p, loop, base, n, st1, fuel - 1) == (Ended, Tossed(st2));
  }

  /** The header is not free then. */
  lemma HeaderTaken(e: Event, slots: seq<nat>)
    requires e.header in e.open && forall a | a in e.open :: a in slots
    ensures !Stack.HeaderFree(slots, e.header + 2)
  {
  }
}
