/** Runs of given programs: of small ones, for the counterexamples, of loops, and some run of any program. */
module Programs {
  import opened IronCore

  function One(a: Stmt): Stmts { SCons(a, SNil) }

  function Two(a: Stmt, b: Stmt): Stmts { SCons(a, SCons(b, SNil)) }

  /** `await x` */
  function AwaitAt(x: string, n: nat): Expr { Await(Ident(x, 0), n) }

  lemma RunOne(a: Stmt, t: Trace, o: Outcome)
    requires Exec(a, t, o)
    ensures ExecAll(One(a), t, o) && ExecBlock(One(a), [Enter] + t + [Exit], o)
  {
    assert t + [] == t;
    assert ExecAll(SNil, [], Normal);
    assert ExecAll(One(a), t, o);
  }

  lemma RunTwo(a: Stmt, ta: Trace, b: Stmt, tb: Trace, o: Outcome)
    requires Exec(a, ta, Normal) && Exec(b, tb, o)
    ensures ExecAll(Two(a, b), ta + tb, o) && ExecBlock(Two(a, b), [Enter] + (ta + tb) + [Exit], o)
  {
    RunOne(b, tb, o);
    assert ExecAll(Two(a, b), ta + tb, o);
  }

  lemma RunStopped(a: Stmt, rest: Stmts, t: Trace, o: Outcome)
    requires Exec(a, t, o) && o != Normal
    ensures ExecAll(SCons(a, rest), t, o) && ExecBlock(SCons(a, rest), [Enter] + t + [Exit], o)
  {
  }

  lemma RunIfTaken(body: Stmts, rest: Arms, t: Trace, o: Outcome)
    requires ExecBlock(body, t, o)
    ensures Exec(If(Leaf, body, rest), t, o)
  {
    assert Eval(Leaf, []) && [] + t == t;
  }

  /** A statement after which nothing runs. */
  lemma NothingAfter(ss: Stmts, t: Trace, o: Outcome)
    requires ExecAll(ss, t, o) && ss.SCons? && (ss.head.Return? || ss.head.Break? || ss.head.Continue?)
    ensures Exec(ss.head, t, o)
  {
  }

  /** The ways a statement list runs. */
  lemma SplitAll(s: Stmt, rest: Stmts, t: Trace, o: Outcome) returns (stopped: bool, t0: Trace, t1: Trace)
    requires ExecAll(SCons(s, rest), t, o)
    ensures if stopped then o != Normal && Exec(s, t, o) else Exec(s, t0, Normal) && ExecAll(rest, t1, o) && t == t0 + t1
  {
    stopped, t0, t1 := o != Normal && Exec(s, t, o), [], [];
    if !stopped {
      t0, t1 :| Exec(s, t0, Normal) && ExecAll(rest, t1, o) && t == t0 + t1;
    }
  }

  lemma SplitWhile(c: Expr, body: Stmts, t: Trace, o: Outcome) returns (n: nat, tc: Trace, tb: Trace, o0: Outcome, t1: Trace)
    requires Exec(While(c, body), t, o)
    ensures Eval(c, tc)
    ensures if n == 0 then o == Normal && t == tc else ExecBlock(body, tb, o0) && WhileNext(c, body, n - 1, o0, t1, o) && t == tc + (tb + t1)
  {
    n :| ExecWhile(c, body, n, t, o);
    var t2;
    tc, t2 :| Eval(c, tc) && WhileRest(c, body, n, t2, o) && t == tc + t2;
    tb, o0, t1 := SplitRest(c, body, n, t2, o);
  }

  lemma SplitRest(c: Expr, body: Stmts, n: nat, t: Trace, o: Outcome) returns (tb: Trace, o0: Outcome, t1: Trace)
    requires WhileRest(c, body, n, t, o)
    ensures if n == 0 then o == Normal && t == [] else ExecBlock(body, tb, o0) && WhileNext(c, body, n - 1, o0, t1, o) && t == tb + t1
  {
    tb, o0, t1 := [], Normal, [];
    if n > 0 {
      tb, o0, t1 :| ExecBlock(body, tb, o0) && WhileNext(c, body, n - 1, o0, t1, o) && t == tb + t1;
    }
  }

  /** One iteration, then what follows it. */
  lemma RunIteration(c: Expr, tc: Trace, body: Stmts, tb: Trace, o0: Outcome, n: nat, t1: Trace, o: Outcome)
    requires Eval(c, tc) && ExecBlock(body, tb, o0) && WhileNext(c, body, n, o0, t1, o)
    ensures ExecWhile(c, body, n + 1, tc + (tb + t1), o)
  {
    assert WhileRest(c, body, n + 1, tb + t1, o);
  }

  lemma RunNoIteration(c: Expr, tc: Trace, body: Stmts)
    requires Eval(c, tc)
    ensures ExecWhile(c, body, 0, tc, Normal)
  {
    assert tc + [] == tc && WhileRest(c, body, 0, [], Normal);
  }

  /** A while loop that runs its body once and leaves as the body did. */
  lemma RunWhileOnce(c: Expr, tc: Trace, body: Stmts, tb: Trace, o: Outcome)
    requires Eval(c, tc) && ExecBlock(body, tb, o) && !LoopsOn(o)
    ensures Exec(While(c, body), tc + tb, LoopExit(o))
  {
    assert WhileNext(c, body, 0, o, [], LoopExit(o));
    RunIteration(c, tc, body, tb, o, 0, [], LoopExit(o));
    assert tb + [] == tb;
    assert ExecWhile(c, body, 1, tc + tb, LoopExit(o));
  }

  /** A while loop that runs its body once and then stops. */
  lemma RunWhileTwice(c: Expr, tc: Trace, body: Stmts, tb: Trace)
    requires Eval(c, tc) && ExecBlock(body, tb, Normal)
    ensures Exec(While(c, body), tc + (tb + tc), Normal)
  {
    RunNoIteration(c, tc, body);
    assert WhileNext(c, body, 0, Normal, tc, Normal);
    RunIteration(c, tc, body, tb, Normal, 0, tc, Normal);
    assert ExecWhile(c, body, 1, tc + (tb + tc), Normal);
  }

  // ---- loops of either kind

  /** A for loop that is not entered. */
  lemma RunNoFor(x: string, e: Expr, b: Stmts, t: Trace)
    requires Eval(e, t)
    ensures Exec(For(x, e, b), t, Normal)
  {
    assert ExecFor(x, b, 0, [], Normal) && t + [] == t;
  }

  /** A for loop entered once and then left: by the body, or because the list is at its end. */
  lemma RunForOnce(x: string, b: Stmts, t: Trace, o: Outcome)
    requires ExecScoped({x}, b, t, o)
    ensures ExecFor(x, b, 1, t, if LoopsOn(o) then Normal else LoopExit(o))
  {
    var end := if LoopsOn(o) then Normal else LoopExit(o);
    assert ForNext(x, b, 0, o, [], end);
    assert t + [] == t;
  }

  /** One iteration and then `rest`. */
  lemma RunForMore(x: string, b: Stmts, t: Trace, o: Outcome, n: nat, rest: Trace, end: Outcome)
    requires ExecScoped({x}, b, t, o) && LoopsOn(o) && ExecFor(x, b, n, rest, end)
    ensures ExecFor(x, b, n + 1, t + rest, end)
  {
    assert ForNext(x, b, n, o, rest, end);
  }

  predicate Loop(s: Stmt) { s.While? || s.For? }

  /** The head of a loop: the condition of a while or the iterable of a for. */
  function HeadOf(s: Stmt): Expr
    requires Loop(s)
  {
    if s.While? then s.cond else s.iterable
  }

  /** One run of the body of a loop. */
  ghost predicate Turn(s: Stmt, t: Trace, o: Outcome)
    requires Loop(s)
  {
    if s.While? then ExecBlock(s.body, t, o) else ExecScoped({s.loopVar}, s.body, t, o)
  }

  /** A loop that enters its body `n` times; every round of a while begins with the condition. */
  ghost predicate Rounds(s: Stmt, n: nat, t: Trace, o: Outcome)
    requires Loop(s)
  {
    if s.While? then ExecWhile(s.cond, s.body, n, t, o) else ExecFor(s.loopVar, s.body, n, t, o)
  }

  /** What a round begins with, `head` being a run of the head of the loop. */
  function Begin(s: Stmt, head: Trace): Trace { if s.While? then head else [] }

  lemma NoRounds(s: Stmt, head: Trace)
    requires Loop(s) && Eval(HeadOf(s), head)
    ensures Rounds(s, 0, Begin(s, head), Normal)
  {
    if s.While? { RunNoIteration(s.cond, head, s.body); } else { assert ExecFor(s.loopVar, s.body, 0, [], Normal); }
  }

  lemma OneMoreRound(s: Stmt, head: Trace, t1: Trace, o1: Outcome, n: nat, t2: Trace, o: Outcome)
    requires Loop(s) && Eval(HeadOf(s), head) && Turn(s, t1, o1) && LoopsOn(o1) && Rounds(s, n, t2, o)
    ensures Rounds(s, n + 1, Begin(s, head) + (t1 + t2), o)
  {
    if s.While? {
      assert WhileNext(s.cond, s.body, n, o1, t2, o);
      RunIteration(s.cond, head, s.body, t1, o1, n, t2, o);
    } else {
      RunForMore(s.loopVar, s.body, t1, o1, n, t2, o);
      assert [] + (t1 + t2) == t1 + t2;
    }
  }

  lemma LastRound(s: Stmt, head: Trace, t: Trace, o: Outcome)
    requires Loop(s) && Eval(HeadOf(s), head) && Turn(s, t, o) && !LoopsOn(o)
    ensures Rounds(s, 1, Begin(s, head) + t, LoopExit(o))
  {
    if s.While? {
      assert WhileNext(s.cond, s.body, 0, o, [], LoopExit(o)) && t + [] == t;
      RunIteration(s.cond, head, s.body, t, o, 0, [], LoopExit(o));
    } else {
      RunForOnce(s.loopVar, s.body, t, o);
      assert [] + t == t;
    }
  }

  /** The head and the rounds make a run of the loop. */
  lemma WholeLoop(s: Stmt, head: Trace, n: nat, t: Trace, o: Outcome)
    requires Loop(s) && Eval(HeadOf(s), head) && Rounds(s, n, t, o)
    ensures Exec(s, if s.While? then t else head + t, o)
  {
  }

  // ---- everything can be run

  lemma {:induction false} SomeEval(e: Expr) returns (t: Trace)
    ensures Eval(e, t)
    decreases e
  {
    match e
    case Leaf => t := [];
    case Ident(x, n) => t := [Read(x, n)];
    case Await(h, n) =>
      var t0 := SomeEval(h);
      t := t0 + (if h.Ident? then [Awaited(h.name, n)] else []);
    case Logical(l, _) => t := SomeEval(l);
    case Compound(_, es) => t := SomeEvalAll(es);
  }

  lemma {:induction false} SomeEvalAll(es: Exprs) returns (t: Trace)
    ensures EvalAll(es, t)
    decreases es
  {
    match es
    case ENil => t := [];
    case ECons(e, rest) =>
      var t0 := SomeEval(e);
      var t1 := SomeEvalAll(rest);
      t := t0 + t1;
  }

  lemma SomeStore(target: Expr, compound: bool) returns (t: Trace)
    ensures StoreTo(target, compound, t)
  {
    if target.Ident? {
      t := (if compound then [Read(target.name, target.site)] else []) + [Write(target.name)];
    } else {
      t := SomeEval(target);
    }
  }

  /** Every statement has a complete run, and one that may complete has a run that does. */
  lemma {:induction false} SomeRun(s: Stmt) returns (t: Trace, o: Outcome)
    ensures Exec(s, t, o) && (o == Normal <==> !Exits(s))
    decreases s
  {
    o := Normal;
    match s
    case Decl(x, NoInit) => t := [Declare(x)];
    case Decl(x, Zeroed) => t := [Bind({x})];
    case Decl(x, Value(e)) =>
      var t0 := SomeEval(e);
      t := t0 + [Bind({x})];
    case Spawn(h) => t := [Bind({h})];
    case Assign(target, compound, v) =>
      var t0 := SomeEval(v);
      var t1 := SomeStore(target, compound);
      t := t0 + t1;
    case Return(e) =>
      t := SomeEval(e);
      o := Returned;
    case Break => t, o := [], Broke;
    case Continue => t, o := [], Continued;
    case ExprStmt(e) => t := SomeEval(e);
    case Block(ss) => t, o := SomeBlockRun(ss);
    case If(c, b, rest) =>
      var t0 := SomeEval(c);
      var t1;
      if ExitsAll(b) { t1, o := SomeArmsRun(rest); } else { t1, o := SomeBlockRun(b); }
      t := t0 + t1;
    case While(c, b) =>
      t := SomeEval(c);
      RunNoIteration(c, t, b);
    case For(x, e, b) =>
      t := SomeEval(e);
      RunNoFor(x, e, b, t);
    case Match(e, cases) =>
      var t0 := SomeEval(e);
      var t1;
      t1, o := SomeArmsRun(cases);
      t := t0 + t1;
  }

  lemma {:induction false} SomeAllRun(ss: Stmts) returns (t: Trace, o: Outcome)
    ensures ExecAll(ss, t, o) && (o == Normal <==> !ExitsAll(ss))
    decreases ss, 0
  {
    if ss.SNil? {
      t, o := [], Normal;
    } else {
      t, o := SomeRun(ss.head);
      if o == Normal {
        var t0 := t;
        var t1;
        t1, o := SomeAllRun(ss.tail);
        t := t0 + t1;
      }
    }
  }

  lemma {:induction false} SomeBlockRun(ss: Stmts) returns (t: Trace, o: Outcome)
    ensures ExecBlock(ss, t, o) && (o == Normal <==> !ExitsAll(ss))
    decreases ss, 1
  {
    var t0;
    t0, o := SomeAllRun(ss);
    t := [Enter] + t0 + [Exit];
  }

  lemma {:induction false} SomeScopedRun(names: set<string>, ss: Stmts) returns (t: Trace, o: Outcome)
    ensures ExecScoped(names, ss, t, o) && (o == Normal <==> !ExitsAll(ss))
    decreases ss, 2
  {
    var t0;
    t0, o := SomeBlockRun(ss);
    t := [Enter, Bind(names)] + t0 + [Exit];
  }

  lemma {:induction false} SomeArmsRun(arms: Arms) returns (t: Trace, o: Outcome)
    ensures ExecArms(arms, t, o) && (o == Normal <==> !(HasElse(arms) && ExitsArms(arms)))
    decreases arms
  {
    match arms
    case NoElse => t, o := [], Normal;
    case Else(b) => t, o := SomeBlockRun(b);
    case Arm(c, names, b, rest) =>
      var t0 := SomeEval(c);
      var t1;
      if ExitsAll(b) { t1, o := SomeArmsRun(rest); } else { t1, o := SomeScopedRun(names, b); }
      t := t0 + t1;
  }
}
