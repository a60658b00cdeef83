/**
 Exactness of definite assignment: every report has a real run that reads the variable before its
 assignment, when the body has no unreachable statements.
 */
module InitExact {
  import opened IronCore
  import opened Options
  import opened InitCheck
  import opened InitSound
  import opened Programs

  // ---------------------------------------------------------------- has_return is exact

  lemma {:induction false} FlagStmt(s: Stmt, st: State)
    requires Live(s) && !st.hasReturn
    ensures WalkStmt(s, st).hasReturn == Exits(s)
    decreases s
  {
    match s
    case Block(ss) => FlagAll(ss, st);
    case If(c, b, rest) =>
      var st1 := Use(c, st);
      if HasElse(rest) {
        FlagBranch(Leaf, b, st1.done, Merge(st1, None));
        FlagArms(rest, st1.done, WalkBranch(Leaf, b, st1.done, Merge(st1, None)));
      }
    case Match(e, cases) =>
      var st1 := Use(e, st);
      if HasElse(cases) { FlagArms(cases, st1.done, Merge(st1, None)); }
    case _ =>
  }

  lemma {:induction false} FlagAll(ss: Stmts, st: State)
    requires LiveAll(ss) && !st.hasReturn
    ensures WalkAll(ss, st).hasReturn == ExitsAll(ss)
    decreases ss, 0
  {
    if ss.SCons? {
      FlagStmt(ss.head, st);
      if ss.tail.SCons? { FlagAll(ss.tail, WalkStmt(ss.head, st)); }
    }
  }

  lemma {:induction false} FlagBranch(c: Expr, b: Stmts, before: set<string>, m: Merge)
    requires LiveAll(b)
    ensures WalkBranch(c, b, before, m).common.None? <==> m.common.None? && ExitsAll(b)
    decreases b, 1
  {
    FlagAll(b, Use(c, m.st.(done := before)).(hasReturn := false));
  }

  lemma {:induction false} FlagArms(arms: Arms, before: set<string>, m: Merge)
    requires LiveArms(arms) && HasElse(arms)
    ensures WalkArms(arms, before, m).common.None? <==> m.common.None? && ExitsArms(arms)
    decreases arms
  {
    match arms
    case Else(b) => FlagBranch(Leaf, b, before, m);
    case Arm(c, _, b, rest) =>
      FlagBranch(c, b, before, m);
      FlagArms(rest, before, WalkBranch(c, b, before, m));
  }

  /** The flag is only read where it was just reset, so the value it starts with does not matter. */
  lemma {:induction false} FlagBlind(s: Stmt, st: State)
    ensures WalkStmt(s, st.(hasReturn := false)).(hasReturn := false) == WalkStmt(s, st).(hasReturn := false)
    decreases s
  {
    match s
    case Block(ss) => FlagBlindAll(ss, st);
    case Match(e, cases) =>
      var st1, st1' := Use(e, st), Use(e, st.(hasReturn := false));
      if HasElse(cases) && cases.Arm? {
        assert WalkBranch(cases.cond, cases.body, st.done, Merge(st1, None))
            == WalkBranch(cases.cond, cases.body, st.done, Merge(st1', None));
      } else {
        FlagBlindLoose(cases, st.done, st1, st1');
      }
    case _ =>
  }

  lemma {:induction false} FlagBlindAll(ss: Stmts, st: State)
    ensures WalkAll(ss, st.(hasReturn := false)).(hasReturn := false) == WalkAll(ss, st).(hasReturn := false)
    decreases ss
  {
    if ss.SCons? {
      FlagBlind(ss.head, st);
      FlagBlindAll(ss.tail, WalkStmt(ss.head, st));
      FlagBlindAll(ss.tail, WalkStmt(ss.head, st.(hasReturn := false)));
    }
  }

  lemma {:induction false} FlagBlindLoose(arms: Arms, before: set<string>, st: State, st': State)
    requires st.(hasReturn := false) == st'.(hasReturn := false)
    ensures WalkLoose(arms, before, st) == WalkLoose(arms, before, st')
    decreases arms
  {
    match arms
    case NoElse =>
    case Else(b) =>
      FlagBlindAll(b, st.(done := before));
      FlagBlindAll(b, st'.(done := before));
    case Arm(c, _, b, rest) =>
      var st1, st1' := Use(c, st.(done := before)), Use(c, st'.(done := before));
      FlagBlindAll(b, st1);
      FlagBlindAll(b, st1');
      FlagBlindLoose(rest, before, WalkAll(b, st1), WalkAll(b, st1'));
  }

  // ---------------------------------------------------------------- skipping arms

  /** Without an else, every arm may be skipped. */
  lemma {:induction false} SkipArms(arms: Arms) returns (t: Trace)
    requires !HasElse(arms)
    ensures ExecArms(arms, t, Normal) && Quiet(t)
    decreases arms
  {
    match arms
    case NoElse => t := [];
    case Arm(c, _, _, rest) =>
      var t0 := SomeEval(c);
      EvalQuiet(c, t0);
      var t1 := SkipArms(rest);
      t := t0 + t1;
  }

  // ---------------------------------------------------------------- a run that leaves the name blank

  /** If `x` is unset after the statement, some run completes it with the binding still blank. */
  lemma {:induction false} Reach(x: string, env: Env, s: Stmt, st: State) returns (t: Trace)
    requires Live(s) && !Exits(s) && Binders(s, x) == 0 && env.Scope? && !st.hasReturn && x in st.tracked
    requires Lookup(env) == Blank && Unset(WalkStmt(s, st).tracked, WalkStmt(s, st).done, x)
    ensures Exec(s, t, Normal) && Lookup(Steps(x, env, t)) == Blank
    decreases s, 1
  {
    match s
    case Decl(y, _) => t := ReachSimple(x, env, s);
    case Spawn(_) => t := ReachSimple(x, env, s);
    case ExprStmt(_) => t := ReachSimple(x, env, s);
    case Assign(target, compound, v) =>
      var t0 := SomeEval(v);
      EvalSteps(x, env, v, t0);
      var t1 := SomeStore(target, compound);
      StepsConcat(x, env, t0, t1);
      if target.Ident? {
        var pre := if compound then [Read(target.name, target.site)] else [];
        StepsLast(x, env, pre, Write(target.name));
        QuietSteps(x, env, pre);
      } else {
        EvalSteps(x, env, target, t1);
      }
      t := t0 + t1;
    case Block(ss) => t := ReachBlock(x, env, ss, st);
    case If(c, b, rest) =>
      var t0 := SomeEval(c);
      EvalSteps(x, env, c, t0);
      var t1 := ReachBranches(x, env, s, Use(c, st));
      StepsConcat(x, env, t0, t1);
      t := t0 + t1;
    case While(c, b) =>
      var t0 := SomeEval(c);
      EvalSteps(x, env, c, t0);
      assert WhileRest(c, b, 0, [], Normal);
      t := t0 + [];
      assert t == t0;
      assert ExecWhile(c, b, 0, t, Normal);
    case For(y, e, b) =>
      var t0 := SomeEval(e);
      EvalSteps(x, env, e, t0);
      assert ExecFor(y, b, 0, [], Normal);
      t := t0 + [];
      assert t == t0;
    case Match(e, cases) =>
      var t0 := SomeEval(e);
      EvalSteps(x, env, e, t0);
      var st1 := Use(e, st);
      var t1;
      if HasElse(cases) {
        FlagArms(cases, st1.done, Merge(st1, None));
        t1 := ReachArms(x, env, cases, st1.done, Merge(st1, None));
      } else {
        t1 := SkipArms(cases);
        QuietSteps(x, env, t1);
      }
      StepsConcat(x, env, t0, t1);
      t := t0 + t1;
  }

  lemma ReachSimple(x: string, env: Env, s: Stmt) returns (t: Trace)
    requires s.Decl? || s.Spawn? || s.ExprStmt?
    requires Binders(s, x) == 0
    ensures Exec(s, t, Normal) && Steps(x, env, t) == env
  {
    var o;
    t, o := SomeRun(s);
    match s
    case Decl(y, Value(e)) =>
      var t0 :| Eval(e, t0) && t == t0 + [Bind({y})];
      EvalSteps(x, env, e, t0);
      StepsLast(x, env, t0, Bind({y}));
    case Decl(y, NoInit) => StepsLast(x, env, [], Declare(y)); assert [] + [Declare(y)] == t;
    case Decl(y, Zeroed) => StepsLast(x, env, [], Bind({y})); assert [] + [Bind({y})] == t;
    case Spawn(h) => StepsLast(x, env, [], Bind({h})); assert [] + [Bind({h})] == t;
    case ExprStmt(e) => EvalSteps(x, env, e, t);
  }

  /** Unset later means unset now: flags only grow. */
  lemma UnsetBefore(x: string, st: State, st': State)
    requires Extends(st, st') && Grows(st, st') && x in st.tracked && Unset(st'.tracked, st'.done, x)
    ensures Unset(st.tracked, st.done, x)
  {
  }

  lemma {:induction false} ReachAll(x: string, env: Env, ss: Stmts, st: State) returns (t: Trace)
    requires LiveAll(ss) && !ExitsAll(ss) && BindersAll(ss, x) == 0 && env.Scope? && !st.hasReturn && x in st.tracked
    requires Lookup(env) == Blank && Unset(WalkAll(ss, st).tracked, WalkAll(ss, st).done, x)
    ensures ExecAll(ss, t, Normal) && Lookup(Steps(x, env, t)) == Blank
    decreases ss, 0
  {
    if ss.SNil? {
      t := [];
    } else {
      var st1 := WalkStmt(ss.head, st);
      UnsetBefore(x, st1, WalkAll(ss.tail, st1));
      FlagStmt(ss.head, st);
      var t0 := Reach(x, env, ss.head, st);
      Grow(x, env, ss.head, t0, Normal);
      var t1 := ReachAll(x, Steps(x, env, t0), ss.tail, st1);
      StepsConcat(x, env, t0, t1);
      t := t0 + t1;
    }
  }

  lemma {:induction false} ReachBlock(x: string, env: Env, ss: Stmts, st: State) returns (t: Trace)
    requires LiveAll(ss) && !ExitsAll(ss) && BindersAll(ss, x) == 0 && !st.hasReturn && x in st.tracked
    requires Lookup(env) == Blank && Unset(WalkAll(ss, st).tracked, WalkAll(ss, st).done, x)
    ensures ExecBlock(ss, t, Normal) && Lookup(Steps(x, env, t)) == Blank
    decreases ss, 1
  {
    var inner := Scope(Unbound, env);
    var t0 := ReachAll(x, inner, ss, st);
    GrowAll(x, inner, ss, t0, Normal);
    StepsBlock(x, env, t0);
    t := [Enter] + t0 + [Exit];
  }

  lemma {:induction false} ReachScoped(x: string, env: Env, names: set<string>, ss: Stmts, st: State) returns (t: Trace)
    requires LiveAll(ss) && !ExitsAll(ss) && BindersAll(ss, x) == 0 && !st.hasReturn && x in st.tracked && x !in names
    requires Lookup(env) == Blank && Unset(WalkAll(ss, st).tracked, WalkAll(ss, st).done, x)
    ensures ExecScoped(names, ss, t, Normal) && Lookup(Steps(x, env, t)) == Blank
    decreases ss, 2
  {
    var inner := ScopeOf(x, names, env);
    var t0 := ReachBlock(x, inner, ss, st);
    GrowBlock(x, inner, ss, t0, Normal);
    StepsScoped(x, env, names, t0);
    t := [Enter, Bind(names)] + t0 + [Exit];
  }

  /** The branches walked so far already show what the whole merge shows about `x`. */
  ghost predicate Settled(x: string, m: Merge, r: Merge) {
    m.common.Some? && r.common.Some?
    && (Unset(r.st.tracked, r.common.value, x) ==> Unset(m.st.tracked, m.common.value, x))
  }

  /** A branch that settles the merge completes with `x` unset if the merge leaves it unset. */
  lemma SettlingBranch(x: string, c: Expr, b: Stmts, before: set<string>, m: Merge, r: Merge)
    requires var m1 := WalkBranch(c, b, before, m); Settled(x, m1, r) && Extends(m1.st, r.st) && Narrows(m1.common, r.common)
    requires !Settled(x, m, r) && x in m.st.tracked && LiveAll(b)
    requires Unset(r.st.tracked, r.common.value, x)
    ensures var st := WalkAll(b, Use(c, m.st.(done := before)).(hasReturn := false));
            !ExitsAll(b) && Unset(st.tracked, st.done, x)
  {
    var st0 := Use(c, m.st.(done := before)).(hasReturn := false);
    var st := WalkAll(b, st0);
    FlagAll(b, st0);
  }

  lemma {:induction false} ReachArms(x: string, env: Env, arms: Arms, before: set<string>, m: Merge) returns (t: Trace)
    requires LiveArms(arms) && HasElse(arms) && BindersArms(arms, x) == 0 && x in m.st.tracked
    requires Lookup(env) == Blank
    requires var r := WalkArms(arms, before, m);
             r.common.Some? && Unset(r.st.tracked, r.common.value, x) && !Settled(x, m, r)
    ensures ExecArms(arms, t, Normal) && Lookup(Steps(x, env, t)) == Blank
    decreases arms
  {
    var r := WalkArms(arms, before, m);
    match arms
    case Else(b) =>
      SettlingBranch(x, Leaf, b, before, m, r);
      t := ReachBlock(x, env, b, Use(Leaf, m.st.(done := before)).(hasReturn := false));
    case Arm(c, names, b, rest) =>
      var t0 := SomeEval(c);
      EvalSteps(x, env, c, t0);
      var m1 := WalkBranch(c, b, before, m);
      var t1;
      if Settled(x, m1, r) {
        SettlingBranch(x, c, b, before, m, r);
        t1 := ReachScoped(x, env, names, b, Use(c, m.st.(done := before)).(hasReturn := false));
      } else {
        t1 := ReachArms(x, env, rest, before, m1);
      }
      StepsConcat(x, env, t0, t1);
      t := t0 + t1;
  }

  lemma {:induction false} ReachBranches(x: string, env: Env, s: Stmt, st: State) returns (t: Trace)
    requires s.If? && Live(s) && !Exits(s) && Binders(s, x) == 0 && x in st.tracked
    requires Lookup(env) == Blank
    requires var r := WalkArms(s.rest, st.done, WalkBranch(Leaf, s.body, st.done, Merge(st, None)));
             HasElse(s.rest) ==> Unset(Finish(st.done, r).tracked, Finish(st.done, r).done, x)
    ensures (ExecBlock(s.body, t, Normal) || ExecArms(s.rest, t, Normal)) && Lookup(Steps(x, env, t)) == Blank
    decreases s, 0
  {
    var If(_, b, rest) := s;
    if !HasElse(rest) {
      t := SkipArms(rest);
      QuietSteps(x, env, t);
    } else {
      var m := Merge(st, None);
      var m1 := WalkBranch(Leaf, b, st.done, m);
      var r := WalkArms(rest, st.done, m1);
      FlagBranch(Leaf, b, st.done, m);
      FlagArms(rest, st.done, m1);
      assert Unset(r.st.tracked, r.common.value, x);
      if Settled(x, m1, r) {
        SettlingBranch(x, Leaf, b, st.done, m, r);
        t := ReachBlock(x, env, b, Use(Leaf, st.(done := st.done)).(hasReturn := false));
      } else {
        t := ReachArms(x, env, rest, st.done, m1);
      }
    }
  }

  // ---------------------------------------------------------------- a run for every report

  lemma {:induction false} WitnessExpr(x: string, e: Expr, n: nat, tracked: set<string>, done: set<string>) returns (t: Trace, i: nat)
    requires Report(x, n) in UseReports(e, tracked, done)
    ensures Eval(e, t) && i < |t| && t[i] == Read(x, n) && Unset(tracked, done, x)
    ensures Mentioned(EventsE(e), x)
    decreases e
  {
    match e
    case Ident(_, _) =>
      t, i := [Read(x, n)], 0;
      assert About(Read(x, n), x) && Read(x, n) in EventsE(e);
    case Await(h, k) =>
      var t0;
      t0, i := WitnessExpr(x, h, n, tracked, done);
      t := t0 + (if h.Ident? then [Awaited(h.name, k)] else []);
    case Logical(l, r) =>
      if Report(x, n) in UseReports(l, tracked, done) {
        t, i := WitnessExpr(x, l, n, tracked, done);
      } else {
        var t0 := SomeEval(l);
        var t1;
        t1, i := WitnessExpr(x, r, n, tracked, done);
        t, i := t0 + t1, |t0| + i;
      }
    case Compound(_, es) => t, i := WitnessExprs(x, es, n, tracked, done);
  }

  lemma {:induction false} WitnessExprs(x: string, es: Exprs, n: nat, tracked: set<string>, done: set<string>) returns (t: Trace, i: nat)
    requires Report(x, n) in UseReportsAll(es, tracked, done)
    ensures EvalAll(es, t) && i < |t| && t[i] == Read(x, n) && Unset(tracked, done, x)
    ensures Mentioned(EventsEs(es), x)
    decreases es
  {
    var ECons(e, rest) := es;
    if Report(x, n) in UseReports(e, tracked, done) {
      var t0;
      t0, i := WitnessExpr(x, e, n, tracked, done);
      var t1 := SomeEvalAll(rest);
      t := t0 + t1;
    } else {
      var t0 := SomeEval(e);
      var t1;
      t1, i := WitnessExprs(x, rest, n, tracked, done);
      t, i := t0 + t1, |t0| + i;
    }
  }

  /** Where `x` is in scope, unset in the analysis means blank in the run at hand. */
  ghost predicate Mirrors(x: string, env: Env, tracked: set<string>, done: set<string>, live: bool) {
    live ==> x in tracked && (Unset(tracked, done, x) ==> Lookup(env) == Blank)
  }

  /** A read of a blank binding while evaluating `e`; `x` must be in scope. */
  lemma WitnessUse(x: string, env: Env, e: Expr, n: nat, tracked: set<string>, done: set<string>, live: bool) returns (t: Trace)
    requires Report(x, n) in UseReports(e, tracked, done) && Mirrors(x, env, tracked, done, live)
    requires live || !Mentioned(EventsE(e), x)
    ensures Eval(e, t) && Steps(x, env, t) == env && n in EarlyReads(x, env, t)
  {
    var i;
    t, i := WitnessExpr(x, e, n, tracked, done);
    EvalQuiet(e, t);
    QuietSteps(x, env, t);
    assert t[i].Read? && t[i].name == x && t[i].site == n;
  }

  /** What a walk must meet so that its reports about `x` have runs. */
  ghost predicate Fair(x: string, binders: nat, scoped: bool, live: bool) {
    if live then binders == 0 else binders <= 1 && scoped
  }

  lemma {:induction false} Witness(x: string, env: Env, s: Stmt, st: State, n: nat, live: bool) returns (t: Trace, o: Outcome)
    requires Live(s) && env.Scope? && !st.hasReturn && Mirrors(x, env, st.tracked, st.done, live)
    requires Fair(x, Binders(s, x), Scoped(s, x), live)
    requires Report(x, n) in WalkStmt(s, st).reports && Report(x, n) !in st.reports && !WalkStmt(s, st).capNoted
    ensures Exec(s, t, o) && n in EarlyReads(x, env, t)
    decreases s, 1
  {
    match s
    case Block(ss) => t, o := WitnessBlock(x, env, ss, st, n, live);
    case If(c, b, rest) =>
      if Report(x, n) in UseReports(c, st.tracked, st.done) {
        var t0 := WitnessUse(x, env, c, n, st.tracked, st.done, live);
        var t1;
        if ExitsAll(b) { t1, o := SomeArmsRun(rest); } else { t1, o := SomeBlockRun(b); }
        StepsConcat(x, env, t0, t1);
        t := t0 + t1;
      } else {
        var t0 := SomeEval(c);
        EvalSteps(x, env, c, t0);
        var t1;
        t1, o := WitnessIf(x, env, s, Use(c, st), n, live);
        StepsConcat(x, env, t0, t1);
        t := t0 + t1;
      }
    case While(_, _) => t, o := WitnessWhile(x, env, s, st, n, live);
    case For(_, _, _) => t, o := WitnessFor(x, env, s, st, n, live);
    case Match(e, cases) => t, o := WitnessMatch(x, env, s, st, n, live);
    case _ => t, o := WitnessSimple(x, env, s, st, n, live);
  }

  lemma WitnessSimple(x: string, env: Env, s: Stmt, st: State, n: nat, live: bool) returns (t: Trace, o: Outcome)
    requires Simple(s) && Mirrors(x, env, st.tracked, st.done, live)
    requires Fair(x, Binders(s, x), Scoped(s, x), live)
    requires Report(x, n) in WalkStmt(s, st).reports && Report(x, n) !in st.reports
    ensures Exec(s, t, o) && n in EarlyReads(x, env, t)
  {
    o := Normal;
    match s
    case Decl(y, Value(e)) =>
      var t0 := WitnessUse(x, env, e, n, st.tracked, st.done, live);
      StepsLast(x, env, t0, Bind({y}));
      t := t0 + [Bind({y})];
    case Assign(target, compound, v) =>
      var t0 := WitnessUse(x, env, v, n, st.tracked, st.done, live);
      var t1 := SomeStore(target, compound);
      StepsConcat(x, env, t0, t1);
      t := t0 + t1;
    case Return(e) =>
      t := WitnessUse(x, env, e, n, st.tracked, st.done, live);
      o := Returned;
    case ExprStmt(e) => t := WitnessUse(x, env, e, n, st.tracked, st.done, live);
  }

  lemma {:induction false} WitnessAll(x: string, env: Env, ss: Stmts, st: State, n: nat, live: bool) returns (t: Trace, o: Outcome)
    requires LiveAll(ss) && env.Scope? && !st.hasReturn && Mirrors(x, env, st.tracked, st.done, live)
    requires Fair(x, BindersAll(ss, x), ScopedAll(ss, x), live)
    requires Report(x, n) in WalkAll(ss, st).reports && Report(x, n) !in st.reports && !WalkAll(ss, st).capNoted
    ensures ExecAll(ss, t, o) && n in EarlyReads(x, env, t)
    decreases ss, 0
  {
    var SCons(s, rest) := ss;
    var st1 := WalkStmt(s, st);
    if Report(x, n) in st1.reports {
      t, o := Witness(x, env, s, st, n, live);
      if o == Normal {
        var t1, o1 := SomeAllRun(rest);
        StepsConcat(x, env, t, t1);
        t, o := t + t1, o1;
      }
    } else {
      FlagStmt(s, st);
      assert BindersAll(ss, x) == Binders(s, x) + BindersAll(rest, x);
      var t0 := AdvancePast(x, env, s, st, live);
      Grow(x, env, s, t0, Normal);
      var t1;
      t1, o := WitnessAll(x, Steps(x, env, t0), rest, st1, n, live || s == Decl(x, NoInit));
      StepsConcat(x, env, t0, t1);
      t := t0 + t1;
    }
  }

  /** A run past a statement that keeps the mirror. */
  lemma AdvancePast(x: string, env: Env, s: Stmt, st: State, live: bool) returns (t: Trace)
    requires Live(s) && !Exits(s) && env.Scope? && !st.hasReturn && Mirrors(x, env, st.tracked, st.done, live)
    requires live ==> Binders(s, x) == 0
    requires !WalkStmt(s, st).capNoted
    ensures Exec(s, t, Normal)
    ensures Mirrors(x, Steps(x, env, t), WalkStmt(s, st).tracked, WalkStmt(s, st).done, live || s == Decl(x, NoInit))
  {
    var st1 := WalkStmt(s, st);
    if s == Decl(x, NoInit) {
      t := [Declare(x)];
      StepsLast(x, env, [], Declare(x));
      assert [] + [Declare(x)] == t;
    } else if live && Unset(st1.tracked, st1.done, x) {
      UnsetBefore(x, st, st1);
      t := Reach(x, env, s, st);
    } else {
      var o;
      t, o := SomeRun(s);
    }
  }

  lemma {:induction false} WitnessBlock(x: string, env: Env, ss: Stmts, st: State, n: nat, live: bool) returns (t: Trace, o: Outcome)
    requires LiveAll(ss) && !st.hasReturn && Mirrors(x, env, st.tracked, st.done, live)
    requires Fair(x, BindersAll(ss, x), ScopedAll(ss, x), live)
    requires Report(x, n) in WalkAll(ss, st).reports && Report(x, n) !in st.reports && !WalkAll(ss, st).capNoted
    ensures ExecBlock(ss, t, o) && n in EarlyReads(x, env, t)
    decreases ss, 1
  {
    var inner := Scope(Unbound, env);
    var t0;
    t0, o := WitnessAll(x, inner, ss, st, n, live);
    GrowAll(x, inner, ss, t0, o);
    StepsBlock(x, env, t0);
    t := [Enter] + t0 + [Exit];
  }

  lemma {:induction false} WitnessScoped(x: string, env: Env, names: set<string>, ss: Stmts, st: State, n: nat, live: bool) returns (t: Trace, o: Outcome)
    requires LiveAll(ss) && !st.hasReturn && Mirrors(x, env, st.tracked, st.done, live) && x !in names
    requires Fair(x, BindersAll(ss, x), ScopedAll(ss, x), live)
    requires Report(x, n) in WalkAll(ss, st).reports && Report(x, n) !in st.reports && !WalkAll(ss, st).capNoted
    ensures ExecScoped(names, ss, t, o) && n in EarlyReads(x, env, t)
    decreases ss, 2
  {
    var inner := ScopeOf(x, names, env);
    var t0;
    t0, o := WitnessBlock(x, inner, ss, st, n, live);
    GrowBlock(x, inner, ss, t0, o);
    StepsScoped(x, env, names, t0);
    t := [Enter, Bind(names)] + t0 + [Exit];
  }

  lemma {:induction false} WitnessIf(x: string, env: Env, s: Stmt, st: State, n: nat, live: bool) returns (t: Trace, o: Outcome)
    requires s.If? && Live(s) && !st.hasReturn && Mirrors(x, env, st.tracked, st.done, live)
    requires Fair(x, Binders(s, x), Scoped(s, x), live)
    requires var m1 := WalkBranch(Leaf, s.body, st.done, Merge(st, None));
             var r := if HasElse(s.rest) then WalkArms(s.rest, st.done, m1).st else WalkAside(s.body, st);
             Report(x, n) in r.reports && Report(x, n) !in st.reports && !r.capNoted
    ensures (ExecBlock(s.body, t, o) || ExecArms(s.rest, t, o)) && n in EarlyReads(x, env, t)
    decreases s, 0
  {
    var If(_, b, rest) := s;
    var st0 := st.(hasReturn := false);
    var m1 := WalkBranch(Leaf, b, st.done, Merge(st, None));
    assert Use(Leaf, st.(done := st.done)).(hasReturn := false) == st0;
    if HasElse(rest) && Report(x, n) !in WalkAll(b, st0).reports {
      t, o := WitnessArms(x, env, rest, st.done, m1, n, live);
    } else {
      t, o := WitnessBlock(x, env, b, st0, n, live);
    }
  }

  lemma {:induction false} WitnessArms(x: string, env: Env, arms: Arms, before: set<string>, m: Merge, n: nat, live: bool) returns (t: Trace, o: Outcome)
    requires LiveArms(arms) && Mirrors(x, env, m.st.tracked, before, live)
    requires Fair(x, BindersArms(arms, x), ScopedArms(arms, x), live)
    requires Report(x, n) in WalkArms(arms, before, m).st.reports && Report(x, n) !in m.st.reports
    requires !WalkArms(arms, before, m).st.capNoted
    ensures ExecArms(arms, t, o) && n in EarlyReads(x, env, t)
    decreases arms
  {
    match arms
    case Else(b) =>
      t, o := WitnessBlock(x, env, b, Use(Leaf, m.st.(done := before)).(hasReturn := false), n, live);
    case Arm(c, names, b, rest) =>
      var st0 := Use(c, m.st.(done := before)).(hasReturn := false);
      var m1 := WalkBranch(c, b, before, m);
      if Report(x, n) in UseReports(c, m.st.tracked, before) {
        t, o := WitnessCond(x, env, arms, n, m.st.tracked, before, live);
      } else {
        var t0 := SomeEval(c);
        EvalSteps(x, env, c, t0);
        var t1;
        if Report(x, n) in m1.st.reports {
          t1, o := WitnessScoped(x, env, names, b, st0, n, live);
        } else {
          t1, o := WitnessArms(x, env, rest, before, m1, n, live);
        }
        StepsConcat(x, env, t0, t1);
        t := t0 + t1;
      }
  }

  /** The condition of the first arm reads `x` too early; the arm is then taken. */
  lemma WitnessCond(x: string, env: Env, arms: Arms, n: nat, tracked: set<string>, done: set<string>, live: bool) returns (t: Trace, o: Outcome)
    requires arms.Arm? && LiveArms(arms) && Mirrors(x, env, tracked, done, live)
    requires Fair(x, BindersArms(arms, x), ScopedArms(arms, x), live)
    requires Report(x, n) in UseReports(arms.cond, tracked, done)
    ensures ExecArms(arms, t, o) && n in EarlyReads(x, env, t)
  {
    var Arm(c, names, b, rest) := arms;
    var t0 := WitnessUse(x, env, c, n, tracked, done, live);
    var t1;
    t1, o := SomeScopedRun(names, b);
    StepsConcat(x, env, t0, t1);
    t := t0 + t1;
  }

  lemma {:induction false} WitnessLoose(x: string, env: Env, arms: Arms, before: set<string>, st: State, n: nat, live: bool) returns (t: Trace, o: Outcome)
    requires LiveArms(arms) && Mirrors(x, env, st.tracked, before, live) && !HasElse(arms)
    requires Fair(x, BindersArms(arms, x), ScopedArms(arms, x), live)
    requires Report(x, n) in WalkLoose(arms, before, st).reports && Report(x, n) !in st.reports
    requires !WalkLoose(arms, before, st).capNoted
    ensures ExecArms(arms, t, o) && n in EarlyReads(x, env, t)
    decreases arms
  {
    match arms
    case Arm(c, names, b, rest) =>
      var st0 := Use(c, st.(done := before));
      var st1 := WalkAll(b, st0);
      if Report(x, n) in UseReports(c, st.tracked, before) {
        t, o := WitnessCond(x, env, arms, n, st.tracked, before, live);
      } else {
        var t0 := SomeEval(c);
        EvalSteps(x, env, c, t0);
        var t1;
        if Report(x, n) in st1.reports {
          FlagBlindAll(b, st0);
          t1, o := WitnessScoped(x, env, names, b, st0.(hasReturn := false), n, live);
        } else {
          t1, o := WitnessLoose(x, env, rest, before, st1, n, live);
        }
        StepsConcat(x, env, t0, t1);
        t := t0 + t1;
      }
  }

  lemma {:induction false} WitnessMatch(x: string, env: Env, s: Stmt, st: State, n: nat, live: bool) returns (t: Trace, o: Outcome)
    requires s.Match? && Live(s) && !st.hasReturn && Mirrors(x, env, st.tracked, st.done, live)
    requires Fair(x, Binders(s, x), Scoped(s, x), live)
    requires Report(x, n) in WalkStmt(s, st).reports && Report(x, n) !in st.reports && !WalkStmt(s, st).capNoted
    ensures Exec(s, t, o) && n in EarlyReads(x, env, t)
    decreases s, 0
  {
    var Match(e, cases) := s;
    var t0, t1;
    if Report(x, n) in UseReports(e, st.tracked, st.done) {
      t0 := WitnessUse(x, env, e, n, st.tracked, st.done, live);
      t1, o := SomeArmsRun(cases);
    } else {
      var st1 := Use(e, st);
      t0 := SomeEval(e);
      EvalSteps(x, env, e, t0);
      if HasElse(cases) {
        t1, o := WitnessArms(x, env, cases, st1.done, Merge(st1, None), n, live);
      } else {
        t1, o := WitnessLoose(x, env, cases, st1.done, st1, n, live);
      }
    }
    StepsConcat(x, env, t0, t1);
    t := t0 + t1;
  }

  lemma {:induction false} WitnessWhile(x: string, env: Env, s: Stmt, st: State, n: nat, live: bool) returns (t: Trace, o: Outcome)
    requires s.While? && Live(s) && !st.hasReturn && Mirrors(x, env, st.tracked, st.done, live)
    requires Fair(x, Binders(s, x), Scoped(s, x), live)
    requires Report(x, n) in WalkStmt(s, st).reports && Report(x, n) !in st.reports && !WalkStmt(s, st).capNoted
    ensures Exec(s, t, o) && n in EarlyReads(x, env, t)
    decreases s, 0
  {
    var While(c, b) := s;
    assert WhileRest(c, b, 0, [], Normal);
    if Report(x, n) in UseReports(c, st.tracked, st.done) {
      t := WitnessUse(x, env, c, n, st.tracked, st.done, live);
      o := Normal;
      assert t + [] == t;
      assert ExecWhile(c, b, 0, t, Normal);
    } else {
      var t0 := SomeEval(c);
      EvalSteps(x, env, c, t0);
      var t1, o1 := WitnessBlock(x, env, b, Use(c, st).(hasReturn := false), n, live);
      assert t0 + [] == t0;
      assert ExecWhile(c, b, 0, t0, Normal);
      var t2 := if LoopsOn(o1) then t0 else [];
      o := if LoopsOn(o1) then Normal else LoopExit(o1);
      assert WhileNext(c, b, 0, o1, t2, o);
      assert WhileRest(c, b, 1, t1 + t2, o);
      StepsConcat(x, env, t1, t2);
      StepsConcat(x, env, t0, t1 + t2);
      t := t0 + (t1 + t2);
      assert ExecWhile(c, b, 1, t, o);
    }
  }

  lemma {:induction false} WitnessFor(x: string, env: Env, s: Stmt, st: State, n: nat, live: bool) returns (t: Trace, o: Outcome)
    requires s.For? && Live(s) && !st.hasReturn && Mirrors(x, env, st.tracked, st.done, live)
    requires Fair(x, Binders(s, x), Scoped(s, x), live)
    requires Report(x, n) in WalkStmt(s, st).reports && Report(x, n) !in st.reports && !WalkStmt(s, st).capNoted
    ensures Exec(s, t, o) && n in EarlyReads(x, env, t)
    decreases s, 0
  {
    var For(y, e, b) := s;
    assert ExecFor(y, b, 0, [], Normal);
    if Report(x, n) in UseReports(e, st.tracked, st.done) {
      t := WitnessUse(x, env, e, n, st.tracked, st.done, live);
      o := Normal;
      assert t + [] == t;
    } else {
      var t0 := SomeEval(e);
      EvalSteps(x, env, e, t0);
      var t1, o1 := WitnessScoped(x, env, {y}, b, Use(e, st).(hasReturn := false), n, live);
      o := if LoopsOn(o1) then Normal else LoopExit(o1);
      assert t1 == t1 + [] && ForNext(y, b, 0, o1, [], o);
      assert ExecFor(y, b, 1, t1, o);
      StepsConcat(x, env, t0, t1);
      t := t0 + t1;
    }
  }

  /** Definite assignment is exact: where the walk looks everywhere and nothing is unreachable, the
      reported reads of `x` are precisely those that happen too early in some run. */
  lemma DefiniteAssignmentExact(body: Stmts, x: string, n: nat)
    requires LiveAll(body) && ScopedAll(body, x) && SeenAll(body, x)
    requires BindersAll(body, x) <= 1 && UninitAll(body) <= 256
    ensures Report(x, n) in WalkAll(body, Start()).reports
       <==> exists t, o :: ExecBlock(body, t, o) && n in EarlyReads(x, Outside, t)
  {
    CapExact(body);
    if Report(x, n) in WalkAll(body, Start()).reports {
      var t, o := WitnessBlock(x, Outside, body, Start(), n, false);
      assert ExecBlock(body, t, o) && n in EarlyReads(x, Outside, t);
    }
    forall t, o | ExecBlock(body, t, o) && n in EarlyReads(x, Outside, t)
      ensures Report(x, n) in WalkAll(body, Start()).reports
    {
      DefiniteAssignmentSound(body, x, t, o);
    }
  }
}
