/**
 Soundness of definite assignment: a read that happens before the assignment in some run is
 reported, through any nesting of branches, matches, loops, returns, breaks and continues.
 */
module InitSound {
  import opened IronCore
  import opened Options
  import opened InitCheck

  // ---------------------------------------------------------------- traces

  lemma {:induction false} StepsConcat(x: string, env: Env, t0: Trace, t1: Trace)
    ensures Steps(x, env, t0 + t1) == Steps(x, Steps(x, env, t0), t1)
    ensures EarlyReads(x, env, t0 + t1) == EarlyReads(x, env, t0) + EarlyReads(x, Steps(x, env, t0), t1)
    decreases |t0|
  {
    if t0 == [] {
      assert t0 + t1 == t1;
    } else {
      assert (t0 + t1)[1..] == t0[1..] + t1;
      StepsConcat(x, Step(x, env, t0[0]), t0[1..], t1);
    }
  }

  /** The effect of one event in front of, and one behind, a trace. */
  lemma StepsFirst(x: string, env: Env, ev: Event, t: Trace)
    ensures Steps(x, env, [ev] + t) == Steps(x, Step(x, env, ev), t)
    ensures !ev.Read? ==> EarlyReads(x, env, [ev] + t) == EarlyReads(x, Step(x, env, ev), t)
  {
    assert ([ev] + t)[1..] == t;
  }

  lemma StepsLast(x: string, env: Env, t: Trace, ev: Event)
    ensures Steps(x, env, t + [ev]) == Step(x, Steps(x, env, t), ev)
    ensures !ev.Read? ==> EarlyReads(x, env, t + [ev]) == EarlyReads(x, env, t)
  {
    StepsConcat(x, env, t, [ev]);
    assert [ev][1..] == [];
  }

  /** A block is its contents run in a fresh scope. */
  lemma StepsBlock(x: string, env: Env, t: Trace)
    requires Steps(x, Scope(Unbound, env), t).Scope?
    ensures Steps(x, env, [Enter] + t + [Exit]) == Steps(x, Scope(Unbound, env), t).outer
    ensures EarlyReads(x, env, [Enter] + t + [Exit]) == EarlyReads(x, Scope(Unbound, env), t)
  {
    StepsLast(x, env, [Enter] + t, Exit);
    StepsFirst(x, env, Enter, t);
  }

  function ScopeOf(x: string, names: set<string>, env: Env): Env {
    Scope(if x in names then Filled else Unbound, env)
  }

  lemma StepsScoped(x: string, env: Env, names: set<string>, t: Trace)
    requires Steps(x, ScopeOf(x, names, env), t).Scope?
    ensures Steps(x, env, [Enter, Bind(names)] + t + [Exit]) == Steps(x, ScopeOf(x, names, env), t).outer
    ensures EarlyReads(x, env, [Enter, Bind(names)] + t + [Exit]) == EarlyReads(x, ScopeOf(x, names, env), t)
  {
    StepsLast(x, env, [Enter, Bind(names)] + t, Exit);
    assert [Enter, Bind(names)] + t == [Enter] + ([Bind(names)] + t);
    StepsFirst(x, env, Enter, [Bind(names)] + t);
    StepsFirst(x, Scope(Unbound, env), Bind(names), t);
  }

  /** Only reads and awaits: what evaluating an expression does. */
  ghost predicate Quiet(t: Trace) {
    forall i :: 0 <= i < |t| ==> t[i].Read? || t[i].Awaited?
  }

  lemma {:induction false} QuietSteps(x: string, env: Env, t: Trace)
    requires Quiet(t)
    ensures Steps(x, env, t) == env
    ensures EarlyReads(x, env, t) == if Lookup(env) == Blank then (set i | 0 <= i < |t| && t[i].Read? && t[i].name == x :: t[i].site) else {}
    decreases |t|
  {
    if t != [] {
      QuietSteps(x, env, t[1..]);
      var rest := set i | 0 <= i < |t[1..]| && t[1..][i].Read? && t[1..][i].name == x :: t[1..][i].site;
      var all := set i | 0 <= i < |t| && t[i].Read? && t[i].name == x :: t[i].site;
      var first := if t[0].Read? && t[0].name == x then {t[0].site} else {};
      forall n | n in all
        ensures n in first + rest
      {
        var i :| 0 <= i < |t| && t[i].Read? && t[i].name == x && t[i].site == n;
        if i > 0 {
          assert t[1..][i - 1] == t[i];
        }
      }
      forall n | n in rest
        ensures n in all
      {
        var i :| 0 <= i < |t[1..]| && t[1..][i].Read? && t[1..][i].name == x && t[1..][i].site == n;
        assert t[i + 1] == t[1..][i];
      }
      assert all == first + rest;
    }
  }

  lemma {:induction false} EvalQuiet(e: Expr, t: Trace)
    requires Eval(e, t)
    ensures Quiet(t)
  {
    EvalWithin(e, t);
    ExprEvents(e);
  }

  lemma EvalSteps(x: string, env: Env, e: Expr, t: Trace)
    requires Eval(e, t)
    ensures Steps(x, env, t) == env
  {
    EvalQuiet(e, t);
    QuietSteps(x, env, t);
  }

  // ---------------------------------------------------------------- what a run can do to the scopes

  /** The same scopes, where blank cells may have been filled. */
  ghost predicate Le(env: Env, env': Env) {
    match env
    case Outside => env'.Outside?
    case Scope(c, o) => env'.Scope? && (env'.cell == c || (c == Blank && env'.cell == Filled)) && Le(o, env'.outer)
  }

  lemma {:induction false} LeRefl(env: Env)
    ensures Le(env, env)
  {
    if env.Scope? { LeRefl(env.outer); }
  }

  lemma {:induction false} LeTrans(a: Env, b: Env, c: Env)
    requires Le(a, b) && Le(b, c)
    ensures Le(a, c)
  {
    if a.Scope? { LeTrans(a.outer, b.outer, c.outer); }
  }

  lemma {:induction false} LeLookup(env: Env, env': Env)
    requires Le(env, env')
    ensures Lookup(env') == Blank ==> Lookup(env) == Blank
  {
    if env.Scope? { LeLookup(env.outer, env'.outer); }
  }

  lemma {:induction false} LeStore(env: Env)
    ensures Le(env, Store(env)) && Lookup(Store(env)) != Blank
  {
    if env.Scope? {
      LeStore(env.outer);
      LeRefl(env.outer);
    }
  }

  predicate BindsHere(s: Stmt, x: string) { (s.Decl? && s.name == x) || (s.Spawn? && s.handle == x) }

  lemma GrowStore(x: string, env: Env, target: Expr, compound: bool, t: Trace)
    requires StoreTo(target, compound, t)
    ensures Le(env, Steps(x, env, t))
  {
    LeRefl(env);
    if target.Ident? {
      LeStore(env);
      var pre := if compound then [Read(target.name, target.site)] else [];
      StepsLast(x, env, pre, Write(target.name));
      QuietSteps(x, env, pre);
    } else {
      EvalSteps(x, env, target, t);
    }
  }

  lemma {:induction false} Grow(x: string, env: Env, s: Stmt, t: Trace, o: Outcome)
    requires Exec(s, t, o) && env.Scope?
    ensures Steps(x, env, t).Scope? && Le(env.outer, Steps(x, env, t).outer)
    ensures !BindsHere(s, x) ==> Le(env, Steps(x, env, t))
    decreases s
  {
    LeRefl(env);
    LeRefl(env.outer);
    match s
    case Decl(y, NoInit) => StepsLast(x, env, [], Declare(y)); assert [] + [Declare(y)] == t;
    case Decl(y, Zeroed) => StepsLast(x, env, [], Bind({y})); assert [] + [Bind({y})] == t;
    case Decl(y, Value(e)) =>
      var t0 :| Eval(e, t0) && t == t0 + [Bind({y})];
      StepsLast(x, env, t0, Bind({y}));
      EvalSteps(x, env, e, t0);
    case Spawn(h) => StepsLast(x, env, [], Bind({h})); assert [] + [Bind({h})] == t;
    case Assign(target, compound, v) =>
      var t0, t1 :| Eval(v, t0) && StoreTo(target, compound, t1) && t == t0 + t1;
      EvalSteps(x, env, v, t0);
      StepsConcat(x, env, t0, t1);
      GrowStore(x, env, target, compound, t1);
    case Return(e) => EvalSteps(x, env, e, t);
    case Break =>
    case Continue =>
    case ExprStmt(e) => EvalSteps(x, env, e, t);
    case Block(ss) => GrowBlock(x, env, ss, t, o);
    case If(c, body, rest) =>
      var t0, t1 :| Eval(c, t0) && t == t0 + t1 && (ExecBlock(body, t1, o) || ExecArms(rest, t1, o));
      EvalSteps(x, env, c, t0);
      StepsConcat(x, env, t0, t1);
      if ExecBlock(body, t1, o) { GrowBlock(x, env, body, t1, o); } else { GrowArms(x, env, rest, t1, o); }
    case While(c, body) =>
      var n: nat :| ExecWhile(c, body, n, t, o);
      GrowWhile(x, env, c, body, n, t, o);
    case For(y, e, body) =>
      var n: nat, t0, t1 :| Eval(e, t0) && ExecFor(y, body, n, t1, o) && t == t0 + t1;
      EvalSteps(x, env, e, t0);
      StepsConcat(x, env, t0, t1);
      GrowFor(x, env, y, body, n, t1, o);
    case Match(e, cases) =>
      var t0, t1 :| Eval(e, t0) && ExecArms(cases, t1, o) && t == t0 + t1;
      EvalSteps(x, env, e, t0);
      StepsConcat(x, env, t0, t1);
      GrowArms(x, env, cases, t1, o);
  }

  lemma {:induction false} GrowAll(x: string, env: Env, ss: Stmts, t: Trace, o: Outcome)
    requires ExecAll(ss, t, o) && env.Scope?
    ensures Steps(x, env, t).Scope? && Le(env.outer, Steps(x, env, t).outer)
    ensures BindersAll(ss, x) == 0 ==> Le(env, Steps(x, env, t))
    decreases ss, 0
  {
    match ss
    case SNil => LeRefl(env);
    case SCons(s, rest) =>
      if o != Normal && Exec(s, t, o) {
        Grow(x, env, s, t, o);
      } else {
        var t0, t1 :| Exec(s, t0, Normal) && ExecAll(rest, t1, o) && t == t0 + t1;
        Grow(x, env, s, t0, Normal);
        StepsConcat(x, env, t0, t1);
        var mid := Steps(x, env, t0);
        GrowAll(x, mid, rest, t1, o);
        LeTrans(env.outer, mid.outer, Steps(x, mid, t1).outer);
        if BindersAll(ss, x) == 0 { assert Binders(s, x) == 0; LeTrans(env, mid, Steps(x, mid, t1)); }
      }
  }

  lemma {:induction false} GrowBlock(x: string, env: Env, ss: Stmts, t: Trace, o: Outcome)
    requires ExecBlock(ss, t, o)
    ensures Le(env, Steps(x, env, t))
    decreases ss, 1
  {
    var t0 :| ExecAll(ss, t0, o) && t == [Enter] + t0 + [Exit];
    GrowAll(x, Scope(Unbound, env), ss, t0, o);
    StepsBlock(x, env, t0);
  }

  lemma {:induction false} GrowScoped(x: string, env: Env, names: set<string>, ss: Stmts, t: Trace, o: Outcome)
    requires ExecScoped(names, ss, t, o)
    ensures Le(env, Steps(x, env, t))
    decreases ss, 2
  {
    var t0 :| ExecBlock(ss, t0, o) && t == [Enter, Bind(names)] + t0 + [Exit];
    GrowBlock(x, ScopeOf(x, names, env), ss, t0, o);
    StepsScoped(x, env, names, t0);
  }

  lemma {:induction false} GrowArms(x: string, env: Env, arms: Arms, t: Trace, o: Outcome)
    requires ExecArms(arms, t, o)
    ensures Le(env, Steps(x, env, t))
    decreases arms
  {
    match arms
    case NoElse => LeRefl(env);
    case Else(b) => GrowBlock(x, env, b, t, o);
    case Arm(c, names, body, rest) =>
      var t0, t1 :| Eval(c, t0) && t == t0 + t1 && (ExecScoped(names, body, t1, o) || ExecArms(rest, t1, o));
      EvalSteps(x, env, c, t0);
      StepsConcat(x, env, t0, t1);
      if ExecScoped(names, body, t1, o) { GrowScoped(x, env, names, body, t1, o); } else { GrowArms(x, env, rest, t1, o); }
  }

  lemma {:induction false} GrowWhile(x: string, env: Env, c: Expr, body: Stmts, n: nat, t: Trace, o: Outcome)
    requires ExecWhile(c, body, n, t, o)
    ensures Le(env, Steps(x, env, t))
    decreases body, 3, n, 1
  {
    var t0, t1 :| Eval(c, t0) && WhileRest(c, body, n, t1, o) && t == t0 + t1;
    EvalSteps(x, env, c, t0);
    StepsConcat(x, env, t0, t1);
    GrowWhileRest(x, env, c, body, n, t1, o);
  }

  lemma {:induction false} GrowWhileRest(x: string, env: Env, c: Expr, body: Stmts, n: nat, t: Trace, o: Outcome)
    requires WhileRest(c, body, n, t, o)
    ensures Le(env, Steps(x, env, t))
    decreases body, 3, n, 0
  {
    LeRefl(env);
    if n > 0 {
      var t0, o0, t1 :| ExecBlock(body, t0, o0) && WhileNext(c, body, n - 1, o0, t1, o) && t == t0 + t1;
      StepsConcat(x, env, t0, t1);
      GrowBlock(x, env, body, t0, o0);
      var mid := Steps(x, env, t0);
      if LoopsOn(o0) {
        GrowWhile(x, mid, c, body, n - 1, t1, o);
        LeTrans(env, mid, Steps(x, mid, t1));
      }
    }
  }

  lemma {:induction false} GrowFor(x: string, env: Env, y: string, body: Stmts, n: nat, t: Trace, o: Outcome)
    requires ExecFor(y, body, n, t, o)
    ensures Le(env, Steps(x, env, t))
    decreases body, 3, n
  {
    LeRefl(env);
    if n > 0 {
      var t0, o0, t1 :| ExecScoped({y}, body, t0, o0) && ForNext(y, body, n - 1, o0, t1, o) && t == t0 + t1;
      StepsConcat(x, env, t0, t1);
      GrowScoped(x, env, {y}, body, t0, o0);
      var mid := Steps(x, env, t0);
      if LoopsOn(o0) {
        GrowFor(x, mid, y, body, n - 1, t1, o);
        LeTrans(env, mid, Steps(x, mid, t1));
      }
    }
  }

  // ---------------------------------------------------------------- the walk covers every run

  /** A name whose binding is blank at run time is tracked and unset in the analysis. */
  ghost predicate Tracks(x: string, env: Env, st: State) {
    Lookup(env) == Blank ==> Unset(st.tracked, st.done, x)
  }

  ghost predicate Covered(x: string, env: Env, t: Trace, reports: set<Report>) {
    forall n :: n in EarlyReads(x, env, t) ==> Report(x, n) in reports
  }

  /** Each binder of `x` is walked once, with `x` not tracked yet. */
  ghost predicate Once(k: nat, x: string, st: State) {
    k <= 1 && (k == 1 ==> x !in st.tracked)
  }

  lemma TracksLater(x: string, env: Env, env': Env, st: State, st': State)
    requires Le(env, env') && Tracks(x, env, st) && st.tracked <= st'.tracked && st'.done == st.done
    ensures Tracks(x, env', st')
  {
    LeLookup(env, env');
  }

  lemma {:induction false} EvalReads(x: string, e: Expr, t: Trace, tracked: set<string>, done: set<string>, i: nat)
    requires Eval(e, t) && i < |t| && t[i].Read? && t[i].name == x
    ensures SeenE(e, x) && Unset(tracked, done, x) ==> Report(x, t[i].site) in UseReports(e, tracked, done)
    decreases e
  {
    match e
    case Leaf =>
    case Ident(_, _) =>
    case Await(h, n) =>
      var t0 :| Eval(h, t0) && t == t0 + (if h.Ident? then [Awaited(h.name, n)] else []);
      EvalReads(x, h, t0, tracked, done, i);
    case Logical(l, r) =>
      if Eval(l, t) {
        EvalReads(x, l, t, tracked, done, i);
      } else {
        var t0, t1 :| Eval(l, t0) && Eval(r, t1) && t == t0 + t1;
        if i < |t0| { EvalReads(x, l, t0, tracked, done, i); } else { EvalReads(x, r, t1, tracked, done, i - |t0|); }
      }
    case Compound(k, es) =>
      if k == EnumConstruct { EvalAllWithin(es, t); } else { EvalAllReads(x, es, t, tracked, done, i); }
  }

  lemma {:induction false} EvalAllReads(x: string, es: Exprs, t: Trace, tracked: set<string>, done: set<string>, i: nat)
    requires EvalAll(es, t) && i < |t| && t[i].Read? && t[i].name == x
    ensures SeenEs(es, x) && Unset(tracked, done, x) ==> Report(x, t[i].site) in UseReportsAll(es, tracked, done)
    decreases es
  {
    match es
    case ENil =>
    case ECons(e, rest) =>
      var t0, t1 :| Eval(e, t0) && EvalAll(rest, t1) && t == t0 + t1;
      if i < |t0| { EvalReads(x, e, t0, tracked, done, i); } else { EvalAllReads(x, rest, t1, tracked, done, i - |t0|); }
  }

  lemma EvalSound(x: string, env: Env, e: Expr, t: Trace, st: State)
    requires Eval(e, t) && SeenE(e, x) && Tracks(x, env, st)
    ensures Steps(x, env, t) == env && Covered(x, env, t, UseReports(e, st.tracked, st.done))
  {
    EvalQuiet(e, t);
    QuietSteps(x, env, t);
    forall n | n in EarlyReads(x, env, t)
      ensures Report(x, n) in UseReports(e, st.tracked, st.done)
    {
      var i :| 0 <= i < |t| && t[i].Read? && t[i].name == x && t[i].site == n;
      EvalReads(x, e, t, st.tracked, st.done, i);
    }
  }

  /** A run without an event about `x` reads nothing too early. */
  lemma {:induction false} Silent(x: string, env: Env, t: Trace, evs: set<Event>)
    requires Within(t, evs) && !Mentioned(evs, x)
    ensures EarlyReads(x, env, t) == {}
    decreases |t|
  {
    if t != [] {
      assert t[0] in evs;
      Silent(x, Step(x, env, t[0]), t[1..], evs);
    }
  }

  /** A walk tracks a new name only at a binder of it. */
  lemma {:induction false} NoNewName(x: string, s: Stmt, st: State)
    requires Binders(s, x) == 0 && x !in st.tracked
    ensures x !in WalkStmt(s, st).tracked
    decreases s
  {
    match s
    case Block(ss) => NoNewNameAll(x, ss, st);
    case If(c, body, rest) =>
      var st1 := Use(c, st);
      NoNewNameAll(x, body, st1.(hasReturn := false));
      if HasElse(rest) {
        NoNewNameBranch(x, Leaf, body, st1.done, Merge(st1, None));
        NoNewNameArms(x, rest, st1.done, WalkBranch(Leaf, body, st1.done, Merge(st1, None)));
      }
    case While(c, body) => NoNewNameAll(x, body, Use(c, st).(hasReturn := false));
    case For(_, e, body) => NoNewNameAll(x, body, Use(e, st).(hasReturn := false));
    case Match(e, cases) =>
      var st1 := Use(e, st);
      NoNewNameArms(x, cases, st1.done, Merge(st1, None));
      NoNewNameLoose(x, cases, st1.done, st1);
    case _ =>
  }

  lemma {:induction false} NoNewNameAll(x: string, ss: Stmts, st: State)
    requires BindersAll(ss, x) == 0 && x !in st.tracked
    ensures x !in WalkAll(ss, st).tracked
    decreases ss, 0
  {
    if ss.SCons? {
      NoNewName(x, ss.head, st);
      NoNewNameAll(x, ss.tail, WalkStmt(ss.head, st));
    }
  }

  lemma {:induction false} NoNewNameBranch(x: string, c: Expr, body: Stmts, before: set<string>, m: Merge)
    requires BindersAll(body, x) == 0 && x !in m.st.tracked
    ensures x !in WalkBranch(c, body, before, m).st.tracked
    decreases body, 1
  {
    NoNewNameAll(x, body, Use(c, m.st.(done := before)).(hasReturn := false));
  }

  lemma {:induction false} NoNewNameArms(x: string, arms: Arms, before: set<string>, m: Merge)
    requires BindersArms(arms, x) == 0 && x !in m.st.tracked
    ensures x !in WalkArms(arms, before, m).st.tracked
    decreases arms
  {
    match arms
    case NoElse =>
    case Else(b) => NoNewNameBranch(x, Leaf, b, before, m);
    case Arm(c, _, b, rest) =>
      NoNewNameBranch(x, c, b, before, m);
      NoNewNameArms(x, rest, before, WalkBranch(c, b, before, m));
  }

  lemma {:induction false} NoNewNameLoose(x: string, arms: Arms, before: set<string>, st: State)
    requires BindersArms(arms, x) == 0 && x !in st.tracked
    ensures x !in WalkLoose(arms, before, st).tracked
    decreases arms
  {
    match arms
    case NoElse =>
    case Else(b) => NoNewNameAll(x, b, st.(done := before));
    case Arm(c, _, b, rest) =>
      var st1 := Use(c, st.(done := before));
      NoNewNameAll(x, b, st1);
      NoNewNameLoose(x, rest, before, WalkAll(b, st1));
  }

  lemma SoundAssign(x: string, env: Env, target: Expr, compound: bool, v: Expr, t: Trace, st: State)
    requires Exec(Assign(target, compound, v), t, Normal) && env.Scope?
    requires Tracks(x, env, st) && Seen(Assign(target, compound, v), x)
    ensures Covered(x, env, t, WalkStmt(Assign(target, compound, v), st).reports)
    ensures Tracks(x, Steps(x, env, t), WalkStmt(Assign(target, compound, v), st))
  {
    var t0, t1 :| Eval(v, t0) && StoreTo(target, compound, t1) && t == t0 + t1;
    EvalSound(x, env, v, t0, st);
    StepsConcat(x, env, t0, t1);
    if target.Ident? {
      var pre := if compound then [Read(target.name, target.site)] else [];
      QuietSteps(x, env, pre);
      StepsLast(x, env, pre, Write(target.name));
      LeStore(env);
    } else {
      EvalWithin(target, t1);
      Silent(x, env, t1, EventsE(target));
      EvalSteps(x, env, target, t1);
    }
  }

  /** Some walked branch leaves `x` unset. */
  ghost predicate Kept(x: string, m: Merge) {
    m.common.Some? && Unset(m.st.tracked, m.common.value, x)
  }

  lemma SoundFinish(x: string, env: Env, env': Env, st: State, m: Merge)
    requires Le(env, env') && Tracks(x, env, st) && st.tracked <= m.st.tracked
    requires m.common.Some? && (Lookup(env') == Blank ==> Kept(x, m))
    ensures Tracks(x, env', Finish(st.done, m)) && !Finish(st.done, m).hasReturn
  {
    LeLookup(env, env');
  }

  predicate Simple(s: Stmt) { !s.Block? && !s.If? && !s.While? && !s.For? && !s.Match? }

  lemma SoundDecl(x: string, env: Env, s: Stmt, t: Trace, st: State)
    requires s.Decl? && Exec(s, t, Normal) && env.Scope? && Tracks(x, env, st)
    requires Seen(s, x) && Once(Binders(s, x), x, st) && !WalkStmt(s, st).capNoted
    ensures Covered(x, env, t, WalkStmt(s, st).reports)
    ensures Tracks(x, Steps(x, env, t), WalkStmt(s, st))
  {
    match s
    case Decl(y, NoInit) =>
      StepsLast(x, env, [], Declare(y));
      assert [] + [Declare(y)] == t;
    case Decl(y, Zeroed) =>
      StepsLast(x, env, [], Bind({y}));
      assert [] + [Bind({y})] == t;
    case Decl(y, Value(e)) =>
      var t0 :| Eval(e, t0) && t == t0 + [Bind({y})];
      EvalSound(x, env, e, t0, st);
      StepsLast(x, env, t0, Bind({y}));
  }

  lemma SoundSimple(x: string, env: Env, s: Stmt, t: Trace, o: Outcome, st: State)
    requires Simple(s) && Exec(s, t, o) && env.Scope? && Tracks(x, env, st)
    requires Seen(s, x) && Once(Binders(s, x), x, st) && !WalkStmt(s, st).capNoted
    ensures Covered(x, env, t, WalkStmt(s, st).reports)
    ensures o == Normal ==> Tracks(x, Steps(x, env, t), WalkStmt(s, st))
  {
    match s
    case Decl(_, _) => SoundDecl(x, env, s, t, st);
    case Spawn(h) =>
      StepsLast(x, env, [], Bind({h}));
      assert [] + [Bind({h})] == t;
    case Assign(target, compound, v) => SoundAssign(x, env, target, compound, v, t, st);
    case Return(e) => EvalSound(x, env, e, t, st);
    case Break =>
    case Continue =>
    case ExprStmt(e) => EvalSound(x, env, e, t, st);
  }

  /** One statement: reads too early are reported, the tracking relation is kept, and a statement
      that sets has_return cannot complete normally. */
  lemma {:induction false} Sound(x: string, env: Env, s: Stmt, t: Trace, o: Outcome, st: State)
    requires Exec(s, t, o) && env.Scope? && Tracks(x, env, st)
    requires Seen(s, x) && Once(Binders(s, x), x, st) && !WalkStmt(s, st).capNoted
    ensures Covered(x, env, t, WalkStmt(s, st).reports)
    ensures o == Normal ==> Tracks(x, Steps(x, env, t), WalkStmt(s, st))
    ensures o == Normal && WalkStmt(s, st).hasReturn ==> st.hasReturn
    decreases s, 2
  {
    match s
    case Block(ss) => SoundBlock(x, env, ss, t, o, st);
    case If(_, _, _) => SoundIf(x, env, s, t, o, st);
    case While(_, _) => SoundLoop(x, env, s, t, o, st);
    case For(_, _, _) => SoundLoop(x, env, s, t, o, st);
    case Match(_, _) => SoundMatch(x, env, s, t, o, st);
    case _ => SoundSimple(x, env, s, t, o, st);
  }

  lemma {:induction false} SoundLoop(x: string, env: Env, s: Stmt, t: Trace, o: Outcome, st: State)
    requires s.While? || s.For?
    requires Exec(s, t, o) && env.Scope? && Tracks(x, env, st)
    requires Seen(s, x) && Once(Binders(s, x), x, st) && !WalkStmt(s, st).capNoted
    ensures Covered(x, env, t, WalkStmt(s, st).reports)
    ensures Tracks(x, Steps(x, env, t), WalkStmt(s, st))
    decreases s, 0
  {
    Grow(x, env, s, t, o);
    TracksLater(x, env, Steps(x, env, t), st, WalkStmt(s, st));
    match s
    case While(c, body) =>
      var n: nat :| ExecWhile(c, body, n, t, o);
      SoundWhile(x, env, c, body, n, t, o, Use(c, st));
    case For(y, e, body) =>
      var n: nat, t0, t1 :| Eval(e, t0) && ExecFor(y, body, n, t1, o) && t == t0 + t1;
      EvalSound(x, env, e, t0, st);
      StepsConcat(x, env, t0, t1);
      SoundFor(x, env, y, body, n, t1, o, Use(e, st));
  }

  lemma {:induction false} SoundMatch(x: string, env: Env, s: Stmt, t: Trace, o: Outcome, st: State)
    requires s.Match?
    requires Exec(s, t, o) && env.Scope? && Tracks(x, env, st)
    requires Seen(s, x) && Once(Binders(s, x), x, st) && !WalkStmt(s, st).capNoted
    ensures Covered(x, env, t, WalkStmt(s, st).reports)
    ensures o == Normal ==> Tracks(x, Steps(x, env, t), WalkStmt(s, st)) && !WalkStmt(s, st).hasReturn
    decreases s, 0
  {
    var Match(e, cases) := s;
    var t0, t1 :| Eval(e, t0) && ExecArms(cases, t1, o) && t == t0 + t1;
    EvalSound(x, env, e, t0, st);
    StepsConcat(x, env, t0, t1);
    GrowArms(x, env, cases, t1, o);
    var st1 := Use(e, st);
    if HasElse(cases) && cases.Arm? {
      SoundArms(x, env, cases, t1, o, st1.done, Merge(st1, None));
      if o == Normal { SoundFinish(x, env, Steps(x, env, t), st1, WalkArms(cases, st1.done, Merge(st1, None))); }
    } else {
      SoundLoose(x, env, cases, t1, o, st1.done, st1);
      TracksLater(x, env, Steps(x, env, t), st, WalkStmt(s, st));
    }
  }

  lemma {:induction false} SoundIf(x: string, env: Env, s: Stmt, t: Trace, o: Outcome, st: State)
    requires s.If?
    requires Exec(s, t, o) && env.Scope? && Tracks(x, env, st)
    requires Seen(s, x) && Once(Binders(s, x), x, st) && !WalkStmt(s, st).capNoted
    ensures Covered(x, env, t, WalkStmt(s, st).reports)
    ensures o == Normal ==> Tracks(x, Steps(x, env, t), WalkStmt(s, st)) && !WalkStmt(s, st).hasReturn
    decreases s, 1
  {
    var If(c, body, rest) := s;
    var t0, t1 :| Eval(c, t0) && t == t0 + t1 && (ExecBlock(body, t1, o) || ExecArms(rest, t1, o));
    EvalSound(x, env, c, t0, st);
    StepsConcat(x, env, t0, t1);
    var st1 := Use(c, st);
    if HasElse(rest) {
      var m := WalkBranch(Leaf, body, st1.done, Merge(st1, None));
      SoundIfElse(x, env, s, t1, o, st1);
      if o == Normal { SoundFinish(x, env, Steps(x, env, t), st1, WalkArms(rest, st1.done, m)); }
    } else {
      SoundIfOnly(x, env, s, t1, o, st1);
      TracksLater(x, env, Steps(x, env, t), st, WalkStmt(s, st));
    }
  }

  lemma {:induction false} SoundIfElse(x: string, env: Env, s: Stmt, t: Trace, o: Outcome, st: State)
    requires s.If? && (ExecBlock(s.body, t, o) || ExecArms(s.rest, t, o))
    requires Tracks(x, env, st) && HasElse(s.rest) && SeenAll(s.body, x) && SeenArms(s.rest, x)
    requires Once(BindersAll(s.body, x) + BindersArms(s.rest, x), x, st)
    requires !WalkArms(s.rest, st.done, WalkBranch(Leaf, s.body, st.done, Merge(st, None))).st.capNoted
    ensures var r := WalkArms(s.rest, st.done, WalkBranch(Leaf, s.body, st.done, Merge(st, None)));
            && Covered(x, env, t, r.st.reports)
            && (o == Normal ==> r.common.Some?)
            && (o == Normal && Lookup(Steps(x, env, t)) == Blank ==> Kept(x, r))
    ensures Le(env, Steps(x, env, t))
    decreases s, 0
  {
    var If(_, body, rest) := s;
    var m := WalkBranch(Leaf, body, st.done, Merge(st, None));
    if ExecBlock(body, t, o) {
      SoundBranch(x, env, Leaf, body, t, o, st.done, Merge(st, None));
      if o == Normal && Lookup(Steps(x, env, t)) == Blank { KeptLater(x, rest, st.done, m); }
      GrowBlock(x, env, body, t, o);
    } else {
      if BindersAll(body, x) == 0 && x !in st.tracked { NoNewNameBranch(x, Leaf, body, st.done, Merge(st, None)); }
      LeRefl(env);
      TracksLater(x, env, env, st, m.st.(done := st.done));
      SoundArms(x, env, rest, t, o, st.done, m);
      GrowArms(x, env, rest, t, o);
    }
  }

  lemma {:induction false} SoundIfOnly(x: string, env: Env, s: Stmt, t: Trace, o: Outcome, st: State)
    requires s.If? && (ExecBlock(s.body, t, o) || ExecArms(s.rest, t, o))
    requires Tracks(x, env, st) && SeenAll(s.body, x) && !Mentioned(EventsArms(s.rest), x)
    requires Once(BindersAll(s.body, x), x, st) && !WalkAside(s.body, st).capNoted
    ensures Covered(x, env, t, WalkAside(s.body, st).reports)
    ensures Le(env, Steps(x, env, t))
    decreases s, 0
  {
    var If(_, body, rest) := s;
    if ExecBlock(body, t, o) {
      SoundBlock(x, env, body, t, o, st.(hasReturn := false));
      GrowBlock(x, env, body, t, o);
    } else {
      ExecArmsWithin(rest, t, o);
      Silent(x, env, t, EventsArms(rest));
      GrowArms(x, env, rest, t, o);
    }
  }

  lemma {:induction false} SoundAll(x: string, env: Env, ss: Stmts, t: Trace, o: Outcome, st: State)
    requires ExecAll(ss, t, o) && env.Scope? && Tracks(x, env, st)
    requires SeenAll(ss, x) && Once(BindersAll(ss, x), x, st) && !WalkAll(ss, st).capNoted
    ensures Covered(x, env, t, WalkAll(ss, st).reports)
    ensures o == Normal ==> Tracks(x, Steps(x, env, t), WalkAll(ss, st))
    ensures o == Normal && WalkAll(ss, st).hasReturn ==> st.hasReturn
    decreases ss, 0
  {
    match ss
    case SNil =>
    case SCons(s, rest) =>
      var st1 := WalkStmt(s, st);
      if o != Normal && Exec(s, t, o) {
        Sound(x, env, s, t, o, st);
      } else {
        var t0, t1 :| Exec(s, t0, Normal) && ExecAll(rest, t1, o) && t == t0 + t1;
        Sound(x, env, s, t0, Normal, st);
        StepsConcat(x, env, t0, t1);
        Grow(x, env, s, t0, Normal);
        if Binders(s, x) == 0 && x !in st.tracked { NoNewName(x, s, st); }
        SoundAll(x, Steps(x, env, t0), rest, t1, o, st1);
      }
  }

  lemma {:induction false} SoundBlock(x: string, env: Env, ss: Stmts, t: Trace, o: Outcome, st: State)
    requires ExecBlock(ss, t, o) && Tracks(x, env, st)
    requires SeenAll(ss, x) && Once(BindersAll(ss, x), x, st) && !WalkAll(ss, st).capNoted
    ensures Covered(x, env, t, WalkAll(ss, st).reports)
    ensures o == Normal ==> Tracks(x, Steps(x, env, t), WalkAll(ss, st))
    ensures o == Normal && WalkAll(ss, st).hasReturn ==> st.hasReturn
    decreases ss, 1
  {
    var t0 :| ExecAll(ss, t0, o) && t == [Enter] + t0 + [Exit];
    var inner := Scope(Unbound, env);
    GrowAll(x, inner, ss, t0, o);
    SoundAll(x, inner, ss, t0, o, st);
    StepsBlock(x, env, t0);
    LeLookup(env, Steps(x, env, t));
  }

  lemma {:induction false} SoundScoped(x: string, env: Env, names: set<string>, ss: Stmts, t: Trace, o: Outcome, st: State)
    requires ExecScoped(names, ss, t, o) && Tracks(x, env, st)
    requires SeenAll(ss, x) && Once((if x in names then 1 else 0) + BindersAll(ss, x), x, st)
    requires !WalkAll(ss, st).capNoted
    ensures Covered(x, env, t, WalkAll(ss, st).reports)
    ensures o == Normal ==> Tracks(x, Steps(x, env, t), WalkAll(ss, st))
    ensures o == Normal && WalkAll(ss, st).hasReturn ==> st.hasReturn
    decreases ss, 2
  {
    var t0 :| ExecBlock(ss, t0, o) && t == [Enter, Bind(names)] + t0 + [Exit];
    var inner := ScopeOf(x, names, env);
    GrowBlock(x, inner, ss, t0, o);
    SoundBlock(x, inner, ss, t0, o, st);
    StepsScoped(x, env, names, t0);
    LeLookup(env, Steps(x, env, t));
  }

  /** The run goes through this branch. */
  lemma {:induction false} SoundBranch(x: string, env: Env, c: Expr, body: Stmts, t: Trace, o: Outcome, before: set<string>, m: Merge)
    requires ExecBlock(body, t, o) && Tracks(x, env, m.st.(done := before))
    requires SeenAll(body, x) && Once(BindersAll(body, x), x, m.st)
    requires !WalkBranch(c, body, before, m).st.capNoted
    ensures Covered(x, env, t, WalkBranch(c, body, before, m).st.reports)
    ensures o == Normal ==> WalkBranch(c, body, before, m).common.Some?
    ensures o == Normal && Lookup(Steps(x, env, t)) == Blank ==> Kept(x, WalkBranch(c, body, before, m))
    decreases body, 2
  {
    SoundBlock(x, env, body, t, o, Use(c, m.st.(done := before)).(hasReturn := false));
  }

  lemma {:induction false} SoundScopedBranch(x: string, env: Env, c: Expr, names: set<string>, body: Stmts, t: Trace, o: Outcome, before: set<string>, m: Merge)
    requires ExecScoped(names, body, t, o) && Tracks(x, env, m.st.(done := before))
    requires SeenAll(body, x) && Once((if x in names then 1 else 0) + BindersAll(body, x), x, m.st)
    requires !WalkBranch(c, body, before, m).st.capNoted
    ensures Covered(x, env, t, WalkBranch(c, body, before, m).st.reports)
    ensures o == Normal ==> WalkBranch(c, body, before, m).common.Some?
    ensures o == Normal && Lookup(Steps(x, env, t)) == Blank ==> Kept(x, WalkBranch(c, body, before, m))
    decreases body, 3
  {
    SoundScoped(x, env, names, body, t, o, Use(c, m.st.(done := before)).(hasReturn := false));
  }

  /** Walking further branches does not hide that an earlier one left `x` unset. */
  lemma KeptLater(x: string, arms: Arms, before: set<string>, m: Merge)
    requires Kept(x, m)
    ensures Kept(x, WalkArms(arms, before, m))
  {
  }

  lemma {:induction false} SoundArms(x: string, env: Env, arms: Arms, t: Trace, o: Outcome, before: set<string>, m: Merge)
    requires ExecArms(arms, t, o) && HasElse(arms) && Tracks(x, env, m.st.(done := before))
    requires SeenArms(arms, x) && Once(BindersArms(arms, x), x, m.st)
    requires !WalkArms(arms, before, m).st.capNoted
    ensures Covered(x, env, t, WalkArms(arms, before, m).st.reports)
    ensures o == Normal ==> WalkArms(arms, before, m).common.Some?
    ensures o == Normal && Lookup(Steps(x, env, t)) == Blank ==> Kept(x, WalkArms(arms, before, m))
    decreases arms
  {
    match arms
    case Else(b) => SoundBranch(x, env, Leaf, b, t, o, before, m);
    case Arm(c, names, body, rest) =>
      var t0, t1 :| Eval(c, t0) && t == t0 + t1 && (ExecScoped(names, body, t1, o) || ExecArms(rest, t1, o));
      EvalSound(x, env, c, t0, m.st.(done := before));
      StepsConcat(x, env, t0, t1);
      var m1 := WalkBranch(c, body, before, m);
      if ExecScoped(names, body, t1, o) {
        SoundScopedBranch(x, env, c, names, body, t1, o, before, m);
        if o == Normal && Lookup(Steps(x, env, t1)) == Blank { KeptLater(x, rest, before, m1); }
      } else {
        if BindersAll(body, x) == 0 && x !in m.st.tracked { NoNewNameBranch(x, c, body, before, m); }
        LeRefl(env);
        TracksLater(x, env, env, m.st.(done := before), m1.st.(done := before));
        SoundArms(x, env, rest, t1, o, before, m1);
      }
  }

  lemma {:induction false} SoundLoose(x: string, env: Env, arms: Arms, t: Trace, o: Outcome, before: set<string>, st: State)
    requires ExecArms(arms, t, o) && Tracks(x, env, st.(done := before))
    requires SeenArms(arms, x) && Once(BindersArms(arms, x), x, st)
    requires !WalkLoose(arms, before, st).capNoted
    ensures Covered(x, env, t, WalkLoose(arms, before, st).reports)
    decreases arms
  {
    match arms
    case NoElse =>
    case Else(b) => SoundBlock(x, env, b, t, o, st.(done := before));
    case Arm(c, names, body, rest) =>
      var t0, t1 :| Eval(c, t0) && t == t0 + t1 && (ExecScoped(names, body, t1, o) || ExecArms(rest, t1, o));
      var st1 := Use(c, st.(done := before));
      EvalSound(x, env, c, t0, st.(done := before));
      StepsConcat(x, env, t0, t1);
      if ExecScoped(names, body, t1, o) {
        SoundScoped(x, env, names, body, t1, o, st1);
      } else {
        if BindersAll(body, x) == 0 && x !in st.tracked { NoNewNameAll(x, body, st1); }
        var st2 := WalkAll(body, st1);
        LeRefl(env);
        TracksLater(x, env, env, st.(done := before), st2.(done := before));
        SoundLoose(x, env, rest, t1, o, before, st2);
      }
  }

  lemma {:induction false} SoundWhile(x: string, env: Env, c: Expr, body: Stmts, n: nat, t: Trace, o: Outcome, st: State)
    requires ExecWhile(c, body, n, t, o) && Tracks(x, env, st) && UseReports(c, st.tracked, st.done) <= st.reports
    requires SeenE(c, x) && SeenAll(body, x) && Once(BindersAll(body, x), x, st) && !WalkAside(body, st).capNoted
    ensures Covered(x, env, t, WalkAside(body, st).reports)
    decreases body, 3, n, 1
  {
    var t0, t1 :| Eval(c, t0) && WhileRest(c, body, n, t1, o) && t == t0 + t1;
    EvalSound(x, env, c, t0, st);
    StepsConcat(x, env, t0, t1);
    SoundWhileRest(x, env, c, body, n, t1, o, st);
  }

  lemma {:induction false} SoundWhileRest(x: string, env: Env, c: Expr, body: Stmts, n: nat, t: Trace, o: Outcome, st: State)
    requires WhileRest(c, body, n, t, o) && Tracks(x, env, st) && UseReports(c, st.tracked, st.done) <= st.reports
    requires SeenE(c, x) && SeenAll(body, x) && Once(BindersAll(body, x), x, st) && !WalkAside(body, st).capNoted
    ensures Covered(x, env, t, WalkAside(body, st).reports)
    decreases body, 3, n, 0
  {
    if n > 0 {
      var t0, o0, t1 :| ExecBlock(body, t0, o0) && WhileNext(c, body, n - 1, o0, t1, o) && t == t0 + t1;
      StepsConcat(x, env, t0, t1);
      SoundBlock(x, env, body, t0, o0, st.(hasReturn := false));
      GrowBlock(x, env, body, t0, o0);
      if LoopsOn(o0) {
        TracksLater(x, env, Steps(x, env, t0), st, st);
        SoundWhile(x, Steps(x, env, t0), c, body, n - 1, t1, o, st);
      }
    }
  }

  lemma {:induction false} SoundFor(x: string, env: Env, y: string, body: Stmts, n: nat, t: Trace, o: Outcome, st: State)
    requires ExecFor(y, body, n, t, o) && Tracks(x, env, st)
    requires SeenAll(body, x) && Once((if y == x then 1 else 0) + BindersAll(body, x), x, st)
    requires !WalkAside(body, st).capNoted
    ensures Covered(x, env, t, WalkAside(body, st).reports)
    decreases body, 3, n
  {
    if n > 0 {
      var t0, o0, t1 :| ExecScoped({y}, body, t0, o0) && ForNext(y, body, n - 1, o0, t1, o) && t == t0 + t1;
      StepsConcat(x, env, t0, t1);
      SoundScoped(x, env, {y}, body, t0, o0, st.(hasReturn := false));
      GrowScoped(x, env, {y}, body, t0, o0);
      if LoopsOn(o0) {
        TracksLater(x, env, Steps(x, env, t0), st, st);
        SoundFor(x, Steps(x, env, t0), y, body, n - 1, t1, o, st);
      }
    }
  }

  /** Definite assignment is sound. In every run of a function body, every read of `x` that comes
      before the assignment of its binding is reported, provided at most 256 uninitialised variables are
      declared, `x` has one binder in the body, and `x` occurs only where the walk looks. */
  lemma DefiniteAssignmentSound(body: Stmts, x: string, t: Trace, o: Outcome)
    requires ExecBlock(body, t, o)
    requires BindersAll(body, x) <= 1 && SeenAll(body, x) && UninitAll(body) <= 256
    ensures forall n :: n in EarlyReads(x, Outside, t) ==> Report(x, n) in WalkAll(body, Start()).reports
  {
    CapExact(body);
    SoundBlock(x, Outside, body, t, o, Start());
  }
}
