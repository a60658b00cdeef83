/**
 Exactness of the await-once analysis: where the walk follows only paths that exist, every reported await
 has a real run in which the handle was awaited before.
 */
module AwaitExact {
  import opened IronCore
  import opened Options
  import opened Programs
  import opened AwaitOnce
  import opened AwaitSound

  // ---------------------------------------------------------------- the paths the walk follows

  /** Some run completes the statement normally. */
  predicate Passes(s: Stmt)
    decreases s
  {
    match s
    case Return(_) => false
    case Break => false
    case Continue => false
    case Block(ss) => PassesAll(ss)
    case If(_, b, rest) => PassesAll(b) || PassesArms(rest)
    case Match(_, cases) => PassesArms(cases)
    case _ => true
  }

  predicate PassesAll(ss: Stmts)
    decreases ss
  {
    ss.SCons? ==> Passes(ss.head) && PassesAll(ss.tail)
  }

  predicate PassesArms(arms: Arms)
    decreases arms
  {
    match arms
    case NoElse => true
    case Else(b) => PassesAll(b)
    case Arm(_, _, b, rest) => PassesAll(b) || PassesArms(rest)
  }

  /** Only a break or continue keeps the block from completing: the walk goes on behind it. */
  predicate Stuck(ss: Stmts) { !PassesAll(ss) && !DiesAll(ss) }

  predicate AnyStuck(arms: Arms)
    decreases arms
  {
    match arms
    case NoElse => false
    case Else(b) => Stuck(b)
    case Arm(_, _, b, rest) => Stuck(b) || AnyStuck(rest)
  }

  /** Nothing in the list awaits `x`. */
  predicate Mute(ss: Stmts, x: string) { NoAwait(EventsAll(ss), x) }

  /** Every await the walk attributes to `x` is of the identifier itself. */
  predicate SharpE(e: Expr, x: string)
    decreases e
  {
    match e
    case Leaf => true
    case Ident(_, _) => true
    case Await(h, _) => SharpE(h, x) && (RootName(h) == Some(x) ==> h.Ident?)
    case Logical(l, r) => SharpE(l, x) && SharpE(r, x)
    case Compound(_, es) => SharpEs(es, x)
  }

  predicate SharpEs(es: Exprs, x: string)
    decreases es
  {
    es.ECons? ==> SharpE(es.head, x) && SharpEs(es.tail, x)
  }

  /** A block entered on some paths only: if it always jumps, it does not await `x`. */
  predicate SharpArm(b: Stmts, x: string)
    decreases b, 1
  {
    SharpAll(b, x) && (Stuck(b) ==> Mute(b, x))
  }

  /** The walk follows no path that does not exist, as far as `x` is concerned: a loop body that never
      completes does not await `x`, nor does code behind a jump or an arm that always jumps, and beside
      such an arm nothing assigns `x`; a loop or pattern variable `x` is not awaited. */
  predicate Sharp(s: Stmt, x: string)
    decreases s
  {
    match s
    case Decl(_, i) => i.Value? ==> SharpE(i.e, x)
    case Assign(_, _, v) => SharpE(v, x)
    case Return(e) => SharpE(e, x)
    case ExprStmt(e) => SharpE(e, x)
    case Block(ss) => SharpAll(ss, x)
    case If(c, b, rest) =>
      && SharpE(c, x) && SharpArm(b, x) && SharpArms(rest, x)
      && (Stuck(b) || AnyStuck(rest) ==> Write(x) !in Events(s))
    case Match(e, cases) => SharpE(e, x) && SharpArms(cases, x) && (AnyStuck(cases) ==> Write(x) !in Events(s))
    case While(c, b) => SharpE(c, x) && SharpAll(b, x) && (PassesAll(b) || Mute(b, x))
    case For(y, e, b) => SharpE(e, x) && SharpAll(b, x) && ((y != x && PassesAll(b)) || Mute(b, x))
    case _ => true
  }

  predicate SharpAll(ss: Stmts, x: string)
    decreases ss, 0
  {
    ss.SCons? ==>
      && Sharp(ss.head, x) && SharpAll(ss.tail, x)
      && (!Passes(ss.head) && !Dies(ss.head) ==> Mute(ss.tail, x))
  }

  predicate SharpArms(arms: Arms, x: string)
    decreases arms
  {
    match arms
    case NoElse => true
    case Else(b) => SharpArm(b, x)
    case Arm(c, ys, b, rest) => SharpE(c, x) && (x !in ys || Mute(b, x)) && SharpArm(b, x) && SharpArms(rest, x)
  }

  lemma {:induction false} PassesLive(s: Stmt)
    requires Passes(s)
    ensures !Dies(s)
    decreases s
  {
    match s
    case Block(ss) => PassesLiveAll(ss);
    case If(_, b, rest) => if PassesAll(b) { PassesLiveAll(b); } else { PassesLiveArms(rest); }
    case Match(_, cases) => PassesLiveArms(cases);
    case _ =>
  }

  lemma {:induction false} PassesLiveAll(ss: Stmts)
    requires PassesAll(ss)
    ensures !DiesAll(ss)
    decreases ss
  {
    if ss.SCons? {
      PassesLive(ss.head);
      PassesLiveAll(ss.tail);
    }
  }

  lemma {:induction false} PassesLiveArms(arms: Arms)
    requires PassesArms(arms)
    ensures !DiesArms(arms)
    decreases arms
  {
    match arms
    case NoElse =>
    case Else(b) => PassesLiveAll(b);
    case Arm(_, _, b, rest) => if PassesAll(b) { PassesLiveAll(b); } else { PassesLiveArms(rest); }
  }

  // ---------------------------------------------------------------- where the handle is not awaited

  /** The walk adds something about `x`: the name, or a report. */
  ghost predicate Adds(x: string, st: State, st': State) {
    || (x in st'.names && x !in st.names)
    || exists n :: Site(x, n) in st'.reports && Site(x, n) !in st.reports
  }

  lemma {:induction false} MuteExpr(x: string, e: Expr, st: State)
    requires NoAwait(EventsE(e), x) && SharpE(e, x)
    ensures !Adds(x, st, AwExpr(e, st))
    decreases e
  {
    match e
    case Leaf =>
    case Ident(_, _) =>
    case Await(h, n) =>
      MuteExpr(x, h, st);
      if h.Ident? { assert Awaited(h.name, n) in EventsE(e); }
    case Logical(l, r) =>
      MuteExpr(x, l, st);
      MuteExpr(x, r, AwExpr(l, st));
    case Compound(k, es) =>
      match k
      case Operator => MuteExprs(x, es, st);
      case Place => MuteExprs(x, es, st);
      case CallExpr =>
        if es.ECons? {
          assert EventsE(e) == EventsE(es.head) + EventsEs(es.tail);
          MuteExprs(x, es.tail, st);
        }
      case _ =>
  }

  lemma {:induction false} MuteExprs(x: string, es: Exprs, st: State)
    requires NoAwait(EventsEs(es), x) && SharpEs(es, x)
    ensures !Adds(x, st, AwExprs(es, st))
    decreases es
  {
    if es.ECons? {
      MuteExpr(x, es.head, st);
      MuteExprs(x, es.tail, AwExpr(es.head, st));
    }
  }

  lemma {:induction false} MuteStmt(x: string, s: Stmt, st: State)
    requires NoAwait(Events(s), x) && Sharp(s, x)
    ensures !Adds(x, st, AwStmt(s, st))
    decreases s
  {
    if !st.dead {
      match s
      case Decl(_, Value(e)) => MuteExpr(x, e, st);
      case Assign(_, _, v) => MuteExpr(x, v, st);
      case Return(e) => MuteExpr(x, e, st);
      case ExprStmt(e) => MuteExpr(x, e, st);
      case Block(ss) => MuteBlock(x, ss, st);
      case If(c, b, rest) =>
        MuteExpr(x, c, st);
        var st1 := AwExpr(c, st);
        var out := st1.(names := {}, dead := true);
        MuteBranch(x, Leaf, b, st1.names, out);
        MuteArms(x, rest, st1.names, AwBranch(Leaf, b, st1.names, out));
      case While(c, b) => MuteExpr(x, c, st); MuteLoop(x, b, AwExpr(c, st));
      case For(_, e, b) => MuteExpr(x, e, st); MuteLoop(x, b, AwExpr(e, st));
      case Match(e, cases) =>
        MuteExpr(x, e, st);
        var st1 := AwExpr(e, st);
        MuteArms(x, cases, st1.names, st1.(names := {}, dead := true));
      case _ =>
    }
  }

  lemma {:induction false} MuteAll(x: string, ss: Stmts, st: State, saved: map<string, bool>)
    requires Mute(ss, x) && SharpAll(ss, x)
    ensures var r := AwAll(ss, st, saved);
            !Adds(x, st, r.0) && (GivenBack(x, r.0.names, r.1) ==> GivenBack(x, st.names, saved))
    decreases ss, 0
  {
    if ss.SCons? {
      MuteStmt(x, ss.head, st);
      MuteAll(x, ss.tail, AwStmt(ss.head, st), Shadow(ss.head, st.names, saved));
    }
  }

  lemma {:induction false} MuteBlock(x: string, ss: Stmts, st: State)
    requires Mute(ss, x) && SharpAll(ss, x)
    ensures !Adds(x, st, AwBlock(ss, st))
    decreases ss, 1
  {
    MuteAll(x, ss, st, map[]);
  }

  /** A branch or arms add something about `x` beyond the entry and the join so far. */
  ghost predicate AddsJoined(x: string, names: set<string>, out: State, out': State) {
    || (x in out'.names && x !in names && x !in out.names)
    || exists n :: Site(x, n) in out'.reports && Site(x, n) !in out.reports
  }

  lemma {:induction false} MuteBranch(x: string, c: Expr, b: Stmts, names: set<string>, out: State)
    requires NoAwait(EventsE(c), x) && SharpE(c, x) && Mute(b, x) && SharpAll(b, x)
    ensures !AddsJoined(x, names, out, AwBranch(c, b, names, out))
    decreases b, 2
  {
    var st := State(names, false, out.reports);
    MuteExpr(x, c, st);
    MuteBlock(x, b, AwExpr(c, st));
  }

  lemma {:induction false} MuteArms(x: string, arms: Arms, names: set<string>, out: State)
    requires NoAwait(EventsArms(arms), x) && SharpArms(arms, x)
    ensures !AddsJoined(x, names, out, AwArms(arms, names, out))
    decreases arms
  {
    match arms
    case NoElse =>
    case Else(b) => MuteBranch(x, Leaf, b, names, out);
    case Arm(c, _, b, rest) =>
      MuteBranch(x, c, b, names, out);
      MuteArms(x, rest, names, AwBranch(c, b, names, out));
  }

  lemma {:induction false} MuteLoop(x: string, b: Stmts, st: State)
    requires Mute(b, x) && SharpAll(b, x)
    ensures !Adds(x, st, AwLoop(b, st))
    decreases b, 2
  {
    MuteBlock(x, b, st);
    MuteBlock(x, b, SecondPass(AwBlock(b, st), st));
  }

  // ---------------------------------------------------------------- a run in which the handle is awaited

  /** The path is alive, and if the walk holds `x` awaited it is. */
  ghost predicate Meets(x: string, env: Env, st: State) {
    !st.dead && (x in st.names ==> Lookup(env) == Used)
  }

  lemma {:induction false} ReachExpr(x: string, env: Env, e: Expr, st: State) returns (t: Trace)
    requires FitE(e, x) && SharpE(e, x) && Meets(x, env, st)
    ensures Eval(e, t) && Meets(x, Steps(x, env, t), AwExpr(e, st))
    decreases e
  {
    match e
    case Leaf => t := [];
    case Ident(y, n) =>
      t := [Read(y, n)];
      SilentSteps(x, env, t);
    case Await(h, n) =>
      var t0 := ReachExpr(x, env, h, st);
      if h.Ident? {
        t := t0 + [Awaited(h.name, n)];
        StepsLast(x, env, t0, Awaited(h.name, n));
        SameUpdate(Steps(x, env, t0), Used);
      } else {
        t := t0 + [];
        assert t == t0;
      }
    case Logical(l, r) =>
      var t0 := ReachExpr(x, env, l, st);
      var t1 := ReachExpr(x, Steps(x, env, t0), r, AwExpr(l, st));
      StepsConcat(x, env, t0, t1);
      t := t0 + t1;
    case Compound(k, es) =>
      match k {
        case Operator => t := ReachExprs(x, env, es, st);
        case Place => t := ReachExprs(x, env, es, st);
        case CallExpr =>
          if es.ECons? {
            var t0 := SomeEval(es.head);
            EvalSilent(x, env, es.head, t0);
            var t1 := ReachExprs(x, env, es.tail, st);
            StepsConcat(x, env, t0, t1);
            t := t0 + t1;
          } else {
            t := [];
          }
        case _ =>
          t := SomeEvalAll(es);
          EvalAllWithin(es, t);
          ExprsEvents(es);
          SilentSteps(x, env, t);
      }
  }

  lemma {:induction false} ReachExprs(x: string, env: Env, es: Exprs, st: State) returns (t: Trace)
    requires FitEs(es, x) && SharpEs(es, x) && Meets(x, env, st)
    ensures EvalAll(es, t) && Meets(x, Steps(x, env, t), AwExprs(es, st))
    decreases es
  {
    if es.ENil? {
      t := [];
    } else {
      var t0 := ReachExpr(x, env, es.head, st);
      var t1 := ReachExprs(x, Steps(x, env, t0), es.tail, AwExpr(es.head, st));
      StepsConcat(x, env, t0, t1);
      t := t0 + t1;
    }
  }

  /** A report new in `st'`. */
  ghost predicate New(x: string, n: nat, st: State, st': State) {
    Site(x, n) in st'.reports && Site(x, n) !in st.reports
  }

  lemma {:induction false} WitnessExpr(x: string, env: Env, e: Expr, n: nat, st: State) returns (t: Trace)
    requires FitE(e, x) && SharpE(e, x) && Meets(x, env, st) && New(x, n, st, AwExpr(e, st))
    ensures Eval(e, t) && n in SecondAwaits(x, env, t)
    decreases e
  {
    match e
    case Await(h, m) =>
      if New(x, n, st, AwExpr(h, st)) {
        t := WitnessExpr(x, env, h, n, st);
        assert t + [] == t;
      } else {
        var t0 := [Read(x, h.site)];
        SilentSteps(x, env, t0);
        StepsLast(x, env, t0, Awaited(x, m));
        t := t0 + [Awaited(x, m)];
        assert h == Ident(x, h.site) && Eval(h, t0) && m == n;
      }
    case Logical(l, r) =>
      if New(x, n, st, AwExpr(l, st)) {
        t := WitnessExpr(x, env, l, n, st);
      } else {
        var t0 := ReachExpr(x, env, l, st);
        var t1 := WitnessExpr(x, Steps(x, env, t0), r, n, AwExpr(l, st));
        StepsConcat(x, env, t0, t1);
        t := t0 + t1;
      }
    case Compound(k, es) =>
      match k
      case Operator => t := WitnessExprs(x, env, es, n, st);
      case Place => t := WitnessExprs(x, env, es, n, st);
      case CallExpr =>
        var t0 := SomeEval(es.head);
        EvalSilent(x, env, es.head, t0);
        var t1 := WitnessExprs(x, env, es.tail, n, st);
        StepsConcat(x, env, t0, t1);
        t := t0 + t1;
  }

  lemma {:induction false} WitnessExprs(x: string, env: Env, es: Exprs, n: nat, st: State) returns (t: Trace)
    requires FitEs(es, x) && SharpEs(es, x) && Meets(x, env, st) && New(x, n, st, AwExprs(es, st))
    ensures EvalAll(es, t) && n in SecondAwaits(x, env, t)
    decreases es
  {
    var st1 := AwExpr(es.head, st);
    var t0, t1;
    if New(x, n, st, st1) {
      t0 := WitnessExpr(x, env, es.head, n, st);
      t1 := SomeEvalAll(es.tail);
    } else {
      t0 := ReachExpr(x, env, es.head, st);
      t1 := WitnessExprs(x, Steps(x, env, t0), es.tail, n, st1);
    }
    StepsConcat(x, env, t0, t1);
    t := t0 + t1;
  }

  /** Like Saves, from the walk to the run. */
  ghost predicate SavesMeet(x: string, env: Env, saved: map<string, bool>) {
    env.Scope? && (if x in saved then env.cell != Unbound && (saved[x] ==> Lookup(env.outer) == Used) else env.cell == Unbound)
  }

  lemma SavesMeetNext(x: string, env: Env, s: Stmt, t: Trace, st: State, saved: map<string, bool>)
    requires Exec(s, t, Normal) && Fit(s, x) && Meets(x, env, st) && SavesMeet(x, env, saved)
    ensures SavesMeet(x, Steps(x, env, t), Shadow(s, st.names, saved))
  {
    Shape(x, env, s, t, Normal);
    if BindsHere(s, x) { BinderFresh(x, env, s, t); }
  }

  lemma ReachSimple(x: string, env: Env, s: Stmt, st: State) returns (t: Trace)
    requires Simple(s) && Passes(s) && Fit(s, x) && Sharp(s, x) && Meets(x, env, st) && env.Scope?
    ensures Exec(s, t, Normal) && Meets(x, Steps(x, env, t), AwStmt(s, st))
  {
    match s
    case Decl(y, NoInit) => t := [Declare(y)]; StepsLast(x, env, [], Declare(y)); assert [] + [Declare(y)] == t;
    case Decl(y, Zeroed) => t := [Bind({y})]; StepsLast(x, env, [], Bind({y})); assert [] + [Bind({y})] == t;
    case Decl(y, Value(e)) =>
      var t0 := ReachExpr(x, env, e, st);
      ShapeEval(x, env, e, t0);
      StepsLast(x, env, t0, Bind({y}));
      t := t0 + [Bind({y})];
    case Spawn(h) => t := [Bind({h})]; StepsLast(x, env, [], Bind({h})); assert [] + [Bind({h})] == t;
    case Assign(target, compound, v) => t := ReachAssign(x, env, s, st);
    case ExprStmt(e) => t := ReachExpr(x, env, e, st);
  }

  lemma ReachAssign(x: string, env: Env, s: Stmt, st: State) returns (t: Trace)
    requires s.Assign? && Fit(s, x) && Sharp(s, x) && Meets(x, env, st)
    ensures Exec(s, t, Normal) && Meets(x, Steps(x, env, t), AwStmt(s, st))
  {
    var Assign(target, compound, v) := s;
    var t0 := ReachExpr(x, env, v, st);
    var t1 := SomeStore(target, compound);
    StepsConcat(x, env, t0, t1);
    t := t0 + t1;
    var mid := Steps(x, env, t0);
    if target.Ident? {
      var pre := if compound then [Read(target.name, target.site)] else [];
      SilentSteps(x, mid, pre);
      StepsLast(x, mid, pre, Write(target.name));
    } else {
      EvalSilent(x, mid, target, t1);
    }
  }

  /** If the walk passes a statement, some run does, with the handle awaited if the walk says so. */
  lemma {:induction false} Reach(x: string, env: Env, s: Stmt, st: State) returns (t: Trace)
    requires Passes(s) && Fit(s, x) && Sharp(s, x) && Meets(x, env, st) && env.Scope?
    ensures Exec(s, t, Normal) && Meets(x, Steps(x, env, t), AwStmt(s, st))
    decreases s
  {
    if Simple(s) {
      t := ReachSimple(x, env, s, st);
    } else if s.Block? {
      t := ReachBlock(x, env, s.stmts, st);
    } else if s.If? {
      t := ReachIf(x, env, s, st);
    } else if s.Match? {
      t := ReachMatch(x, env, s, st);
    } else {
      t := ReachLoop(x, env, s, st);
    }
  }

  lemma {:induction false} ReachAll(x: string, env: Env, ss: Stmts, st: State, saved: map<string, bool>) returns (t: Trace)
    requires PassesAll(ss) && FitAll(ss, x) && SharpAll(ss, x) && Meets(x, env, st) && SavesMeet(x, env, saved)
    ensures ExecAll(ss, t, Normal)
    ensures var r := AwAll(ss, st, saved); Meets(x, Steps(x, env, t), r.0) && SavesMeet(x, Steps(x, env, t), r.1)
    decreases ss, 0
  {
    match ss
    case SNil => t := [];
    case SCons(s, rest) =>
      var t0 := Reach(x, env, s, st);
      SavesMeetNext(x, env, s, t0, st, saved);
      var t1 := ReachAll(x, Steps(x, env, t0), rest, AwStmt(s, st), Shadow(s, st.names, saved));
      StepsConcat(x, env, t0, t1);
      t := t0 + t1;
  }

  lemma {:induction false} ReachBlock(x: string, env: Env, ss: Stmts, st: State) returns (t: Trace)
    requires PassesAll(ss) && FitAll(ss, x) && SharpAll(ss, x) && Meets(x, env, st)
    ensures ExecBlock(ss, t, Normal) && Meets(x, Steps(x, env, t), AwBlock(ss, st))
    decreases ss, 1
  {
    var inner := Scope(Unbound, env);
    var t0 := ReachAll(x, inner, ss, st, map[]);
    StepsBlock(x, env, t0);
    ShapeAll(x, inner, ss, t0, Normal);
    t := [Enter] + t0 + [Exit];
  }

  /** A block in a scope that may bind `x` itself, if it does not await it. */
  lemma {:induction false} ReachScoped(x: string, env: Env, ys: set<string>, ss: Stmts, st: State) returns (t: Trace)
    requires PassesAll(ss) && FitAll(ss, x) && SharpAll(ss, x) && Meets(x, env, st) && (x !in ys || Mute(ss, x))
    ensures ExecScoped(ys, ss, t, Normal) && Meets(x, Steps(x, env, t), AwBlock(ss, st))
    decreases ss, 2
  {
    var inner := ScopeOf(x, ys, env);
    var t0 := ReachBlock(x, inner, ss, if x in ys then st.(names := st.names - {x}) else st);
    ShapeBlock(x, inner, ss, t0, Normal);
    StepsScoped(x, env, ys, t0);
    t := [Enter, Bind(ys)] + t0 + [Exit];
    if x in ys {
      ShapeScoped(x, env, ys, ss, t, Normal);
      MuteBlock(x, ss, st);
      PassesLiveAll(ss);
      DiesBlock(ss, st);
    }
  }

  // ---- branches

  ghost predicate Holds(x: string, st: State) { !st.dead && x in st.names }

  /** The first arm is taken; its condition does not await `x`. */
  lemma {:induction false} ReachArm(x: string, env: Env, arms: Arms, names: set<string>, reports: set<Site>) returns (t: Trace)
    requires arms.Arm? && PassesAll(arms.body) && FitArms(arms, x) && SharpArms(arms, x) && (x in names ==> Lookup(env) == Used)
    ensures ExecArms(arms, t, Normal)
    ensures Meets(x, Steps(x, env, t), AwBlock(arms.body, AwExpr(arms.cond, State(names, false, reports))))
    decreases arms.body, 3
  {
    var st := State(names, false, reports);
    var t0 := SomeEval(arms.cond);
    EvalSilent(x, env, arms.cond, t0);
    MuteExpr(x, arms.cond, st);
    ReportsExpr(arms.cond, st);
    var t1 := ReachScoped(x, env, arms.binds, arms.body, AwExpr(arms.cond, st));
    StepsConcat(x, env, t0, t1);
    t := t0 + t1;
  }

  /** Some arm is passed; where nothing assigns `x`, it stays awaited. */
  lemma {:induction false} PassArms(x: string, env: Env, arms: Arms, names: set<string>) returns (t: Trace)
    requires PassesArms(arms) && FitArms(arms, x) && SharpArms(arms, x) && (x in names ==> Lookup(env) == Used)
    ensures ExecArms(arms, t, Normal)
    ensures x in names && Write(x) !in EventsArms(arms) ==> Lookup(Steps(x, env, t)) == Used
    decreases arms
  {
    match arms
    case NoElse => t := [];
    case Else(b) =>
      t := PassBlock(x, env, b, names);
    case Arm(c, ys, b, rest) =>
      if PassesAll(b) {
        t := ReachArm(x, env, arms, names, {});
        ReportsExpr(c, State(names, false, {}));
        if x in names && Write(x) !in EventsArms(arms) { KeepsBlock(x, b, AwExpr(c, State(names, false, {}))); }
      } else {
        var t0 := SomeEval(c);
        EvalSilent(x, env, c, t0);
        var t1 := PassArms(x, env, rest, names);
        StepsConcat(x, env, t0, t1);
        t := t0 + t1;
      }
  }

  lemma {:induction false} PassBlock(x: string, env: Env, b: Stmts, names: set<string>) returns (t: Trace)
    requires PassesAll(b) && FitAll(b, x) && SharpAll(b, x) && (x in names ==> Lookup(env) == Used)
    ensures ExecBlock(b, t, Normal)
    ensures x in names && Write(x) !in EventsAll(b) ==> Lookup(Steps(x, env, t)) == Used
    decreases b, 2
  {
    t := ReachBlock(x, env, b, State(names, false, {}));
    if x in names && Write(x) !in EventsAll(b) { KeepsBlock(x, b, State(names, false, {})); }
  }

  /** A block through which the walk holds `x` awaited can be passed with it awaited, unless it is stuck. */
  lemma {:induction false} GenBlock(x: string, env: Env, b: Stmts, st: State) returns (t: Trace)
    requires FitAll(b, x) && SharpArm(b, x) && Meets(x, env, st) && (Stuck(b) ==> x !in st.names)
    requires Holds(x, AwBlock(b, st))
    ensures PassesAll(b) && ExecBlock(b, t, Normal) && Lookup(Steps(x, env, t)) == Used
    decreases b, 2
  {
    DiesBlock(b, st);
    if Stuck(b) { MuteBlock(x, b, st); }
    t := ReachBlock(x, env, b, st);
  }

  lemma {:induction false} GenArms(x: string, env: Env, arms: Arms, names: set<string>, out: State) returns (t: Trace)
    requires FitArms(arms, x) && SharpArms(arms, x) && (x in names ==> Lookup(env) == Used) && (AnyStuck(arms) ==> x !in names)
    requires !Holds(x, out) && Holds(x, AwArms(arms, names, out))
    ensures ExecArms(arms, t, Normal) && Lookup(Steps(x, env, t)) == Used
    decreases arms
  {
    match arms
    case NoElse => t := [];
    case Else(b) =>
      var st := State(names, false, out.reports);
      assert AwArms(arms, names, out) == Join(out.(reports := AwBlock(b, AwExpr(Leaf, st)).reports), AwBlock(b, AwExpr(Leaf, st)));
      t := GenBlock(x, env, b, st);
    case Arm(c, ys, b, rest) =>
      var out1 := AwBranch(c, b, names, out);
      if Holds(x, out1) {
        var st1 := AwExpr(c, State(names, false, out.reports));
        ReportsExpr(c, State(names, false, out.reports));
        MuteExpr(x, c, State(names, false, out.reports));
        DiesBlock(b, st1);
        if Stuck(b) { MuteBlock(x, b, st1); }
        t := ReachArm(x, env, arms, names, out.reports);
      } else {
        var t0 := SomeEval(c);
        EvalSilent(x, env, c, t0);
        var t1 := GenArms(x, env, rest, names, out1);
        StepsConcat(x, env, t0, t1);
        t := t0 + t1;
      }
  }

  lemma {:induction false} ReachMatch(x: string, env: Env, s: Stmt, st: State) returns (t: Trace)
    requires s.Match? && Passes(s) && Fit(s, x) && Sharp(s, x) && Meets(x, env, st)
    ensures Exec(s, t, Normal) && Meets(x, Steps(x, env, t), AwStmt(s, st))
    decreases s, 0
  {
    var t0 := ReachExpr(x, env, s.subject, st);
    var mid, st1 := Steps(x, env, t0), AwExpr(s.subject, st);
    var out := st1.(names := {}, dead := true);
    PassesLive(s);
    DiesExact(s, st);
    var t1;
    if Holds(x, AwStmt(s, st)) && !(AnyStuck(s.cases) && x in st1.names) {
      t1 := GenArms(x, mid, s.cases, st1.names, out);
    } else {
      t1 := PassArms(x, mid, s.cases, st1.names);
    }
    StepsConcat(x, env, t0, t1);
    t := t0 + t1;
  }

  lemma {:induction false} ReachIf(x: string, env: Env, s: Stmt, st: State) returns (t: Trace)
    requires s.If? && Passes(s) && Fit(s, x) && Sharp(s, x) && Meets(x, env, st)
    ensures Exec(s, t, Normal) && Meets(x, Steps(x, env, t), AwStmt(s, st))
    decreases s, 0
  {
    var t0 := ReachExpr(x, env, s.cond, st);
    var mid, st1 := Steps(x, env, t0), AwExpr(s.cond, st);
    var out := st1.(names := {}, dead := true);
    var first := AwBranch(Leaf, s.body, st1.names, out);
    PassesLive(s);
    DiesExact(s, st);
    var t1;
    if Holds(x, AwStmt(s, st)) && !((Stuck(s.body) || AnyStuck(s.rest)) && x in st1.names) {
      if Holds(x, first) {
        t1 := GenBlock(x, mid, s.body, State(st1.names, false, out.reports));
      } else {
        t1 := GenArms(x, mid, s.rest, st1.names, first);
      }
    } else if PassesAll(s.body) {
      t1 := PassBlock(x, mid, s.body, st1.names);
    } else {
      t1 := PassArms(x, mid, s.rest, st1.names);
    }
    StepsConcat(x, env, t0, t1);
    t := t0 + t1;
  }

  // ---- loops

  lemma SilentBegin(x: string, env: Env, s: Stmt, head: Trace)
    requires Loop(s) && Fit(s, x) && Eval(HeadOf(s), head)
    ensures Steps(x, env, Begin(s, head)) == env && SecondAwaits(x, env, Begin(s, head)) == {}
  {
    if s.While? { EvalSilent(x, env, s.cond, head); }
  }

  /** Another round in front. */
  lemma OneMore(x: string, env: Env, s: Stmt, t0: Trace, t1: Trace, o1: Outcome, n: nat, t2: Trace, o: Outcome) returns (t: Trace)
    requires Loop(s) && Fit(s, x) && Eval(HeadOf(s), t0) && Turn(s, t1, o1) && LoopsOn(o1) && Rounds(s, n, t2, o)
    ensures Rounds(s, n + 1, t, o) && Steps(x, env, t) == Steps(x, Steps(x, env, t1), t2)
    ensures SecondAwaits(x, env, t) == SecondAwaits(x, env, t1) + SecondAwaits(x, Steps(x, env, t1), t2)
  {
    OneMoreRound(s, t0, t1, o1, n, t2, o);
    SilentBegin(x, env, s, t0);
    StepsConcat(x, env, t1, t2);
    StepsConcat(x, env, Begin(s, t0), t1 + t2);
    t := Begin(s, t0) + (t1 + t2);
  }

  /** The body entered once, `t1` being its run. */
  lemma OneRound(x: string, env: Env, s: Stmt, t0: Trace, t1: Trace, o1: Outcome) returns (n: nat, t: Trace, o: Outcome)
    requires Loop(s) && Fit(s, x) && Eval(HeadOf(s), t0) && Turn(s, t1, o1)
    ensures Rounds(s, n, t, o) && SecondAwaits(x, env, t1) <= SecondAwaits(x, env, t)
    ensures o1 == Normal ==> o == Normal && Steps(x, env, t) == Steps(x, env, t1)
  {
    n := 1;
    if LoopsOn(o1) {
      NoRounds(s, t0);
      SilentBegin(x, Steps(x, env, t1), s, t0);
      t := OneMore(x, env, s, t0, t1, o1, 0, Begin(s, t0), Normal);
      o := Normal;
    } else {
      LastRound(s, t0, t1, o1);
      SilentBegin(x, env, s, t0);
      StepsConcat(x, env, Begin(s, t0), t1);
      t, o := Begin(s, t0) + t1, LoopExit(o1);
    }
  }

  /** The head and the rounds make a run of the loop. */
  lemma LoopRun(x: string, env: Env, s: Stmt, t0: Trace, n: nat, t1: Trace, o: Outcome) returns (t: Trace)
    requires Loop(s) && Fit(s, x) && Eval(HeadOf(s), t0) && Rounds(s, n, t1, o)
    ensures Exec(s, t, o) && Steps(x, env, t) == Steps(x, Steps(x, env, t0), t1)
    ensures SecondAwaits(x, Steps(x, env, t0), t1) <= SecondAwaits(x, env, t)
  {
    StepsConcat(x, env, t0, t1);
    WholeLoop(s, t0, n, t1, o);
    if s.While? { EvalSilent(x, env, s.cond, t0); }
    t := if s.While? then t1 else t0 + t1;
  }

  /** The body of a loop, passed with `x` awaited if the walk holds it. */
  lemma {:induction false} ReachBody(x: string, env: Env, s: Stmt, st: State) returns (t: Trace)
    requires Loop(s) && Fit(s, x) && Sharp(s, x) && PassesAll(s.body) && Meets(x, env, st)
    ensures Turn(s, t, Normal)
    ensures Meets(x, Steps(x, env, t), AwBlock(s.body, st))
    decreases s.body, 3
  {
    if s.While? {
      t := ReachBlock(x, env, s.body, st);
    } else {
      t := ReachScoped(x, env, {s.loopVar}, s.body, st);
    }
  }

  lemma {:induction false} ReachLoop(x: string, env: Env, s: Stmt, st: State) returns (t: Trace)
    requires Loop(s) && Fit(s, x) && Sharp(s, x) && Meets(x, env, st)
    ensures Exec(s, t, Normal) && Meets(x, Steps(x, env, t), AwStmt(s, st))
    decreases s, 0
  {
    var t0 := ReachHead(x, env, s, st);
    var mid, st1 := Steps(x, env, t0), AwExpr(HeadOf(s), st);
    var it := AwBlock(s.body, st1);
    if x in AwStmt(s, st).names && x !in st1.names {
      if Mute(s.body, x) { MuteLoop(x, s.body, st1); }
      PassesLiveAll(s.body);
      DiesBlock(s.body, st1);
      TwoPassesSuffice(s.body, st1);
      var t1 := ReachBody(x, mid, s, st1);
      var n, t2, o := OneRound(x, mid, s, t0, t1, Normal);
      t := LoopRun(x, env, s, t0, n, t2, o);
    } else {
      NoRounds(s, t0);
      SilentBegin(x, mid, s, t0);
      t := LoopRun(x, env, s, t0, 0, Begin(s, t0), Normal);
    }
  }

  lemma ReachHead(x: string, env: Env, s: Stmt, st: State) returns (t: Trace)
    requires Loop(s) && Fit(s, x) && Sharp(s, x) && Meets(x, env, st)
    ensures Eval(HeadOf(s), t) && Meets(x, Steps(x, env, t), AwExpr(HeadOf(s), st))
  {
    if s.While? {
      t := SomeEval(s.cond);
      EvalSilent(x, env, s.cond, t);
      MuteExpr(x, s.cond, st);
      ReportsExpr(s.cond, st);
    } else {
      t := ReachExpr(x, env, s.iterable, st);
    }
  }

  // ---------------------------------------------------------------- a run for every report

  lemma {:induction false} DeadAll(ss: Stmts, st: State, saved: map<string, bool>)
    requires st.dead
    ensures AwAll(ss, st, saved).0 == st
    decreases ss
  {
    if ss.SCons? { DeadAll(ss.tail, st, Shadow(ss.head, st.names, saved)); }
  }

  lemma {:induction false} Witness(x: string, env: Env, s: Stmt, n: nat, st: State) returns (t: Trace, o: Outcome)
    requires Fit(s, x) && Sharp(s, x) && Meets(x, env, st) && New(x, n, st, AwStmt(s, st))
    ensures Exec(s, t, o) && n in SecondAwaits(x, env, t)
    decreases s, 2
  {
    if s.Block? {
      t, o := WitnessBlock(x, env, s.stmts, n, st);
    } else if s.If? {
      t, o := WitnessIf(x, env, s, n, st);
    } else if s.Match? {
      t, o := WitnessMatch(x, env, s, n, st);
    } else if Loop(s) {
      t, o := WitnessLoop(x, env, s, n, st);
    } else {
      t, o := WitnessSimple(x, env, s, n, st);
    }
  }

  lemma WitnessSimple(x: string, env: Env, s: Stmt, n: nat, st: State) returns (t: Trace, o: Outcome)
    requires Simple(s) && Fit(s, x) && Sharp(s, x) && Meets(x, env, st) && New(x, n, st, AwStmt(s, st))
    ensures Exec(s, t, o) && n in SecondAwaits(x, env, t)
  {
    o := Normal;
    match s
    case Decl(y, Value(e)) =>
      var t0 := WitnessExpr(x, env, e, n, st);
      StepsConcat(x, env, t0, [Bind({y})]);
      t := t0 + [Bind({y})];
    case Assign(target, compound, v) =>
      var t0 := WitnessExpr(x, env, v, n, st);
      var t1 := SomeStore(target, compound);
      StepsConcat(x, env, t0, t1);
      t := t0 + t1;
    case Return(e) =>
      t := WitnessExpr(x, env, e, n, st);
      o := Returned;
    case ExprStmt(e) => t := WitnessExpr(x, env, e, n, st);
  }

  lemma {:induction false} WitnessAll(x: string, env: Env, ss: Stmts, n: nat, st: State, saved: map<string, bool>) returns (t: Trace, o: Outcome)
    requires FitAll(ss, x) && SharpAll(ss, x) && Meets(x, env, st) && SavesMeet(x, env, saved)
    requires New(x, n, st, AwAll(ss, st, saved).0)
    ensures ExecAll(ss, t, o) && n in SecondAwaits(x, env, t)
    decreases ss, 0
  {
    var SCons(s, rest) := ss;
    var st1, saved1 := AwStmt(s, st), Shadow(s, st.names, saved);
    if New(x, n, st, st1) {
      t, o := Witness(x, env, s, n, st);
      if o == Normal {
        var t1;
        t1, o := SomeAllRun(rest);
        StepsConcat(x, env, t, t1);
        t := t + t1;
      }
    } else {
      if st1.dead { DeadAll(rest, st1, saved1); }
      DiesExact(s, st);
      if !Passes(s) { MuteAll(x, rest, st1, saved1); }
      var t0 := Reach(x, env, s, st);
      SavesMeetNext(x, env, s, t0, st, saved);
      var t1;
      t1, o := WitnessAll(x, Steps(x, env, t0), rest, n, st1, saved1);
      StepsConcat(x, env, t0, t1);
      t := t0 + t1;
    }
  }

  lemma {:induction false} WitnessBlock(x: string, env: Env, ss: Stmts, n: nat, st: State) returns (t: Trace, o: Outcome)
    requires FitAll(ss, x) && SharpAll(ss, x) && Meets(x, env, st) && New(x, n, st, AwBlock(ss, st))
    ensures ExecBlock(ss, t, o) && n in SecondAwaits(x, env, t)
    decreases ss, 1
  {
    var inner := Scope(Unbound, env);
    var t0;
    t0, o := WitnessAll(x, inner, ss, n, st, map[]);
    ShapeAll(x, inner, ss, t0, o);
    StepsBlock(x, env, t0);
    t := [Enter] + t0 + [Exit];
  }

  lemma {:induction false} WitnessScoped(x: string, env: Env, ys: set<string>, ss: Stmts, n: nat, st: State) returns (t: Trace, o: Outcome)
    requires FitAll(ss, x) && SharpAll(ss, x) && (x !in ys || Mute(ss, x)) && Meets(x, env, st) && New(x, n, st, AwBlock(ss, st))
    ensures ExecScoped(ys, ss, t, o) && n in SecondAwaits(x, env, t)
    decreases ss, 2
  {
    if Mute(ss, x) { MuteBlock(x, ss, st); }
    var inner := ScopeOf(x, ys, env);
    var t0;
    t0, o := WitnessBlock(x, inner, ss, n, st);
    ShapeBlock(x, inner, ss, t0, o);
    StepsScoped(x, env, ys, t0);
    t := [Enter, Bind(ys)] + t0 + [Exit];
  }

  lemma {:induction false} WitnessArms(x: string, env: Env, arms: Arms, n: nat, names: set<string>, out: State) returns (t: Trace, o: Outcome)
    requires FitArms(arms, x) && SharpArms(arms, x) && (x in names ==> Lookup(env) == Used) && New(x, n, out, AwArms(arms, names, out))
    ensures ExecArms(arms, t, o) && n in SecondAwaits(x, env, t)
    decreases arms
  {
    var st := State(names, false, out.reports);
    match arms
    case Else(b) =>
      assert AwArms(arms, names, out) == Join(out.(reports := AwBlock(b, AwExpr(Leaf, st)).reports), AwBlock(b, AwExpr(Leaf, st)));
      t, o := WitnessBlock(x, env, b, n, st);
    case Arm(c, ys, b, rest) =>
      var out1 := AwBranch(c, b, names, out);
      var t0 := SomeEval(c);
      EvalSilent(x, env, c, t0);
      MuteExpr(x, c, st);
      ReportsExpr(c, st);
      var t1;
      if New(x, n, out, out1) {
        t1, o := WitnessScoped(x, env, ys, b, n, AwExpr(c, st));
      } else {
        t1, o := WitnessArms(x, env, rest, n, names, out1);
      }
      StepsConcat(x, env, t0, t1);
      t := t0 + t1;
  }

  lemma {:induction false} WitnessMatch(x: string, env: Env, s: Stmt, n: nat, st: State) returns (t: Trace, o: Outcome)
    requires s.Match? && Fit(s, x) && Sharp(s, x) && Meets(x, env, st) && New(x, n, st, AwStmt(s, st))
    ensures Exec(s, t, o) && n in SecondAwaits(x, env, t)
    decreases s, 1
  {
    var Match(e, cases) := s;
    var st1 := AwExpr(e, st);
    var t0, t1;
    if New(x, n, st, st1) {
      t0 := WitnessExpr(x, env, e, n, st);
      t1, o := SomeArmsRun(cases);
    } else {
      t0 := ReachExpr(x, env, e, st);
      t1, o := WitnessArms(x, Steps(x, env, t0), cases, n, st1.names, st1.(names := {}, dead := true));
    }
    StepsConcat(x, env, t0, t1);
    t := t0 + t1;
  }

  lemma {:induction false} WitnessIf(x: string, env: Env, s: Stmt, n: nat, st: State) returns (t: Trace, o: Outcome)
    requires s.If? && Fit(s, x) && Sharp(s, x) && Meets(x, env, st) && New(x, n, st, AwStmt(s, st))
    ensures Exec(s, t, o) && n in SecondAwaits(x, env, t)
    decreases s, 1
  {
    var If(c, b, rest) := s;
    var st1 := AwExpr(c, st);
    var t0, t1;
    if New(x, n, st, st1) {
      t0 := WitnessExpr(x, env, c, n, st);
      t1, o := SomeBlockRun(b);
    } else {
      t0 := ReachExpr(x, env, c, st);
      t1, o := WitnessBranches(x, Steps(x, env, t0), s, n, st1);
    }
    StepsConcat(x, env, t0, t1);
    t := t0 + t1;
  }

  lemma {:induction false} WitnessBranches(x: string, env: Env, s: Stmt, n: nat, st: State) returns (t: Trace, o: Outcome)
    requires s.If? && Fit(s, x) && Sharp(s, x) && Meets(x, env, st)
    requires var out := st.(names := {}, dead := true);
             New(x, n, st, AwArms(s.rest, st.names, AwBranch(Leaf, s.body, st.names, out)))
    ensures (ExecBlock(s.body, t, o) || ExecArms(s.rest, t, o)) && n in SecondAwaits(x, env, t)
    decreases s, 0
  {
    var out := st.(names := {}, dead := true);
    var first := AwBranch(Leaf, s.body, st.names, out);
    if New(x, n, st, first) {
      t, o := WitnessBlock(x, env, s.body, n, State(st.names, false, out.reports));
    } else {
      t, o := WitnessArms(x, env, s.rest, n, st.names, first);
    }
  }

  lemma {:induction false} WitnessBody(x: string, env: Env, s: Stmt, n: nat, st: State) returns (t: Trace, o: Outcome)
    requires Loop(s) && Fit(s, x) && Sharp(s, x) && Meets(x, env, st) && New(x, n, st, AwBlock(s.body, st))
    ensures Turn(s, t, o) && n in SecondAwaits(x, env, t)
    decreases s.body, 3
  {
    if s.While? {
      t, o := WitnessBlock(x, env, s.body, n, st);
    } else {
      t, o := WitnessScoped(x, env, {s.loopVar}, s.body, n, st);
    }
  }

  lemma {:induction false} WitnessLoop(x: string, env: Env, s: Stmt, n: nat, st: State) returns (t: Trace, o: Outcome)
    requires Loop(s) && Fit(s, x) && Sharp(s, x) && Meets(x, env, st) && New(x, n, st, AwStmt(s, st))
    ensures Exec(s, t, o) && n in SecondAwaits(x, env, t)
    decreases s, 1
  {
    var st1 := AwExpr(HeadOf(s), st);
    if New(x, n, st, st1) {
      if s.While? { MuteExpr(x, s.cond, st); }
      var t0 := WitnessExpr(x, env, s.iterable, n, st);
      RunNoFor(s.loopVar, s.iterable, s.body, t0);
      t, o := t0, Normal;
    } else {
      var t0 := ReachHead(x, env, s, st);
      var k, t1;
      k, t1, o := WitnessRounds(x, Steps(x, env, t0), s, t0, n, st1);
      t := LoopRun(x, env, s, t0, k, t1, o);
    }
  }

  /** A report of the first pass happens in the first round, one of the second in the first or second. */
  lemma {:induction false} WitnessRounds(x: string, env: Env, s: Stmt, t0: Trace, n: nat, st: State) returns (k: nat, t: Trace, o: Outcome)
    requires Loop(s) && Fit(s, x) && Sharp(s, x) && Meets(x, env, st) && Eval(HeadOf(s), t0) && New(x, n, st, AwLoop(s.body, st))
    ensures Rounds(s, k, t, o) && n in SecondAwaits(x, env, t)
    decreases s.body, 4
  {
    var it := AwBlock(s.body, st);
    var again := SecondPass(it, st);
    if Mute(s.body, x) { MuteLoop(x, s.body, st); }
    PassesLiveAll(s.body);
    DiesBlock(s.body, st);
    if New(x, n, st, it) || x !in it.names || x in st.names {
      var t1, o1 := WitnessBody(x, env, s, n, if New(x, n, st, it) then st else again);
      k, t, o := OneRound(x, env, s, t0, t1, o1);
    } else {
      var t1 := ReachBody(x, env, s, st);
      var mid := Steps(x, env, t1);
      var t2, o2 := WitnessBody(x, mid, s, n, again);
      var t3;
      k, t3, o := OneRound(x, mid, s, t0, t2, o2);
      t := OneMore(x, env, s, t0, t1, Normal, k, t3, o);
      k := k + 1;
    }
  }

  /** Await-once is exact: where the walk looks everywhere and follows only paths that exist, the
      reported awaits of `x` are precisely those that in some run await a handle already awaited. */
  lemma AwaitOnceExact(body: Stmts, x: string, n: nat)
    requires FitAll(body, x) && SharpAll(body, x)
    ensures Site(x, n) in AwBlock(body, Start()).reports
       <==> exists t, o :: ExecBlock(body, t, o) && n in SecondAwaits(x, Top(false), t)
  {
    if Site(x, n) in AwBlock(body, Start()).reports {
      var t, o := WitnessBlock(x, Top(false), body, n, Start());
      assert ExecBlock(body, t, o) && n in SecondAwaits(x, Top(false), t);
    }
    forall t, o | ExecBlock(body, t, o) && n in SecondAwaits(x, Top(false), t)
      ensures Site(x, n) in AwBlock(body, Start()).reports
    {
      AwaitOnceSound(body, x, t, o);
    }
  }
}
