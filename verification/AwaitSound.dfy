/**
 Soundness of the await-once analysis: if some run awaits a handle that was awaited before, with no
 fresh binding or reassignment in between, the second await is reported.
 */
module AwaitSound {
  import opened IronCore
  import opened Options
  import opened AwaitOnce

  // ---------------------------------------------------------------- handles at run time

  /** What a scope knows about one name: not bound here, bound to a handle not awaited yet, or awaited. */
  datatype Cell = Unbound | Fresh | Used

  /** The open scopes, innermost first, down to the parameters and globals. */
  datatype Env = Top(used: bool) | Scope(cell: Cell, outer: Env)

  function Lookup(env: Env): Cell {
    match env
    case Top(u) => if u then Used else Fresh
    case Scope(c, o) => if c == Unbound then Lookup(o) else c
  }

  /** The handle the name refers to is awaited, or replaced by a fresh one. */
  function Update(env: Env, c: Cell): Env {
    match env
    case Top(_) => Top(c == Used)
    case Scope(d, o) => if d == Unbound then Scope(d, Update(o, c)) else Scope(c, o)
  }

  function Rebind(env: Env): Env {
    if env.Scope? then Scope(Fresh, env.outer) else Top(false)
  }

  function Step(x: string, env: Env, ev: Event): Env {
    match ev
    case Awaited(y, _) => if y == x then Update(env, Used) else env
    case Write(y) => if y == x then Update(env, Fresh) else env
    case Declare(y) => if y == x then Rebind(env) else env
    case Bind(ys) => if x in ys then Rebind(env) else env
    case Enter => Scope(Unbound, env)
    case Exit => if env.Scope? then env.outer else env
    case Read(_, _) => env
  }

  function Steps(x: string, env: Env, t: Trace): Env
    decreases |t|
  {
    if t == [] then env else Steps(x, Step(x, env, t[0]), t[1..])
  }

  /** The sites where the run awaits the handle `x` a second time. */
  function SecondAwaits(x: string, env: Env, t: Trace): set<nat>
    decreases |t|
  {
    if t == [] then {}
    else (if t[0].Awaited? && t[0].name == x && Lookup(env) == Used then {t[0].site} else {})
         + SecondAwaits(x, Step(x, env, t[0]), t[1..])
  }

  // ---------------------------------------------------------------- the fragment

  predicate NoAwait(evs: set<Event>, x: string) {
    forall ev :: ev in evs && ev.Awaited? ==> ev.name != x
  }

  /** No await of `x` hides where aw_expr does not look: in a callee, rc, heap, is, slice or enum. */
  predicate FitE(e: Expr, x: string) {
    match e
    case Leaf => true
    case Ident(_, _) => true
    case Await(h, _) => FitE(h, x)
    case Logical(l, r) => FitE(l, x) && FitE(r, x)
    case Compound(k, es) =>
      match k
      case Operator => FitEs(es, x)
      case Place => FitEs(es, x)
      case CallExpr => es.ECons? ==> NoAwait(EventsE(es.head), x) && FitEs(es.tail, x)
      case _ => NoAwait(EventsEs(es), x)
  }

  predicate FitEs(es: Exprs, x: string) {
    es.ECons? ==> FitE(es.head, x) && FitEs(es.tail, x)
  }

  /** A break or continue may leave the statement. */
  predicate Jumps(s: Stmt)
    decreases s
  {
    match s
    case Break => true
    case Continue => true
    case Block(ss) => JumpsAll(ss)
    case If(_, b, rest) => JumpsAll(b) || JumpsArms(rest)
    case Match(_, cases) => JumpsArms(cases)
    case _ => false
  }

  predicate JumpsAll(ss: Stmts)
    decreases ss
  {
    ss.SCons? && (Jumps(ss.head) || JumpsAll(ss.tail))
  }

  predicate JumpsArms(arms: Arms)
    decreases arms
  {
    match arms
    case NoElse => false
    case Else(b) => JumpsAll(b)
    case Arm(_, _, b, rest) => JumpsAll(b) || JumpsArms(rest)
  }

  /** Every path the walk follows through the statement returns. */
  predicate Dies(s: Stmt)
    decreases s
  {
    match s
    case Return(_) => true
    case Block(ss) => DiesAll(ss)
    case If(_, b, rest) => DiesAll(b) && DiesArms(rest)
    case Match(_, cases) => DiesArms(cases)
    case _ => false
  }

  predicate DiesAll(ss: Stmts)
    decreases ss
  {
    ss.SCons? && (Dies(ss.head) || DiesAll(ss.tail))
  }

  predicate DiesArms(arms: Arms)
    decreases arms
  {
    match arms
    case NoElse => false
    case Else(b) => DiesAll(b)
    case Arm(_, _, b, rest) => DiesAll(b) && DiesArms(rest)
  }

  /** `x` is not awaited in the condition of a while or an elif, in an assignment target or in the
      initializer of a binding of the same name; after a break or continue nothing assigns `x` and not
      every path returns; and a pattern that binds `x` leaves it alone. */
  predicate Fit(s: Stmt, x: string)
    decreases s
  {
    match s
    case Decl(y, i) => i.Value? ==> FitE(i.e, x) && (y == x ==> NoAwait(EventsE(i.e), x))
    case Spawn(_) => true
    case Assign(target, _, v) => FitE(v, x) && (target.Ident? || NoAwait(EventsE(target), x))
    case Return(e) => FitE(e, x)
    case Break => true
    case Continue => true
    case ExprStmt(e) => FitE(e, x)
    case Block(ss) => FitAll(ss, x)
    case If(c, b, rest) => FitE(c, x) && FitAll(b, x) && FitArms(rest, x)
    case While(c, b) => NoAwait(EventsE(c), x) && FitAll(b, x)
    case For(_, e, b) => FitE(e, x) && FitAll(b, x)
    case Match(e, cases) => FitE(e, x) && FitArms(cases, x)
  }

  predicate FitAll(ss: Stmts, x: string)
    decreases ss
  {
    ss.SCons? ==>
      && Fit(ss.head, x) && FitAll(ss.tail, x)
      && (Jumps(ss.head) ==> Write(x) !in EventsAll(ss.tail) && !DiesAll(ss.tail))
  }

  predicate FitArms(arms: Arms, x: string)
    decreases arms
  {
    match arms
    case NoElse => true
    case Else(b) => FitAll(b, x)
    case Arm(c, ys, b, rest) =>
      NoAwait(EventsE(c), x) && (x in ys ==> Write(x) !in EventsAll(b)) && FitAll(b, x) && FitArms(rest, x)
  }

  // ---------------------------------------------------------------- control, and names that stay

  /** A run that leaves a statement by break or continue met one. */
  lemma {:induction false} JumpMet(s: Stmt, t: Trace, o: Outcome)
    requires Exec(s, t, o) && (o == Broke || o == Continued)
    ensures Jumps(s)
    decreases s
  {
    match s
    case Block(ss) => JumpMetBlock(ss, t, o);
    case If(c, b, rest) =>
      var t0, t1 :| Eval(c, t0) && t == t0 + t1 && (ExecBlock(b, t1, o) || ExecArms(rest, t1, o));
      if ExecBlock(b, t1, o) { JumpMetBlock(b, t1, o); } else { JumpMetArms(rest, t1, o); }
    case While(c, b) =>
      var n: nat :| ExecWhile(c, b, n, t, o);
      LoopAbsorbs(c, b, n, t, o);
    case For(y, e, b) =>
      var n: nat, t0, t1 :| Eval(e, t0) && ExecFor(y, b, n, t1, o) && t == t0 + t1;
      ForAbsorbs(y, b, n, t1, o);
    case Match(e, cases) =>
      var t0, t1 :| Eval(e, t0) && ExecArms(cases, t1, o) && t == t0 + t1;
      JumpMetArms(cases, t1, o);
    case _ =>
  }

  lemma {:induction false} JumpMetAll(ss: Stmts, t: Trace, o: Outcome)
    requires ExecAll(ss, t, o) && (o == Broke || o == Continued)
    ensures JumpsAll(ss)
    decreases ss, 0
  {
    if Exec(ss.head, t, o) {
      JumpMet(ss.head, t, o);
    } else {
      var t0, t1 :| Exec(ss.head, t0, Normal) && ExecAll(ss.tail, t1, o) && t == t0 + t1;
      JumpMetAll(ss.tail, t1, o);
    }
  }

  lemma {:induction false} JumpMetBlock(ss: Stmts, t: Trace, o: Outcome)
    requires ExecBlock(ss, t, o) && (o == Broke || o == Continued)
    ensures JumpsAll(ss)
    decreases ss, 1
  {
    var t0 :| ExecAll(ss, t0, o) && t == [Enter] + t0 + [Exit];
    JumpMetAll(ss, t0, o);
  }

  lemma {:induction false} JumpMetArms(arms: Arms, t: Trace, o: Outcome)
    requires ExecArms(arms, t, o) && (o == Broke || o == Continued)
    ensures JumpsArms(arms)
    decreases arms
  {
    match arms
    case Else(b) => JumpMetBlock(b, t, o);
    case Arm(c, names, b, rest) =>
      var t0, t1 :| Eval(c, t0) && t == t0 + t1 && (ExecScoped(names, b, t1, o) || ExecArms(rest, t1, o));
      if ExecScoped(names, b, t1, o) {
        var t2 :| ExecBlock(b, t2, o) && t1 == [Enter, Bind(names)] + t2 + [Exit];
        JumpMetBlock(b, t2, o);
      } else {
        JumpMetArms(rest, t1, o);
      }
  }

  lemma {:induction false} LoopAbsorbs(c: Expr, b: Stmts, n: nat, t: Trace, o: Outcome)
    requires ExecWhile(c, b, n, t, o)
    ensures o == Normal || o == Returned
    decreases n, 1
  {
    var t0, t1 :| Eval(c, t0) && WhileRest(c, b, n, t1, o) && t == t0 + t1;
    RestAbsorbs(c, b, n, t1, o);
  }

  lemma {:induction false} RestAbsorbs(c: Expr, b: Stmts, n: nat, t: Trace, o: Outcome)
    requires WhileRest(c, b, n, t, o)
    ensures o == Normal || o == Returned
    decreases n, 0
  {
    if n > 0 {
      var t0, o0, t1 :| ExecBlock(b, t0, o0) && WhileNext(c, b, n - 1, o0, t1, o) && t == t0 + t1;
      if LoopsOn(o0) { LoopAbsorbs(c, b, n - 1, t1, o); }
    }
  }

  lemma {:induction false} ForAbsorbs(y: string, b: Stmts, n: nat, t: Trace, o: Outcome)
    requires ExecFor(y, b, n, t, o)
    ensures o == Normal || o == Returned
    decreases n
  {
    if n > 0 {
      var t0, o0, t1 :| ExecScoped({y}, b, t0, o0) && ForNext(y, b, n - 1, o0, t1, o) && t == t0 + t1;
      if LoopsOn(o0) { ForAbsorbs(y, b, n - 1, t1, o); }
    }
  }

  /** The walk of a live path ends dead exactly when every path returns. */
  lemma {:induction false} DiesExact(s: Stmt, st: State)
    requires !st.dead
    ensures AwStmt(s, st).dead <==> Dies(s)
    decreases s
  {
    match s
    case Decl(_, Value(e)) => ReportsExpr(e, st);
    case Assign(_, _, v) => ReportsExpr(v, st);
    case ExprStmt(e) => ReportsExpr(e, st);
    case Block(ss) => DiesBlock(ss, st);
    case If(c, b, rest) =>
      ReportsExpr(c, st);
      var st1 := AwExpr(c, st);
      var out := st1.(names := {}, dead := true);
      DiesBranch(Leaf, b, st1.names, out);
      DiesArmsExact(rest, st1.names, AwBranch(Leaf, b, st1.names, out));
    case While(c, _) => ReportsExpr(c, st);
    case For(_, e, _) => ReportsExpr(e, st);
    case Match(e, cases) =>
      ReportsExpr(e, st);
      var st1 := AwExpr(e, st);
      DiesArmsExact(cases, st1.names, st1.(names := {}, dead := true));
    case _ =>
  }

  lemma {:induction false} DiesAllExact(ss: Stmts, st: State, saved: map<string, bool>)
    ensures AwAll(ss, st, saved).0.dead <==> st.dead || DiesAll(ss)
    decreases ss, 0
  {
    if ss.SCons? {
      if !st.dead { DiesExact(ss.head, st); }
      DiesAllExact(ss.tail, AwStmt(ss.head, st), Shadow(ss.head, st.names, saved));
    }
  }

  lemma {:induction false} DiesBlock(ss: Stmts, st: State)
    requires !st.dead
    ensures AwBlock(ss, st).dead <==> DiesAll(ss)
    decreases ss, 1
  {
    DiesAllExact(ss, st, map[]);
  }

  lemma {:induction false} DiesBranch(c: Expr, b: Stmts, names: set<string>, out: State)
    ensures AwBranch(c, b, names, out).dead <==> out.dead && DiesAll(b)
    decreases b, 2
  {
    var st := State(names, false, out.reports);
    ReportsExpr(c, st);
    DiesBlock(b, AwExpr(c, st));
  }

  lemma {:induction false} DiesArmsExact(arms: Arms, names: set<string>, out: State)
    ensures AwArms(arms, names, out).dead <==> out.dead && DiesArms(arms)
    decreases arms
  {
    match arms
    case NoElse =>
    case Else(b) => DiesBranch(Leaf, b, names, out);
    case Arm(c, _, b, rest) =>
      DiesBranch(c, b, names, out);
      DiesArmsExact(rest, names, AwBranch(c, b, names, out));
  }

  /** What a block would give back for `x` if it ended here. */
  predicate GivenBack(x: string, names: set<string>, saved: map<string, bool>) {
    if x in saved then saved[x] else x in names
  }

  /** Without an assignment to `x`, its handle stays in the awaited set of every live path. */
  lemma {:induction false} Keeps(x: string, s: Stmt, st: State)
    requires Write(x) !in Events(s) && x in st.names && !BindsHere(s, x)
    ensures AwStmt(s, st).dead || x in AwStmt(s, st).names
    decreases s
  {
    if !st.dead {
      match s
      case Decl(_, Value(e)) => ReportsExpr(e, st);
      case Assign(_, _, v) => ReportsExpr(v, st);
      case ExprStmt(e) => ReportsExpr(e, st);
      case Block(ss) => KeepsBlock(x, ss, st);
      case If(c, b, rest) =>
        ReportsExpr(c, st);
        var st1 := AwExpr(c, st);
        var out := st1.(names := {}, dead := true);
        KeepsBranch(x, Leaf, b, st1.names, out);
        KeepsArms(x, rest, st1.names, AwBranch(Leaf, b, st1.names, out));
      case While(c, _) => ReportsExpr(c, st);
      case For(_, e, _) => ReportsExpr(e, st);
      case Match(e, cases) =>
        ReportsExpr(e, st);
        var st1 := AwExpr(e, st);
        KeepsArms(x, cases, st1.names, st1.(names := {}, dead := true));
      case _ =>
    }
  }

  lemma {:induction false} KeepsAll(x: string, ss: Stmts, st: State, saved: map<string, bool>)
    requires Write(x) !in EventsAll(ss) && GivenBack(x, st.names, saved)
    ensures AwAll(ss, st, saved).0.dead || GivenBack(x, AwAll(ss, st, saved).0.names, AwAll(ss, st, saved).1)
    decreases ss, 0
  {
    if ss.SCons? && !st.dead {
      var st1, saved1 := AwStmt(ss.head, st), Shadow(ss.head, st.names, saved);
      if x !in saved && !BindsHere(ss.head, x) { Keeps(x, ss.head, st); }
      if st1.dead { DiesAllExact(ss.tail, st1, saved1); } else { KeepsAll(x, ss.tail, st1, saved1); }
    } else {
      DiesAllExact(ss, st, saved);
    }
  }

  lemma {:induction false} KeepsBlock(x: string, ss: Stmts, st: State)
    requires Write(x) !in EventsAll(ss) && x in st.names
    ensures AwBlock(ss, st).dead || x in AwBlock(ss, st).names
    decreases ss, 1
  {
    KeepsAll(x, ss, st, map[]);
  }

  lemma {:induction false} KeepsBranch(x: string, c: Expr, b: Stmts, names: set<string>, out: State)
    requires Write(x) !in EventsAll(b) && x in names && (out.dead || x in out.names)
    ensures AwBranch(c, b, names, out).dead || x in AwBranch(c, b, names, out).names
    decreases b, 2
  {
    var st := State(names, false, out.reports);
    ReportsExpr(c, st);
    KeepsBlock(x, b, AwExpr(c, st));
  }

  lemma {:induction false} KeepsArms(x: string, arms: Arms, names: set<string>, out: State)
    requires Write(x) !in EventsArms(arms) && x in names && (out.dead || x in out.names)
    ensures AwArms(arms, names, out).dead || x in AwArms(arms, names, out).names
    decreases arms
  {
    match arms
    case NoElse =>
    case Else(b) => KeepsBranch(x, Leaf, b, names, out);
    case Arm(c, _, b, rest) =>
      KeepsBranch(x, c, b, names, out);
      KeepsArms(x, rest, names, AwBranch(c, b, names, out));
  }

  // ---------------------------------------------------------------- traces

  lemma {:induction false} StepsConcat(x: string, env: Env, t0: Trace, t1: Trace)
    ensures Steps(x, env, t0 + t1) == Steps(x, Steps(x, env, t0), t1)
    ensures SecondAwaits(x, env, t0 + t1) == SecondAwaits(x, env, t0) + SecondAwaits(x, Steps(x, env, t0), t1)
    decreases |t0|
  {
    if t0 == [] {
      assert t0 + t1 == t1;
    } else {
      assert (t0 + t1)[1..] == t0[1..] + t1;
      StepsConcat(x, Step(x, env, t0[0]), t0[1..], t1);
    }
  }

  lemma StepsFirst(x: string, env: Env, ev: Event, t: Trace)
    ensures Steps(x, env, [ev] + t) == Steps(x, Step(x, env, ev), t)
    ensures !ev.Awaited? ==> SecondAwaits(x, env, [ev] + t) == SecondAwaits(x, Step(x, env, ev), t)
  {
  }

  lemma StepsLast(x: string, env: Env, t: Trace, ev: Event)
    ensures Steps(x, env, t + [ev]) == Step(x, Steps(x, env, t), ev)
    ensures SecondAwaits(x, env, t + [ev])
         == SecondAwaits(x, env, t) + if ev.Awaited? && ev.name == x && Lookup(Steps(x, env, t)) == Used then {ev.site} else {}
  {
    StepsConcat(x, env, t, [ev]);
    assert [ev][1..] == [];
  }

  lemma StepsBlock(x: string, env: Env, t: Trace)
    requires Steps(x, Scope(Unbound, env), t).Scope?
    ensures Steps(x, env, [Enter] + t + [Exit]) == Steps(x, Scope(Unbound, env), t).outer
    ensures SecondAwaits(x, env, [Enter] + t + [Exit]) == SecondAwaits(x, Scope(Unbound, env), t)
  {
    StepsLast(x, env, [Enter] + t, Exit);
    StepsFirst(x, env, Enter, t);
  }

  function ScopeOf(x: string, names: set<string>, env: Env): Env {
    Scope(if x in names then Fresh else Unbound, env)
  }

  lemma StepsScoped(x: string, env: Env, names: set<string>, t: Trace)
    requires Steps(x, ScopeOf(x, names, env), t).Scope?
    ensures Steps(x, env, [Enter, Bind(names)] + t + [Exit]) == Steps(x, ScopeOf(x, names, env), t).outer
    ensures SecondAwaits(x, env, [Enter, Bind(names)] + t + [Exit]) == SecondAwaits(x, ScopeOf(x, names, env), t)
  {
    StepsLast(x, env, [Enter, Bind(names)] + t, Exit);
    assert [Enter, Bind(names)] + t == [Enter] + ([Bind(names)] + t);
    StepsFirst(x, env, Enter, [Bind(names)] + t);
    StepsFirst(x, Scope(Unbound, env), Bind(names), t);
  }

  /** Only reads, and awaits of other handles. */
  ghost predicate Silent(x: string, t: Trace) {
    forall i :: 0 <= i < |t| ==> t[i].Read? || (t[i].Awaited? && t[i].name != x)
  }

  lemma {:induction false} SilentSteps(x: string, env: Env, t: Trace)
    requires Silent(x, t)
    ensures Steps(x, env, t) == env && SecondAwaits(x, env, t) == {}
    decreases |t|
  {
    if t != [] { SilentSteps(x, env, t[1..]); }
  }

  lemma EvalSilent(x: string, env: Env, e: Expr, t: Trace)
    requires Eval(e, t) && NoAwait(EventsE(e), x)
    ensures Steps(x, env, t) == env && SecondAwaits(x, env, t) == {}
  {
    EvalWithin(e, t);
    ExprEvents(e);
    SilentSteps(x, env, t);
  }

  // ---------------------------------------------------------------- what a run can do to the scopes

  /** The same scopes; nothing beyond the innermost binding of the name has changed. */
  ghost predicate Same(env: Env, env': Env) {
    match env
    case Top(_) => env'.Top?
    case Scope(c, o) =>
      env'.Scope? && (c == Unbound <==> env'.cell == Unbound) && if c == Unbound then Same(o, env'.outer) else env'.outer == o
  }

  /** The same, where the current scope itself may have been given a binding. */
  ghost predicate SameBelow(env: Env, env': Env) {
    && env.Scope? && env'.Scope?
    && (env.cell != Unbound ==> env'.cell != Unbound && env'.outer == env.outer)
    && Same(env.outer, env'.outer)
  }

  lemma {:induction false} SameRefl(env: Env)
    ensures Same(env, env)
  {
    if env.Scope? { SameRefl(env.outer); }
  }

  lemma {:induction false} SameTrans(a: Env, b: Env, c: Env)
    requires Same(a, b) && Same(b, c)
    ensures Same(a, c)
  {
    if a.Scope? && a.cell == Unbound { SameTrans(a.outer, b.outer, c.outer); }
  }

  lemma {:induction false} SameUpdate(env: Env, c: Cell)
    requires c != Unbound
    ensures Same(env, Update(env, c)) && Lookup(Update(env, c)) == c
  {
    if env.Scope? {
      SameUpdate(env.outer, c);
      SameRefl(env.outer);
    }
  }

  lemma SameGivesBelow(env: Env, env': Env)
    requires env.Scope? && Same(env, env')
    ensures SameBelow(env, env')
  {
    SameRefl(env.outer);
  }

  lemma {:induction false} ShapeTrace(x: string, env: Env, t: Trace)
    requires forall i :: 0 <= i < |t| ==> t[i].Read? || t[i].Awaited? || t[i].Write?
    ensures Same(env, Steps(x, env, t))
    decreases |t|
  {
    SameRefl(env);
    if t != [] {
      var env1 := Step(x, env, t[0]);
      SameUpdate(env, Used);
      SameUpdate(env, Fresh);
      ShapeTrace(x, env1, t[1..]);
      SameTrans(env, env1, Steps(x, env, t));
    }
  }

  lemma ShapeEval(x: string, env: Env, e: Expr, t: Trace)
    requires Eval(e, t)
    ensures Same(env, Steps(x, env, t))
  {
    EvalWithin(e, t);
    ExprEvents(e);
    ShapeTrace(x, env, t);
  }

  predicate BindsHere(s: Stmt, x: string) { DeclName(s) == Some(x) }

  lemma ShapeBinder(x: string, env: Env, s: Stmt, t: Trace)
    requires Exec(s, t, Normal) && (s.Decl? || s.Spawn?) && env.Scope?
    ensures SameBelow(env, Steps(x, env, t))
    ensures !BindsHere(s, x) ==> Same(env, Steps(x, env, t))
  {
    SameRefl(env);
    SameRefl(env.outer);
    match s
    case Decl(y, NoInit) => StepsLast(x, env, [], Declare(y)); assert [] + [Declare(y)] == t;
    case Decl(y, Zeroed) => StepsLast(x, env, [], Bind({y})); assert [] + [Bind({y})] == t;
    case Decl(y, Value(e)) =>
      var t0 :| Eval(e, t0) && t == t0 + [Bind({y})];
      ShapeEval(x, env, e, t0);
      SameGivesBelow(env, Steps(x, env, t0));
      StepsLast(x, env, t0, Bind({y}));
    case Spawn(h) => StepsLast(x, env, [], Bind({h})); assert [] + [Bind({h})] == t;
  }

  lemma ShapeAssign(x: string, env: Env, s: Stmt, t: Trace)
    requires s.Assign? && Exec(s, t, Normal)
    ensures Same(env, Steps(x, env, t))
  {
    var Assign(target, compound, v) := s;
    var t0, t1 :| Eval(v, t0) && StoreTo(target, compound, t1) && t == t0 + t1;
    StepsConcat(x, env, t0, t1);
    ShapeEval(x, env, v, t0);
    var mid := Steps(x, env, t0);
    if target.Ident? { ShapeTrace(x, mid, t1); } else { ShapeEval(x, mid, target, t1); }
    SameTrans(env, mid, Steps(x, mid, t1));
  }

  lemma {:induction false} Shape(x: string, env: Env, s: Stmt, t: Trace, o: Outcome)
    requires Exec(s, t, o) && env.Scope?
    ensures SameBelow(env, Steps(x, env, t))
    ensures !BindsHere(s, x) ==> Same(env, Steps(x, env, t))
    decreases s
  {
    if s.Decl? || s.Spawn? {
      ShapeBinder(x, env, s, t);
    } else {
      SameRefl(env);
      match s {
        case Assign(_, _, _) => ShapeAssign(x, env, s, t);
        case Return(e) => ShapeEval(x, env, e, t);
        case Break =>
        case Continue =>
        case ExprStmt(e) => ShapeEval(x, env, e, t);
        case Block(ss) => ShapeBlock(x, env, ss, t, o);
        case If(c, body, rest) =>
          var t0, t1 :| Eval(c, t0) && t == t0 + t1 && (ExecBlock(body, t1, o) || ExecArms(rest, t1, o));
          ShapeEval(x, env, c, t0);
          StepsConcat(x, env, t0, t1);
          var mid := Steps(x, env, t0);
          if ExecBlock(body, t1, o) { ShapeBlock(x, mid, body, t1, o); } else { ShapeArms(x, mid, rest, t1, o); }
          SameTrans(env, mid, Steps(x, mid, t1));
        case While(c, body) =>
          var n: nat :| ExecWhile(c, body, n, t, o);
          ShapeWhile(x, env, c, body, n, t, o);
        case For(y, e, body) =>
          var n: nat, t0, t1 :| Eval(e, t0) && ExecFor(y, body, n, t1, o) && t == t0 + t1;
          ShapeEval(x, env, e, t0);
          StepsConcat(x, env, t0, t1);
          var mid := Steps(x, env, t0);
          ShapeFor(x, mid, y, body, n, t1, o);
          SameTrans(env, mid, Steps(x, mid, t1));
        case Match(e, cases) =>
          var t0, t1 :| Eval(e, t0) && ExecArms(cases, t1, o) && t == t0 + t1;
          ShapeEval(x, env, e, t0);
          StepsConcat(x, env, t0, t1);
          var mid := Steps(x, env, t0);
          ShapeArms(x, mid, cases, t1, o);
          SameTrans(env, mid, Steps(x, mid, t1));
      }
      SameGivesBelow(env, Steps(x, env, t));
    }
  }

  lemma {:induction false} ShapeAll(x: string, env: Env, ss: Stmts, t: Trace, o: Outcome)
    requires ExecAll(ss, t, o) && env.Scope?
    ensures SameBelow(env, Steps(x, env, t))
    decreases ss, 0
  {
    match ss
    case SNil => SameRefl(env.outer);
    case SCons(s, rest) =>
      if o != Normal && Exec(s, t, o) {
        Shape(x, env, s, t, o);
      } else {
        var t0, t1 :| Exec(s, t0, Normal) && ExecAll(rest, t1, o) && t == t0 + t1;
        Shape(x, env, s, t0, Normal);
        StepsConcat(x, env, t0, t1);
        var mid := Steps(x, env, t0);
        ShapeAll(x, mid, rest, t1, o);
        SameTrans(env.outer, mid.outer, Steps(x, mid, t1).outer);
      }
  }

  lemma {:induction false} ShapeBlock(x: string, env: Env, ss: Stmts, t: Trace, o: Outcome)
    requires ExecBlock(ss, t, o)
    ensures Same(env, Steps(x, env, t))
    decreases ss, 1
  {
    var t0 :| ExecAll(ss, t0, o) && t == [Enter] + t0 + [Exit];
    ShapeAll(x, Scope(Unbound, env), ss, t0, o);
    StepsBlock(x, env, t0);
  }

  lemma {:induction false} ShapeScoped(x: string, env: Env, names: set<string>, ss: Stmts, t: Trace, o: Outcome)
    requires ExecScoped(names, ss, t, o)
    ensures Same(env, Steps(x, env, t)) && (x in names ==> Steps(x, env, t) == env)
    decreases ss, 2
  {
    var t0 :| ExecBlock(ss, t0, o) && t == [Enter, Bind(names)] + t0 + [Exit];
    ShapeBlock(x, ScopeOf(x, names, env), ss, t0, o);
    StepsScoped(x, env, names, t0);
    SameRefl(env);
  }

  lemma {:induction false} ShapeArms(x: string, env: Env, arms: Arms, t: Trace, o: Outcome)
    requires ExecArms(arms, t, o)
    ensures Same(env, Steps(x, env, t))
    decreases arms
  {
    match arms
    case NoElse => SameRefl(env);
    case Else(b) => ShapeBlock(x, env, b, t, o);
    case Arm(c, names, body, rest) =>
      var t0, t1 :| Eval(c, t0) && t == t0 + t1 && (ExecScoped(names, body, t1, o) || ExecArms(rest, t1, o));
      ShapeEval(x, env, c, t0);
      StepsConcat(x, env, t0, t1);
      var mid := Steps(x, env, t0);
      if ExecScoped(names, body, t1, o) { ShapeScoped(x, mid, names, body, t1, o); } else { ShapeArms(x, mid, rest, t1, o); }
      SameTrans(env, mid, Steps(x, mid, t1));
  }

  lemma {:induction false} ShapeWhile(x: string, env: Env, c: Expr, body: Stmts, n: nat, t: Trace, o: Outcome)
    requires ExecWhile(c, body, n, t, o)
    ensures Same(env, Steps(x, env, t))
    decreases body, 3, n, 1
  {
    var t0, t1 :| Eval(c, t0) && WhileRest(c, body, n, t1, o) && t == t0 + t1;
    ShapeEval(x, env, c, t0);
    StepsConcat(x, env, t0, t1);
    var mid := Steps(x, env, t0);
    ShapeWhileRest(x, mid, c, body, n, t1, o);
    SameTrans(env, mid, Steps(x, mid, t1));
  }

  lemma {:induction false} ShapeWhileRest(x: string, env: Env, c: Expr, body: Stmts, n: nat, t: Trace, o: Outcome)
    requires WhileRest(c, body, n, t, o)
    ensures Same(env, Steps(x, env, t))
    decreases body, 3, n, 0
  {
    SameRefl(env);
    if n > 0 {
      var t0, o0, t1 :| ExecBlock(body, t0, o0) && WhileNext(c, body, n - 1, o0, t1, o) && t == t0 + t1;
      ShapeBlock(x, env, body, t0, o0);
      StepsConcat(x, env, t0, t1);
      var mid := Steps(x, env, t0);
      if LoopsOn(o0) {
        ShapeWhile(x, mid, c, body, n - 1, t1, o);
        SameTrans(env, mid, Steps(x, mid, t1));
      }
    }
  }

  lemma {:induction false} ShapeFor(x: string, env: Env, y: string, body: Stmts, n: nat, t: Trace, o: Outcome)
    requires ExecFor(y, body, n, t, o)
    ensures Same(env, Steps(x, env, t))
    decreases body, 3, n
  {
    SameRefl(env);
    if n > 0 {
      var t0, o0, t1 :| ExecScoped({y}, body, t0, o0) && ForNext(y, body, n - 1, o0, t1, o) && t == t0 + t1;
      ShapeScoped(x, env, {y}, body, t0, o0);
      StepsConcat(x, env, t0, t1);
      var mid := Steps(x, env, t0);
      if LoopsOn(o0) {
        ShapeFor(x, mid, y, body, n - 1, t1, o);
        SameTrans(env, mid, Steps(x, mid, t1));
      }
    }
  }

  // ---------------------------------------------------------------- the walk covers every run

  /** The path is alive, and a handle awaited at run time is in the awaited set. */
  ghost predicate Tracks(x: string, env: Env, st: State) {
    !st.dead && (Lookup(env) == Used ==> x in st.names)
  }

  ghost predicate Covered(x: string, env: Env, t: Trace, reports: set<Site>) {
    forall n :: n in SecondAwaits(x, env, t) ==> Site(x, n) in reports
  }

  lemma {:induction false} SoundExpr(x: string, env: Env, e: Expr, t: Trace, st: State)
    requires Eval(e, t) && FitE(e, x) && Tracks(x, env, st)
    ensures Covered(x, env, t, AwExpr(e, st).reports) && Tracks(x, Steps(x, env, t), AwExpr(e, st))
    decreases e
  {
    ReportsExpr(e, st);
    match e
    case Leaf =>
    case Ident(_, _) => SilentSteps(x, env, t);
    case Await(h, n) =>
      var t0 :| Eval(h, t0) && t == t0 + (if h.Ident? then [Awaited(h.name, n)] else []);
      SoundExpr(x, env, h, t0, st);
      if h.Ident? {
        StepsLast(x, env, t0, Awaited(h.name, n));
        SameUpdate(Steps(x, env, t0), Used);
      } else {
        assert t == t0;
      }
    case Logical(l, r) =>
      ReportsExpr(r, AwExpr(l, st));
      if Eval(l, t) {
        SoundExpr(x, env, l, t, st);
      } else {
        var t0, t1 :| Eval(l, t0) && Eval(r, t1) && t == t0 + t1;
        SoundExpr(x, env, l, t0, st);
        SoundExpr(x, Steps(x, env, t0), r, t1, AwExpr(l, st));
        StepsConcat(x, env, t0, t1);
      }
    case Compound(k, es) =>
      match k {
        case Operator => SoundExprs(x, env, es, t, st);
        case Place => SoundExprs(x, env, es, t, st);
        case CallExpr =>
          if es.ECons? {
            var t0, t1 :| Eval(es.head, t0) && EvalAll(es.tail, t1) && t == t0 + t1;
            EvalSilent(x, env, es.head, t0);
            StepsConcat(x, env, t0, t1);
            SoundExprs(x, env, es.tail, t1, st);
          }
        case _ =>
          EvalAllWithin(es, t);
          ExprsEvents(es);
          SilentSteps(x, env, t);
      }
  }

  lemma {:induction false} SoundExprs(x: string, env: Env, es: Exprs, t: Trace, st: State)
    requires EvalAll(es, t) && FitEs(es, x) && Tracks(x, env, st)
    ensures Covered(x, env, t, AwExprs(es, st).reports) && Tracks(x, Steps(x, env, t), AwExprs(es, st))
    decreases es
  {
    if es.ECons? {
      var t0, t1 :| Eval(es.head, t0) && EvalAll(es.tail, t1) && t == t0 + t1;
      SoundExpr(x, env, es.head, t0, st);
      ReportsExprs(es.tail, AwExpr(es.head, st));
      StepsConcat(x, env, t0, t1);
      SoundExprs(x, Steps(x, env, t0), es.tail, t1, AwExpr(es.head, st));
    }
  }

  predicate Simple(s: Stmt) { !s.Block? && !s.If? && !s.While? && !s.For? && !s.Match? }

  /** A binding of the name in the current scope is fresh. */
  lemma BinderFresh(x: string, env: Env, s: Stmt, t: Trace)
    requires BindsHere(s, x) && Exec(s, t, Normal) && env.Scope? && Fit(s, x)
    ensures Steps(x, env, t) == Scope(Fresh, env.outer)
  {
    match s
    case Decl(y, NoInit) => StepsLast(x, env, [], Declare(y)); assert [] + [Declare(y)] == t;
    case Decl(y, Zeroed) => StepsLast(x, env, [], Bind({y})); assert [] + [Bind({y})] == t;
    case Decl(y, Value(e)) =>
      var t0 :| Eval(e, t0) && t == t0 + [Bind({y})];
      EvalSilent(x, env, e, t0);
      StepsLast(x, env, t0, Bind({y}));
    case Spawn(h) => StepsLast(x, env, [], Bind({h})); assert [] + [Bind({h})] == t;
  }

  lemma SoundBinder(x: string, env: Env, s: Stmt, t: Trace, st: State)
    requires (s.Decl? || s.Spawn?) && Exec(s, t, Normal) && env.Scope? && Fit(s, x) && Tracks(x, env, st)
    ensures Covered(x, env, t, AwStmt(s, st).reports) && Tracks(x, Steps(x, env, t), AwStmt(s, st))
  {
    match s
    case Decl(y, NoInit) => StepsLast(x, env, [], Declare(y)); assert [] + [Declare(y)] == t;
    case Decl(y, Zeroed) => StepsLast(x, env, [], Bind({y})); assert [] + [Bind({y})] == t;
    case Decl(y, Value(e)) =>
      var t0 :| Eval(e, t0) && t == t0 + [Bind({y})];
      SoundExpr(x, env, e, t0, st);
      if y == x { EvalSilent(x, env, e, t0); }
      StepsLast(x, env, t0, Bind({y}));
    case Spawn(h) => StepsLast(x, env, [], Bind({h})); assert [] + [Bind({h})] == t;
  }

  lemma SoundAssign(x: string, env: Env, s: Stmt, t: Trace, st: State)
    requires s.Assign? && Exec(s, t, Normal) && Fit(s, x) && Tracks(x, env, st)
    ensures Covered(x, env, t, AwStmt(s, st).reports) && Tracks(x, Steps(x, env, t), AwStmt(s, st))
  {
    var Assign(target, compound, v) := s;
    var t0, t1 :| Eval(v, t0) && StoreTo(target, compound, t1) && t == t0 + t1;
    SoundExpr(x, env, v, t0, st);
    StepsConcat(x, env, t0, t1);
    var mid := Steps(x, env, t0);
    if target.Ident? {
      var pre := if compound then [Read(target.name, target.site)] else [];
      SilentSteps(x, mid, pre);
      StepsLast(x, mid, pre, Write(target.name));
      SameUpdate(mid, Fresh);
    } else {
      EvalSilent(x, mid, target, t1);
    }
  }

  lemma {:induction false} Sound(x: string, env: Env, s: Stmt, t: Trace, o: Outcome, st: State)
    requires Exec(s, t, o) && env.Scope? && Fit(s, x) && Tracks(x, env, st)
    ensures Covered(x, env, t, AwStmt(s, st).reports)
    ensures o != Returned ==> Tracks(x, Steps(x, env, t), AwStmt(s, st))
    decreases s, 1
  {
    match s
    case Decl(_, _) => SoundBinder(x, env, s, t, st);
    case Spawn(_) => SoundBinder(x, env, s, t, st);
    case Assign(_, _, _) => SoundAssign(x, env, s, t, st);
    case Return(e) => SoundExpr(x, env, e, t, st);
    case Break =>
    case Continue =>
    case ExprStmt(e) => SoundExpr(x, env, e, t, st);
    case Block(ss) => SoundBlock(x, env, ss, t, o, st);
    case If(_, _, _) => SoundIf(x, env, s, t, o, st);
    case While(_, _) => SoundLoop(x, env, s, t, o, st);
    case For(_, _, _) => SoundLoop(x, env, s, t, o, st);
    case Match(e, cases) =>
      var t0, t1 :| Eval(e, t0) && ExecArms(cases, t1, o) && t == t0 + t1;
      SoundExpr(x, env, e, t0, st);
      StepsConcat(x, env, t0, t1);
      var st1 := AwExpr(e, st);
      var out := st1.(names := {}, dead := true);
      SoundArms(x, Steps(x, env, t0), cases, t1, o, st1.names, out);
      ReportsArms(cases, st1.names, out);
  }

  lemma {:induction false} SoundIf(x: string, env: Env, s: Stmt, t: Trace, o: Outcome, st: State)
    requires s.If? && Exec(s, t, o) && Fit(s, x) && Tracks(x, env, st)
    ensures Covered(x, env, t, AwStmt(s, st).reports)
    ensures o != Returned ==> Tracks(x, Steps(x, env, t), AwStmt(s, st))
    decreases s, 0
  {
    var If(c, body, rest) := s;
    var t0, t1 :| Eval(c, t0) && t == t0 + t1 && (ExecBlock(body, t1, o) || ExecArms(rest, t1, o));
    SoundExpr(x, env, c, t0, st);
    StepsConcat(x, env, t0, t1);
    var st1 := AwExpr(c, st);
    var out := st1.(names := {}, dead := true);
    var mid := Steps(x, env, t0);
    var first := AwBranch(Leaf, body, st1.names, out);
    ReportsBranch(Leaf, body, st1.names, out);
    ReportsArms(rest, st1.names, first);
    if ExecBlock(body, t1, o) {
      SoundBlock(x, mid, body, t1, o, st1.(reports := out.reports));
      ArmsKeep(rest, st1.names, first);
    } else {
      SoundArms(x, mid, rest, t1, o, st1.names, first);
    }
  }

  /** The block's bookkeeping: a name bound in this scope has its outer state saved. */
  ghost predicate Saves(x: string, env: Env, saved: map<string, bool>) {
    env.Scope? && (if x in saved then env.cell != Unbound && (Lookup(env.outer) == Used ==> saved[x]) else env.cell == Unbound)
  }

  lemma SavesNext(x: string, env: Env, s: Stmt, t: Trace, st: State, saved: map<string, bool>)
    requires Exec(s, t, Normal) && Fit(s, x) && Tracks(x, env, st) && Saves(x, env, saved)
    ensures Saves(x, Steps(x, env, t), Shadow(s, st.names, saved))
  {
    Shape(x, env, s, t, Normal);
    if BindsHere(s, x) { BinderFresh(x, env, s, t); }
  }

  /** The list was left by a jump: what its block gives back covers the handle outside. */
  ghost predicate Left(x: string, env: Env, st: State, saved: map<string, bool>) {
    env.Scope? && !st.dead && (Lookup(env.outer) == Used ==> GivenBack(x, st.names, saved))
  }

  /** The walk goes on over the rest of the list, which takes nothing away. */
  lemma JumpLeft(x: string, env: Env, s: Stmt, rest: Stmts, t: Trace, o: Outcome, st: State, saved: map<string, bool>)
    requires Exec(s, t, o) && (o == Broke || o == Continued) && FitAll(SCons(s, rest), x) && Saves(x, env, saved)
    requires Tracks(x, Steps(x, env, t), AwStmt(s, st)) && !st.dead
    ensures var r := AwAll(SCons(s, rest), st, saved); Left(x, Steps(x, env, t), r.0, r.1)
  {
    JumpMet(s, t, o);
    Shape(x, env, s, t, o);
    var env1, st1 := Steps(x, env, t), AwStmt(s, st);
    DiesAllExact(rest, st1, saved);
    if Lookup(env1.outer) == Used {
      assert GivenBack(x, st1.names, saved);
      KeepsAll(x, rest, st1, saved);
    }
  }

  lemma {:induction false} SoundAll(x: string, env: Env, ss: Stmts, t: Trace, o: Outcome, st: State, saved: map<string, bool>)
    requires ExecAll(ss, t, o) && FitAll(ss, x) && Tracks(x, env, st) && Saves(x, env, saved)
    ensures Covered(x, env, t, AwAll(ss, st, saved).0.reports)
    ensures o == Normal ==> Tracks(x, Steps(x, env, t), AwAll(ss, st, saved).0)
    ensures o == Normal ==> Saves(x, Steps(x, env, t), AwAll(ss, st, saved).1)
    ensures o == Broke || o == Continued ==> Left(x, Steps(x, env, t), AwAll(ss, st, saved).0, AwAll(ss, st, saved).1)
    decreases ss, 0
  {
    match ss
    case SNil =>
    case SCons(s, rest) =>
      var st1, saved1 := AwStmt(s, st), Shadow(s, st.names, saved);
      ReportsAll(rest, st1, saved1);
      if o != Normal && Exec(s, t, o) {
        Sound(x, env, s, t, o, st);
        if o != Returned { JumpLeft(x, env, s, rest, t, o, st, saved); }
      } else {
        var t0, t1 :| Exec(s, t0, Normal) && ExecAll(rest, t1, o) && t == t0 + t1;
        Sound(x, env, s, t0, Normal, st);
        SavesNext(x, env, s, t0, st, saved);
        StepsConcat(x, env, t0, t1);
        SoundAll(x, Steps(x, env, t0), rest, t1, o, st1, saved1);
      }
  }

  lemma {:induction false} SoundBlock(x: string, env: Env, ss: Stmts, t: Trace, o: Outcome, st: State)
    requires ExecBlock(ss, t, o) && FitAll(ss, x) && Tracks(x, env, st)
    ensures Covered(x, env, t, AwBlock(ss, st).reports)
    ensures o != Returned ==> Tracks(x, Steps(x, env, t), AwBlock(ss, st))
    decreases ss, 1
  {
    var t0 :| ExecAll(ss, t0, o) && t == [Enter] + t0 + [Exit];
    var inner := Scope(Unbound, env);
    SoundAll(x, inner, ss, t0, o, st, map[]);
    ShapeAll(x, inner, ss, t0, o);
    StepsBlock(x, env, t0);
  }

  lemma {:induction false} SoundScoped(x: string, env: Env, names: set<string>, ss: Stmts, t: Trace, o: Outcome, st: State)
    requires ExecScoped(names, ss, t, o) && FitAll(ss, x) && Tracks(x, env, st)
    ensures Covered(x, env, t, AwBlock(ss, st).reports)
    ensures o != Returned && x !in names ==> Tracks(x, Steps(x, env, t), AwBlock(ss, st))
    ensures x in names ==> Steps(x, env, t) == env
    ensures o != Returned ==> !AwBlock(ss, st).dead
    decreases ss, 2
  {
    var t0 :| ExecBlock(ss, t0, o) && t == [Enter, Bind(names)] + t0 + [Exit];
    var inner := ScopeOf(x, names, env);
    SoundBlock(x, inner, ss, t0, o, st);
    ShapeBlock(x, inner, ss, t0, o);
    StepsScoped(x, env, names, t0);
  }

  /** Further branches only add to the join. */
  lemma {:induction false} ArmsKeep(arms: Arms, names: set<string>, out: State)
    ensures !out.dead ==> !AwArms(arms, names, out).dead && out.names <= AwArms(arms, names, out).names
    decreases arms
  {
    match arms
    case NoElse =>
    case Else(_) =>
    case Arm(c, _, b, rest) => ArmsKeep(rest, names, AwBranch(c, b, names, out));
  }

  lemma {:induction false} SoundArms(x: string, env: Env, arms: Arms, t: Trace, o: Outcome, names: set<string>, out: State)
    requires ExecArms(arms, t, o) && FitArms(arms, x) && (Lookup(env) == Used ==> x in names)
    ensures Covered(x, env, t, AwArms(arms, names, out).reports)
    ensures o != Returned ==> Tracks(x, Steps(x, env, t), AwArms(arms, names, out))
    decreases arms
  {
    match arms
    case NoElse =>
    case Else(b) => SoundBlock(x, env, b, t, o, State(names, false, out.reports));
    case Arm(c, binds, b, rest) =>
      var t0, t1 :| Eval(c, t0) && t == t0 + t1 && (ExecScoped(binds, b, t1, o) || ExecArms(rest, t1, o));
      EvalSilent(x, env, c, t0);
      StepsConcat(x, env, t0, t1);
      var out1 := AwBranch(c, b, names, out);
      ReportsArms(rest, names, out1);
      if ExecScoped(binds, b, t1, o) {
        SoundArm(x, env, arms, t1, o, names, out);
        ArmsKeep(rest, names, out1);
      } else {
        SoundArms(x, env, rest, t1, o, names, out1);
      }
  }

  /** The first arm is taken. */
  lemma {:induction false} SoundArm(x: string, env: Env, arms: Arms, t: Trace, o: Outcome, names: set<string>, out: State)
    requires arms.Arm? && ExecScoped(arms.binds, arms.body, t, o) && FitArms(arms, x) && (Lookup(env) == Used ==> x in names)
    ensures Covered(x, env, t, AwBranch(arms.cond, arms.body, names, out).reports)
    ensures o != Returned ==> Tracks(x, Steps(x, env, t), AwBranch(arms.cond, arms.body, names, out))
    decreases arms.body, 3
  {
    var st := State(names, false, out.reports);
    ReportsExpr(arms.cond, st);
    var st1 := AwExpr(arms.cond, st);
    SoundScoped(x, env, arms.binds, arms.body, t, o, st1);
    if x in arms.binds && x in names { KeepsBlock(x, arms.body, st1); }
  }

  lemma {:induction false} SoundLoop(x: string, env: Env, s: Stmt, t: Trace, o: Outcome, st: State)
    requires (s.While? || s.For?) && Exec(s, t, o) && Fit(s, x) && Tracks(x, env, st)
    ensures Covered(x, env, t, AwStmt(s, st).reports)
    ensures o != Returned ==> Tracks(x, Steps(x, env, t), AwStmt(s, st))
    decreases s, 0
  {
    var st1 := AwExpr(if s.While? then s.cond else s.iterable, st);
    ReportsExpr(if s.While? then s.cond else s.iterable, st);
    ReportsLoop(s.body, st1);
    var x2 := SecondPass(AwBlock(s.body, st1), st1);
    TwoPassesSuffice(s.body, st1);
    SameControl(s.body, st1, x2);
    match s
    case While(c, body) =>
      var n: nat :| ExecWhile(c, body, n, t, o);
      SoundWhile(x, env, c, body, n, t, o, x2);
    case For(y, e, body) =>
      var n: nat, t0, t1 :| Eval(e, t0) && ExecFor(y, body, n, t1, o) && t == t0 + t1;
      SoundExpr(x, env, e, t0, st);
      StepsConcat(x, env, t0, t1);
      SoundFor(x, Steps(x, env, t0), y, body, n, t1, o, x2);
  }

  /** Every iteration is covered by one pass from a closed set. */
  lemma {:induction false} SoundWhile(x: string, env: Env, c: Expr, body: Stmts, n: nat, t: Trace, o: Outcome, st: State)
    requires ExecWhile(c, body, n, t, o) && NoAwait(EventsE(c), x) && FitAll(body, x) && Tracks(x, env, st)
    requires AwBlock(body, st).names <= st.names
    ensures Covered(x, env, t, AwBlock(body, st).reports)
    ensures o == Normal ==> Steps(x, env, t) == env || Tracks(x, Steps(x, env, t), AwBlock(body, st))
    ensures o == Normal || o == Returned
    decreases body, 3, n, 1
  {
    var t0, t1 :| Eval(c, t0) && WhileRest(c, body, n, t1, o) && t == t0 + t1;
    EvalSilent(x, env, c, t0);
    StepsConcat(x, env, t0, t1);
    SoundWhileRest(x, env, c, body, n, t1, o, st);
  }

  lemma {:induction false} SoundWhileRest(x: string, env: Env, c: Expr, body: Stmts, n: nat, t: Trace, o: Outcome, st: State)
    requires WhileRest(c, body, n, t, o) && NoAwait(EventsE(c), x) && FitAll(body, x) && Tracks(x, env, st)
    requires AwBlock(body, st).names <= st.names
    ensures Covered(x, env, t, AwBlock(body, st).reports)
    ensures o == Normal ==> Steps(x, env, t) == env || Tracks(x, Steps(x, env, t), AwBlock(body, st))
    ensures o == Normal || o == Returned
    decreases body, 3, n, 0
  {
    if n > 0 {
      var t0, o0, t1 :| ExecBlock(body, t0, o0) && WhileNext(c, body, n - 1, o0, t1, o) && t == t0 + t1;
      StepsConcat(x, env, t0, t1);
      SoundBlock(x, env, body, t0, o0, st);
      if LoopsOn(o0) { SoundWhile(x, Steps(x, env, t0), c, body, n - 1, t1, o, st); }
    }
  }

  lemma {:induction false} SoundFor(x: string, env: Env, y: string, body: Stmts, n: nat, t: Trace, o: Outcome, st: State)
    requires ExecFor(y, body, n, t, o) && FitAll(body, x) && Tracks(x, env, st)
    requires AwBlock(body, st).names <= st.names
    ensures Covered(x, env, t, AwBlock(body, st).reports)
    ensures o == Normal ==> Steps(x, env, t) == env || Tracks(x, Steps(x, env, t), AwBlock(body, st))
    ensures o == Normal || o == Returned
    decreases body, 3, n
  {
    if n > 0 {
      var t0, o0, t1 :| ExecScoped({y}, body, t0, o0) && ForNext(y, body, n - 1, o0, t1, o) && t == t0 + t1;
      StepsConcat(x, env, t0, t1);
      SoundScoped(x, env, {y}, body, t0, o0, st);
      if LoopsOn(o0) { SoundFor(x, Steps(x, env, t0), y, body, n - 1, t1, o, st); }
    }
  }

  /** Await-once is sound: in every run of a body, an await of a handle that was already awaited
      since its last binding or assignment is reported. */
  lemma AwaitOnceSound(body: Stmts, x: string, t: Trace, o: Outcome)
    requires ExecBlock(body, t, o) && FitAll(body, x)
    ensures forall n :: n in SecondAwaits(x, Top(false), t) ==> Site(x, n) in AwBlock(body, Start()).reports
  {
    SoundBlock(x, Top(false), body, t, o, Start());
  }
}
