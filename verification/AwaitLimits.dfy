/**
 Where the await-once analysis misses a second await, and where it reports one that no run makes.
 The conditions of AwaitSound's theorem leave out programs of the first kind and those of AwaitExact's
 the second, together with others on which the walk happens to be right.
 */
module AwaitLimits {
  import opened IronCore
  import opened Options
  import opened AwaitOnce
  import opened AwaitSound
  import opened Programs

  /** A run awaits `x` a second time at site `n`, unreported. */
  ghost predicate Missed(body: Stmts, x: string, n: nat) {
    && Site(x, n) !in AwBlock(body, Start()).reports
    && exists t, o :: ExecBlock(body, t, o) && n in SecondAwaits(x, Top(false), t)
  }

  /** Site `n` is reported, but no run awaits `x` there a second time. */
  ghost predicate Spurious(body: Stmts, x: string, n: nat) {
    && Site(x, n) in AwBlock(body, Start()).reports
    && forall t, o :: ExecBlock(body, t, o) ==> n !in SecondAwaits(x, Top(false), t)
  }

  /** The run of `await x`. */
  function AwaitTrace(x: string, n: nat): Trace { [Read(x, 0), Awaited(x, n)] }

  lemma EvalAwait(x: string, n: nat)
    ensures Eval(AwaitAt(x, n), AwaitTrace(x, n)) && Exec(ExprStmt(AwaitAt(x, n)), AwaitTrace(x, n), Normal)
  {
    var h := Ident(x, 0);
    assert Eval(h, [Read(x, 0)]) && AwaitTrace(x, n) == [Read(x, 0)] + [Awaited(h.name, n)];
  }

  lemma EvalAwaitOnly(x: string, n: nat, t: Trace)
    requires Eval(AwaitAt(x, n), t)
    ensures t == AwaitTrace(x, n)
  {
  }

  lemma StepsAwait(x: string, env: Env, n: nat)
    ensures Steps(x, env, AwaitTrace(x, n)) == Update(env, Used) && Lookup(Update(env, Used)) == Used
    ensures SecondAwaits(x, env, AwaitTrace(x, n)) == if Lookup(env) == Used then {n} else {}
  {
    SameUpdate(env, Used);
    StepsLast(x, env, [Read(x, 0)], Awaited(x, n));
    SilentSteps(x, env, [Read(x, 0)]);
    assert [Read(x, 0)] + [Awaited(x, n)] == AwaitTrace(x, n);
  }

  lemma WalkAwait(x: string, n: nat, st: State)
    ensures AwExpr(AwaitAt(x, n), st)
         == State(st.names + {x}, st.dead, if x in st.names then st.reports + {Site(x, n)} else st.reports)
    ensures !st.dead ==> AwStmt(ExprStmt(AwaitAt(x, n)), st) == AwExpr(AwaitAt(x, n), st)
  {
  }

  /** In a block: an await, a stretch that leaves the handle awaited, another await. */
  lemma AwaitTwice(x: string, n: nat, mid: Trace, m: nat, t: Trace)
    requires var used := Update(Scope(Unbound, Top(false)), Used); Lookup(Steps(x, used, mid)) == Used
    requires t == [Enter] + (AwaitTrace(x, n) + (mid + AwaitTrace(x, m))) + [Exit]
    ensures m in SecondAwaits(x, Top(false), t)
  {
    var top := Scope(Unbound, Top(false));
    var used := Update(top, Used);
    StepsLast(x, Top(false), [Enter] + (AwaitTrace(x, n) + (mid + AwaitTrace(x, m))), Exit);
    StepsFirst(x, Top(false), Enter, AwaitTrace(x, n) + (mid + AwaitTrace(x, m)));
    StepsConcat(x, top, AwaitTrace(x, n), mid + AwaitTrace(x, m));
    StepsAwait(x, top, n);
    StepsConcat(x, used, mid, AwaitTrace(x, m));
    StepsAwait(x, Steps(x, used, mid), m);
  }

  lemma Brackets(x: string, env: Env)
    ensures Steps(x, env, [Enter] + [] + [Exit]) == env
  {
    assert Steps(x, Scope(Unbound, env), []) == Scope(Unbound, env);
    StepsBlock(x, env, []);
  }

  /** `while await h {}` awaits h in every iteration; the condition is walked once. */
  lemma WhileConditionMissed(x: string)
    ensures Missed(One(While(AwaitAt(x, 1), SNil)), x, 1)
  {
    var w := While(AwaitAt(x, 1), SNil);
    EvalAwait(x, 1);
    var tb := [Enter] + [] + [Exit];
    assert ExecBlock(SNil, tb, Normal) by { assert ExecAll(SNil, [], Normal); }
    RunWhileTwice(AwaitAt(x, 1), AwaitTrace(x, 1), SNil, tb);
    RunOne(w, AwaitTrace(x, 1) + (tb + AwaitTrace(x, 1)), Normal);
    Brackets(x, Update(Scope(Unbound, Top(false)), Used));
    AwaitTwice(x, 1, tb, 1, [Enter] + (AwaitTrace(x, 1) + (tb + AwaitTrace(x, 1))) + [Exit]);
    WhileConditionWalk(x);
  }

  lemma WhileConditionWalk(x: string)
    ensures AwBlock(One(While(AwaitAt(x, 1), SNil)), Start()).reports == {}
  {
    var st := State({x}, false, {});
    WalkAwait(x, 1, Start());
    assert AwBlock(SNil, st) == st;
    assert AwLoop(SNil, st) == st;
    WalkOne(While(AwaitAt(x, 1), SNil), Start());
  }

  lemma WalkOne(s: Stmt, st: State)
    requires !st.dead && DeclName(s).None?
    ensures AwBlock(One(s), st).reports == AwStmt(s, st).reports
    ensures AwBlock(One(s), st).dead == AwStmt(s, st).dead
    ensures AwBlock(One(s), st).names == AwStmt(s, st).names
  {
    assert AwAll(One(s), st, map[]) == AwAll(SNil, AwStmt(s, st), map[]);
  }

  lemma WalkTwo(a: Stmt, b: Stmt, st: State)
    requires !st.dead && DeclName(a).None? && DeclName(b).None?
    ensures AwBlock(Two(a, b), st).reports == AwStmt(b, AwStmt(a, st)).reports
  {
    assert AwAll(Two(a, b), st, map[]) == AwAll(One(b), AwStmt(a, st), map[]);
    assert AwAll(One(b), AwStmt(a, st), map[]) == AwAll(SNil, AwStmt(b, AwStmt(a, st)), map[]);
  }

  /** The condition of each elif starts from the same copy, although the earlier ones have run. */
  lemma ElifConditionsMissed(x: string)
    ensures Missed(One(If(Leaf, SNil, Arm(AwaitAt(x, 1), {}, SNil, Arm(AwaitAt(x, 2), {}, SNil, NoElse)))), x, 2)
  {
    var t := ElifConditionsRun(x);
    ElifConditionsWalk(x);
  }

  lemma ElifConditionsRun(x: string) returns (all: Trace)
    ensures ExecBlock(One(If(Leaf, SNil, Arm(AwaitAt(x, 1), {}, SNil, Arm(AwaitAt(x, 2), {}, SNil, NoElse)))), all, Normal)
    ensures 2 in SecondAwaits(x, Top(false), all)
  {
    ElifConditionsArms(x);
    var t := AwaitTrace(x, 1) + AwaitTrace(x, 2);
    RunIfSkipped(Arm(AwaitAt(x, 1), {}, SNil, Arm(AwaitAt(x, 2), {}, SNil, NoElse)), t);
    all := RunsTwice(x, If(Leaf, SNil, Arm(AwaitAt(x, 1), {}, SNil, Arm(AwaitAt(x, 2), {}, SNil, NoElse))), t);
  }

  lemma ElifConditionsArms(x: string)
    ensures ExecArms(Arm(AwaitAt(x, 1), {}, SNil, Arm(AwaitAt(x, 2), {}, SNil, NoElse)), AwaitTrace(x, 1) + AwaitTrace(x, 2), Normal)
  {
    EvalAwait(x, 1);
    EvalAwait(x, 2);
    assert ExecArms(NoElse, [], Normal);
    RunSkipped(AwaitAt(x, 2), AwaitTrace(x, 2), NoElse, []);
    assert AwaitTrace(x, 2) + [] == AwaitTrace(x, 2);
    RunSkipped(AwaitAt(x, 1), AwaitTrace(x, 1), Arm(AwaitAt(x, 2), {}, SNil, NoElse), AwaitTrace(x, 2));
  }

  lemma RunsTwice(x: string, s: Stmt, t: Trace) returns (all: Trace)
    requires Exec(s, t, Normal) && t == AwaitTrace(x, 1) + AwaitTrace(x, 2)
    ensures ExecBlock(One(s), all, Normal) && 2 in SecondAwaits(x, Top(false), all)
  {
    RunOne(s, t, Normal);
    all := [Enter] + t + [Exit];
    assert all == [Enter] + (AwaitTrace(x, 1) + ([] + AwaitTrace(x, 2))) + [Exit];
    SameUpdate(Scope(Unbound, Top(false)), Used);
    AwaitTwice(x, 1, [], 2, all);
  }

  lemma RunSkipped(c: Expr, tc: Trace, rest: Arms, t: Trace)
    requires Eval(c, tc) && ExecArms(rest, t, Normal)
    ensures ExecArms(Arm(c, {}, SNil, rest), tc + t, Normal)
  {
  }

  lemma RunIfSkipped(arms: Arms, t: Trace)
    requires ExecArms(arms, t, Normal)
    ensures Exec(If(Leaf, SNil, arms), t, Normal)
  {
    assert Eval(Leaf, []) && [] + t == t;
  }

  lemma ElifConditionsWalk(x: string)
    ensures AwBlock(One(If(Leaf, SNil, Arm(AwaitAt(x, 1), {}, SNil, Arm(AwaitAt(x, 2), {}, SNil, NoElse)))), Start()).reports == {}
  {
    var rest := Arm(AwaitAt(x, 2), {}, SNil, NoElse);
    var arms := Arm(AwaitAt(x, 1), {}, SNil, rest);
    var out0 := State({}, true, {});
    var out1 := AwBranch(Leaf, SNil, {}, out0);
    assert out1 == State({}, false, {});
    WalkAwait(x, 1, State({}, false, {}));
    WalkAwait(x, 2, State({}, false, {}));
    assert AwBlock(SNil, State({x}, false, {})) == State({x}, false, {});
    var out2 := AwBranch(AwaitAt(x, 1), SNil, {}, out1);
    assert out2 == State({x}, false, {});
    var out3 := AwBranch(AwaitAt(x, 2), SNil, {}, out2);
    assert out3 == State({x}, false, {});
    assert AwArms(NoElse, {}, out3).reports == {};
    assert AwArms(rest, {}, out2) == AwArms(NoElse, {}, out3);
    assert AwArms(arms, {}, out1) == AwArms(rest, {}, out2);
    WalkOne(If(Leaf, SNil, arms), Start());
  }

  /** `{ val h = await h }` gives the outer h back as not awaited. */
  lemma SelfInitMissed(x: string)
    ensures Missed(Two(Block(One(Decl(x, Value(AwaitAt(x, 1))))), ExprStmt(AwaitAt(x, 2))), x, 2)
  {
    var d := Decl(x, Value(AwaitAt(x, 1)));
    EvalAwait(x, 1);
    EvalAwait(x, 2);
    var td := AwaitTrace(x, 1) + [Bind({x})];
    RunOne(d, td, Normal);
    var tb := [Enter] + td + [Exit];
    RunTwo(Block(One(d)), tb, ExprStmt(AwaitAt(x, 2)), AwaitTrace(x, 2), Normal);
    var t := [Enter] + (tb + AwaitTrace(x, 2)) + [Exit];
    SelfInitRun(x, tb, t);
    SelfInitWalk(x);
  }

  lemma SelfInitRun(x: string, tb: Trace, t: Trace)
    requires tb == [Enter] + (AwaitTrace(x, 1) + [Bind({x})]) + [Exit] && t == [Enter] + (tb + AwaitTrace(x, 2)) + [Exit]
    ensures 2 in SecondAwaits(x, Top(false), t)
  {
    var top := Scope(Unbound, Top(false));
    StepsLast(x, Top(false), [Enter] + (tb + AwaitTrace(x, 2)), Exit);
    StepsFirst(x, Top(false), Enter, tb + AwaitTrace(x, 2));
    StepsConcat(x, top, tb, AwaitTrace(x, 2));
    var inner := Scope(Unbound, top);
    StepsAwait(x, inner, 1);
    StepsLast(x, inner, AwaitTrace(x, 1), Bind({x}));
    StepsBlock(x, top, AwaitTrace(x, 1) + [Bind({x})]);
    StepsAwait(x, Steps(x, top, tb), 2);
  }

  lemma SelfInitWalk(x: string)
    ensures AwBlock(Two(Block(One(Decl(x, Value(AwaitAt(x, 1))))), ExprStmt(AwaitAt(x, 2))), Start()).reports == {}
  {
    var d := Decl(x, Value(AwaitAt(x, 1)));
    WalkAwait(x, 1, Start());
    WalkAwait(x, 2, Start());
    assert AwStmt(d, Start()).names == {};
    assert AwAll(One(d), Start(), map[]) == AwAll(SNil, AwStmt(d, Start()), map[x := false]);
    assert AwBlock(One(d), Start()) == Start();
    WalkTwo(Block(One(d)), ExprStmt(AwaitAt(x, 2)), Start());
  }

  function Put(x: string): Stmt { Assign(Ident(x, 0), false, Leaf) }

  /** `if d { break }` */
  function MayBreak(): Stmt { If(Leaf, One(Break), NoElse) }

  /** `while c { await h  if d { break }  last }  await h` */
  function BreakBody(x: string, last: Stmt): Stmts { SCons(ExprStmt(AwaitAt(x, 1)), Two(MayBreak(), last)) }

  function BreakLoop(x: string, last: Stmt): Stmts { Two(While(Leaf, BreakBody(x, last)), ExprStmt(AwaitAt(x, 2))) }

  /** A break does not end the path: the reassignment behind it hides the await before it. */
  lemma BreakMissed(x: string)
    ensures Missed(BreakLoop(x, Put(x)), x, 2) && AwBlock(BreakLoop(x, Put(x)), Start()).reports == {}
  {
    var t := BreakRun(x, Put(x));
    var st, used := Start(), State({x}, false, {});
    BreakWalk(x, Put(x));
    assert AwStmt(Put(x), used).names == {};
    assert AwBlock(BreakBody(x, Put(x)), st) == st;
    assert SecondPass(st, st) == st;
    assert AwLoop(BreakBody(x, Put(x)), st) == st;
    WalkAwait(x, 2, st);
    WalkTwo(While(Leaf, BreakBody(x, Put(x))), ExprStmt(AwaitAt(x, 2)), st);
  }

  /** A path that always returns behind the break takes the await with it. */
  lemma BreakBeforeReturnMissed(x: string)
    ensures Missed(BreakLoop(x, Return(Leaf)), x, 2)
  {
    var t := BreakRun(x, Return(Leaf));
    var st := Start();
    BreakWalk(x, Return(Leaf));
    var it := AwBlock(BreakBody(x, Return(Leaf)), st);
    assert it.dead;
    SameControl(BreakBody(x, Return(Leaf)), st, SecondPass(it, st));
    var st1 := AwLoop(BreakBody(x, Return(Leaf)), st);
    assert st1.names == {} && !st1.dead;
    WalkAwait(x, 2, st1);
    WalkTwo(While(Leaf, BreakBody(x, Return(Leaf))), ExprStmt(AwaitAt(x, 2)), st);
    BreakReports(x);
  }

  /** The loop reports its own await only. */
  lemma BreakReports(x: string)
    ensures Site(x, 2) !in AwLoop(BreakBody(x, Return(Leaf)), Start()).reports
  {
    var st, used := Start(), State({x}, false, {});
    BreakWalk(x, Return(Leaf));
    var it := AwBlock(BreakBody(x, Return(Leaf)), st);
    assert it == State({x}, true, {});
    var again := SecondPass(it, st);
    assert again == used;
    var warned := State({x}, false, {Site(x, 1)});
    WalkAwait(x, 1, used);
    assert AwStmt(ExprStmt(AwaitAt(x, 1)), used) == warned;
    MayBreakWalk(x, warned.reports);
    assert AwAll(BreakBody(x, Return(Leaf)), used, map[]) == AwAll(Two(MayBreak(), Return(Leaf)), warned, map[]);
    assert AwAll(Two(MayBreak(), Return(Leaf)), warned, map[]) == AwAll(One(Return(Leaf)), warned, map[]);
    assert AwAll(One(Return(Leaf)), warned, map[]) == AwAll(SNil, warned.(dead := true), map[]);
  }

  lemma MayBreakWalk(x: string, reports: set<Site>)
    ensures AwStmt(MayBreak(), State({x}, false, reports)) == State({x}, false, reports)
  {
    var st := State({x}, false, reports);
    assert AwAll(One(Break), st, map[]) == AwAll(SNil, AwStmt(Break, st), map[]);
    assert AwBlock(One(Break), st) == st;
    var out := st.(names := {}, dead := true);
    assert AwBranch(Leaf, One(Break), {x}, out) == st;
    assert AwArms(NoElse, {x}, st) == st;
  }

  lemma BreakWalk(x: string, last: Stmt)
    requires DeclName(last).None?
    ensures var st := AwStmt(last, State({x}, false, {}));
            AwBlock(BreakBody(x, last), Start()) == if st.dead then st else st.(names := GiveBack(st.names, map[]))
  {
    var st, used := Start(), State({x}, false, {});
    WalkAwait(x, 1, st);
    assert st.names + {x} == {x};
    MayBreakWalk(x, {});
    assert AwAll(BreakBody(x, last), st, map[]) == AwAll(Two(MayBreak(), last), used, map[]);
    assert AwAll(Two(MayBreak(), last), used, map[]) == AwAll(One(last), used, map[]);
    assert AwAll(One(last), used, map[]) == AwAll(SNil, AwStmt(last, used), map[]);
  }

  lemma BreakRun(x: string, last: Stmt) returns (t: Trace)
    ensures ExecBlock(BreakLoop(x, last), t, Normal) && 2 in SecondAwaits(x, Top(false), t)
  {
    var tb := BreakTurn(x, last);
    assert Eval(Leaf, []) && [] + tb == tb;
    RunWhileOnce(Leaf, [], BreakBody(x, last), tb, Broke);
    EvalAwait(x, 2);
    RunTwo(While(Leaf, BreakBody(x, last)), tb, ExprStmt(AwaitAt(x, 2)), AwaitTrace(x, 2), Normal);
    t := [Enter] + (tb + AwaitTrace(x, 2)) + [Exit];
    AwaitsAfter(x, tb, 2, t);
  }

  /** A stretch that leaves the handle awaited, then an await. */
  lemma AwaitsAfter(x: string, tb: Trace, n: nat, t: Trace)
    requires Lookup(Steps(x, Scope(Unbound, Top(false)), tb)) == Used
    requires t == [Enter] + (tb + AwaitTrace(x, n)) + [Exit]
    ensures n in SecondAwaits(x, Top(false), t)
  {
    var top := Scope(Unbound, Top(false));
    StepsLast(x, Top(false), [Enter] + (tb + AwaitTrace(x, n)), Exit);
    StepsFirst(x, Top(false), Enter, tb + AwaitTrace(x, n));
    StepsConcat(x, top, tb, AwaitTrace(x, n));
    StepsAwait(x, Steps(x, top, tb), n);
  }

  /** The round that breaks, with the handle awaited. */
  lemma BreakTurn(x: string, last: Stmt) returns (t: Trace)
    ensures ExecBlock(BreakBody(x, last), t, Broke) && Lookup(Steps(x, Scope(Unbound, Top(false)), t)) == Used
  {
    var jump := [Enter] + [] + [Exit];
    var t0 := AwaitTrace(x, 1) + jump;
    BreakStop(x, last);
    t := [Enter] + t0 + [Exit];
    var top := Scope(Unbound, Top(false));
    var inner := Scope(Unbound, top);
    StepsConcat(x, inner, AwaitTrace(x, 1), jump);
    StepsAwait(x, inner, 1);
    Brackets(x, Update(inner, Used));
    StepsBlock(x, top, t0);
  }

  lemma BreakStop(x: string, last: Stmt)
    ensures ExecAll(BreakBody(x, last), AwaitTrace(x, 1) + ([Enter] + [] + [Exit]), Broke)
  {
    var jump: Trace := [Enter] + [] + [Exit];
    EvalAwait(x, 1);
    RunOne(Break, [], Broke);
    RunIfTaken(One(Break), NoElse, jump, Broke);
    RunStopped(MayBreak(), One(last), jump, Broke);
  }

  // ---- awaits where aw_expr and aw_stmt do not look

  /** Two statements, each awaiting `x` at its site; the walk does not see the first. */
  lemma HiddenMissed(x: string, s: Stmt)
    requires Exec(s, AwaitTrace(x, 1), Normal) && DeclName(s).None? && AwStmt(s, Start()) == Start()
    ensures Missed(Two(s, ExprStmt(AwaitAt(x, 2))), x, 2)
  {
    EvalAwait(x, 2);
    RunTwo(s, AwaitTrace(x, 1), ExprStmt(AwaitAt(x, 2)), AwaitTrace(x, 2), Normal);
    var t := [Enter] + (AwaitTrace(x, 1) + AwaitTrace(x, 2)) + [Exit];
    StepsAwait(x, Scope(Unbound, Top(false)), 1);
    AwaitsAfter(x, AwaitTrace(x, 1), 2, t);
    WalkAwait(x, 2, Start());
    WalkTwo(s, ExprStmt(AwaitAt(x, 2)), Start());
  }

  function Around(k: ExprKind, e: Expr): Expr { Compound(k, ECons(e, ENil)) }

  lemma EvalAround(k: ExprKind, x: string)
    ensures Eval(Around(k, AwaitAt(x, 1)), AwaitTrace(x, 1))
  {
    EvalAwait(x, 1);
    assert AwaitTrace(x, 1) + [] == AwaitTrace(x, 1) && EvalAll(ENil, []);
  }

  /** An await in a callee, in rc, heap or is, in a slice or in an enum payload. */
  lemma OperandAwaitMissed(x: string, k: ExprKind)
    requires !k.Operator? && !k.Place?
    ensures Missed(Two(ExprStmt(Around(k, AwaitAt(x, 1))), ExprStmt(AwaitAt(x, 2))), x, 2)
  {
    EvalAround(k, x);
    assert AwExprs(ENil, Start()) == Start();
    assert AwExpr(Around(k, AwaitAt(x, 1)), Start()) == Start();
    HiddenMissed(x, ExprStmt(Around(k, AwaitAt(x, 1))));
  }

  /** An await in the object of an assignment target. */
  lemma TargetAwaitMissed(x: string)
    ensures Missed(Two(Assign(Around(Place, AwaitAt(x, 1)), false, Leaf), ExprStmt(AwaitAt(x, 2))), x, 2)
  {
    EvalAround(Place, x);
    var s := Assign(Around(Place, AwaitAt(x, 1)), false, Leaf);
    assert Eval(Leaf, []) && [] + AwaitTrace(x, 1) == AwaitTrace(x, 1);
    assert Exec(s, AwaitTrace(x, 1), Normal);
    HiddenMissed(x, s);
  }

  /** `match e { p(h) => { h = v } else { return } }` */
  function BinderMatch(x: string): Stmt { Match(Leaf, Arm(Leaf, {x}, One(Put(x)), Else(One(Return(Leaf))))) }

  /** A pattern binder is not noted as a shadow: its assignment clears the outer handle. (Name resolution
      refuses a binder that shadows, E0227, but the later passes still walk the body.) */
  lemma PatternBinderMissed(x: string)
    ensures Missed(SCons(ExprStmt(AwaitAt(x, 1)), Two(BinderMatch(x), ExprStmt(AwaitAt(x, 2)))), x, 2)
  {
    var t := PatternBinderRun(x);
    PatternBinderWalk(x);
  }

  lemma PatternBinderRun(x: string) returns (t: Trace)
    ensures ExecBlock(SCons(ExprStmt(AwaitAt(x, 1)), Two(BinderMatch(x), ExprStmt(AwaitAt(x, 2)))), t, Normal)
    ensures 2 in SecondAwaits(x, Top(false), t)
  {
    EvalAwait(x, 1);
    EvalAwait(x, 2);
    var tm := BinderRun(x);
    RunTwo(BinderMatch(x), tm, ExprStmt(AwaitAt(x, 2)), AwaitTrace(x, 2), Normal);
    var rest := Two(BinderMatch(x), ExprStmt(AwaitAt(x, 2)));
    assert ExecAll(SCons(ExprStmt(AwaitAt(x, 1)), rest), AwaitTrace(x, 1) + (tm + AwaitTrace(x, 2)), Normal);
    t := [Enter] + (AwaitTrace(x, 1) + (tm + AwaitTrace(x, 2))) + [Exit];
    var used := Update(Scope(Unbound, Top(false)), Used);
    StepsAwait(x, Scope(Unbound, Top(false)), 1);
    BinderSteps(x, used, tm);
    AwaitTwice(x, 1, tm, 2, t);
  }

  lemma BinderRun(x: string) returns (t: Trace)
    ensures Exec(BinderMatch(x), t, Normal) && ExecScoped({x}, One(Put(x)), t, Normal)
  {
    assert Eval(Leaf, []);
    var w: Trace := [Write(x)];
    assert [] + w == w;
    assert StoreTo(Ident(x, 0), false, w);
    assert Exec(Put(x), w, Normal);
    RunOne(Put(x), w, Normal);
    t := [Enter, Bind({x})] + ([Enter] + w + [Exit]) + [Exit];
    assert ExecScoped({x}, One(Put(x)), t, Normal);
    assert [] + t == t;
    assert ExecArms(BinderMatch(x).cases, t, Normal);
  }

  lemma BinderSteps(x: string, env: Env, t: Trace)
    requires ExecScoped({x}, One(Put(x)), t, Normal)
    ensures Steps(x, env, t) == env
  {
    ShapeScoped(x, env, {x}, One(Put(x)), t, Normal);
  }

  lemma PatternBinderWalk(x: string)
    ensures AwBlock(SCons(ExprStmt(AwaitAt(x, 1)), Two(BinderMatch(x), ExprStmt(AwaitAt(x, 2)))), Start()).reports == {}
  {
    var st, used := Start(), State({x}, false, {});
    WalkAwait(x, 1, st);
    WalkAwait(x, 2, st);
    assert st.names + {x} == {x};
    BinderWalk(x);
    var rest := Two(BinderMatch(x), ExprStmt(AwaitAt(x, 2)));
    assert AwAll(SCons(ExprStmt(AwaitAt(x, 1)), rest), st, map[]) == AwAll(rest, used, map[]);
    assert AwAll(rest, used, map[]) == AwAll(One(ExprStmt(AwaitAt(x, 2))), st, map[]);
    assert AwAll(One(ExprStmt(AwaitAt(x, 2))), st, map[]) == AwAll(SNil, AwStmt(ExprStmt(AwaitAt(x, 2)), st), map[]);
  }

  lemma BinderWalk(x: string)
    ensures AwStmt(BinderMatch(x), State({x}, false, {})) == Start()
  {
    var used := State({x}, false, {});
    var out := State({}, true, {});
    WalkOne(Put(x), used);
    assert AwStmt(Put(x), used) == Start();
    assert AwBranch(Leaf, One(Put(x)), {x}, out) == Start();
    WalkOne(Return(Leaf), used);
    assert AwBranch(Leaf, One(Return(Leaf)), {x}, Start()) == Start();
    assert AwArms(BinderMatch(x).cases.rest, {x}, Start()) == Start();
    assert AwArms(BinderMatch(x).cases, {x}, out) == Start();
  }

  // ---- reports no run bears out

  /** `while c { await h  leave }` */
  function LeavingLoop(x: string, leave: Stmt): Stmt { While(Leaf, Two(ExprStmt(AwaitAt(x, 1)), leave)) }

  /** `while c { await h  return }`: no path awaits h twice, but the names of the returned first
      pass leak into the second, which reports the await. */
  lemma ReturningLoopSpurious(x: string)
    ensures Spurious(One(LeavingLoop(x, Return(Leaf))), x, 1)
  {
    ReturningLoopWalk(x);
    forall t, o | ExecBlock(One(LeavingLoop(x, Return(Leaf))), t, o)
      ensures 1 !in SecondAwaits(x, Top(false), t)
    {
      LeavingLoopRun(x, Return(Leaf), t, o);
    }
  }

  /** `while c { await h  break }`: the walk goes on behind the break and into a second round. */
  lemma BreakingLoopSpurious(x: string)
    ensures Spurious(One(LeavingLoop(x, Break)), x, 1)
  {
    BreakingLoopWalk(x);
    forall t, o | ExecBlock(One(LeavingLoop(x, Break)), t, o)
      ensures 1 !in SecondAwaits(x, Top(false), t)
    {
      LeavingLoopRun(x, Break, t, o);
    }
  }

  lemma BreakingLoopWalk(x: string)
    ensures Site(x, 1) in AwBlock(One(LeavingLoop(x, Break)), Start()).reports
  {
    var a := ExprStmt(AwaitAt(x, 1));
    var body, used := Two(a, Break), State({x}, false, {});
    WalkAwait(x, 1, Start());
    assert Start().names + {x} == {x};
    WalkAwait(x, 1, used);
    assert AwAll(body, Start(), map[]) == AwAll(One(Break), used, map[]);
    assert AwAll(One(Break), used, map[]) == (used, map[]);
    assert AwBlock(body, Start()) == used;
    assert SecondPass(used, Start()) == used;
    WalkTwo(a, Break, used);
    assert Site(x, 1) in AwLoop(body, Start()).reports;
    WalkOne(LeavingLoop(x, Break), Start());
  }

  lemma ReturningLoopWalk(x: string)
    ensures Site(x, 1) in AwBlock(One(LeavingLoop(x, Return(Leaf))), Start()).reports
  {
    var a := ExprStmt(AwaitAt(x, 1));
    var body := Two(a, Return(Leaf));
    var it := State({x}, true, {});
    WalkAwait(x, 1, Start());
    WalkAwait(x, 1, SecondPass(it, Start()));
    assert Start().names + {x} == {x};
    assert AwAll(body, Start(), map[]) == AwAll(One(Return(Leaf)), State({x}, false, {}), map[]);
    assert AwAll(One(Return(Leaf)), State({x}, false, {}), map[]) == (it, map[]);
    assert AwBlock(body, Start()) == it;
    WalkTwo(a, Return(Leaf), SecondPass(it, Start()));
    assert Site(x, 1) in AwLoop(body, Start()).reports;
    WalkOne(While(Leaf, body), Start());
  }

  lemma LeavingLoopRun(x: string, leave: Stmt, t: Trace, o: Outcome)
    requires ExecBlock(One(LeavingLoop(x, leave)), t, o) && (leave == Return(Leaf) || leave.Break?)
    ensures SecondAwaits(x, Top(false), t) == {}
  {
    var body := Two(ExprStmt(AwaitAt(x, 1)), leave);
    var w := LeavingLoop(x, leave);
    var t0 :| ExecAll(One(w), t0, o) && t == [Enter] + t0 + [Exit];
    var ow := OnlyOne(w, t0, o);
    var n, tc, tb, o0, t2 := SplitWhile(Leaf, body, t0, ow);
    var top := Scope(Unbound, Top(false));
    if n > 0 {
      LeavingBody(x, leave, top, tb, o0);
      assert t0 == tb;
    }
    ShapeAll(x, top, One(w), t0, o);
    StepsBlock(x, Top(false), t0);
  }

  lemma OnlyOne(s: Stmt, t: Trace, o: Outcome) returns (os: Outcome)
    requires ExecAll(One(s), t, o)
    ensures Exec(s, t, os)
  {
    var stopped, t0, t1 := SplitAll(s, SNil, t, o);
    if stopped { os := o; } else { os := Normal; assert t == t0; }
  }

  lemma LeavingBody(x: string, leave: Stmt, env: Env, t: Trace, o: Outcome)
    requires ExecBlock(Two(ExprStmt(AwaitAt(x, 1)), leave), t, o) && Lookup(env) == Fresh && (leave == Return(Leaf) || leave.Break?)
    ensures !LoopsOn(o) && SecondAwaits(x, env, t) == {}
  {
    var a := ExprStmt(AwaitAt(x, 1));
    var body := Two(a, leave);
    var t0 :| ExecAll(body, t0, o) && t == [Enter] + t0 + [Exit];
    var stopped, ta, tr := SplitAll(a, One(leave), t0, o);
    EvalAwaitOnly(x, 1, ta);
    NothingAfter(One(leave), tr, o);
    assert t0 == AwaitTrace(x, 1);
    StepsAwait(x, Scope(Unbound, env), 1);
    StepsBlock(x, env, AwaitTrace(x, 1));
  }

  /** `for h in e { await h }`: every round binds h afresh, but the walk does not know. */
  lemma LoopVariableSpurious(x: string)
    ensures Spurious(One(For(x, Leaf, One(ExprStmt(AwaitAt(x, 1))))), x, 1)
  {
    var body := One(ExprStmt(AwaitAt(x, 1)));
    LoopVariableWalk(x);
    forall t, o | ExecBlock(One(For(x, Leaf, body)), t, o)
      ensures 1 !in SecondAwaits(x, Top(false), t)
    {
      var t0 :| ExecAll(One(For(x, Leaf, body)), t0, o) && t == [Enter] + t0 + [Exit];
      var oo := OnlyOne(For(x, Leaf, body), t0, o);
      var n: nat, te, tf :| Eval(Leaf, te) && ExecFor(x, body, n, tf, oo) && t0 == te + tf;
      assert t0 == tf;
      LoopVariableRun(x, Scope(Unbound, Top(false)), n, t0, oo);
      ShapeAll(x, Scope(Unbound, Top(false)), One(For(x, Leaf, body)), t0, o);
      StepsBlock(x, Top(false), t0);
    }
  }

  lemma LoopVariableWalk(x: string)
    ensures Site(x, 1) in AwBlock(One(For(x, Leaf, One(ExprStmt(AwaitAt(x, 1))))), Start()).reports
  {
    var a, used := ExprStmt(AwaitAt(x, 1)), State({x}, false, {});
    WalkAwait(x, 1, Start());
    WalkAwait(x, 1, used);
    assert Start().names + {x} == {x};
    WalkOne(a, Start());
    assert AwBlock(One(a), Start()) == used && SecondPass(used, Start()) == used;
    WalkOne(a, used);
    WalkOne(For(x, Leaf, One(a)), Start());
  }

  lemma {:induction false} LoopVariableRun(x: string, env: Env, n: nat, t: Trace, o: Outcome)
    requires ExecFor(x, One(ExprStmt(AwaitAt(x, 1))), n, t, o)
    ensures SecondAwaits(x, env, t) == {}
    decreases n
  {
    if n > 0 {
      var body := One(ExprStmt(AwaitAt(x, 1)));
      var t0, o0, t1 :| ExecScoped({x}, body, t0, o0) && ForNext(x, body, n - 1, o0, t1, o) && t == t0 + t1;
      FreshAwait(x, env, 1, t0, o0);
      StepsConcat(x, env, t0, t1);
      if LoopsOn(o0) { LoopVariableRun(x, Steps(x, env, t0), n - 1, t1, o); }
    }
  }

  /** `await h[i]  await h[j]`: the walk takes the root of the place for the handle. */
  lemma PlaceAwaitSpurious(x: string)
    ensures var h := Around(Place, Ident(x, 0)); Spurious(Two(ExprStmt(Await(h, 1)), ExprStmt(Await(h, 2))), x, 2)
  {
    var h := Around(Place, Ident(x, 0));
    var body := Two(ExprStmt(Await(h, 1)), ExprStmt(Await(h, 2)));
    var st1 := State({x}, false, {});
    assert Start().names + {x} == {x};
    PlaceAwaitWalk(x, 1, Start());
    PlaceAwaitWalk(x, 2, st1);
    WalkTwo(ExprStmt(Await(h, 1)), ExprStmt(Await(h, 2)), Start());
    forall t, o | ExecBlock(body, t, o)
      ensures 2 !in SecondAwaits(x, Top(false), t)
    {
      PlaceAwaitEvents(x, 1);
      PlaceAwaitEvents(x, 2);
      assert EventsAll(One(ExprStmt(Await(h, 2)))) == {Read(x, 0)} + EventsAll(SNil);
      ExecBlockWithin(body, t, o);
      NoAwaitsAt(x, Top(false), t);
    }
  }

  lemma PlaceAwaitEvents(x: string, n: nat)
    ensures Events(ExprStmt(Await(Around(Place, Ident(x, 0)), n))) == {Read(x, 0)}
  {
    var h := Around(Place, Ident(x, 0));
    assert EventsEs(h.parts) == EventsE(Ident(x, 0)) + EventsEs(ENil);
    assert EventsE(h) == {Read(x, 0)};
  }

  lemma PlaceAwaitWalk(x: string, n: nat, st: State)
    ensures AwExpr(Await(Around(Place, Ident(x, 0)), n), st)
         == State(st.names + {x}, st.dead, if x in st.names then st.reports + {Site(x, n)} else st.reports)
  {
    var h := Around(Place, Ident(x, 0));
    assert AwExprs(h.parts, st) == AwExprs(ENil, st);
    assert AwExpr(h, st) == st && RootName(h) == Some(x);
  }

  lemma {:induction false} NoAwaitsAt(x: string, env: Env, t: Trace)
    requires forall i :: 0 <= i < |t| ==> !t[i].Awaited?
    ensures SecondAwaits(x, env, t) == {}
    decreases |t|
  {
    if t != [] { NoAwaitsAt(x, Step(x, env, t[0]), t[1..]); }
  }

  /** `match e { p(h) => { await h } }` */
  function BinderAwait(x: string): Stmt { Match(Leaf, Arm(Leaf, {x}, One(ExprStmt(AwaitAt(x, 2))), NoElse)) }

  /** A pattern binder that shadows (refused with E0227, but walked) is taken for the outer handle. */
  lemma PatternAwaitSpurious(x: string)
    ensures Spurious(Two(ExprStmt(AwaitAt(x, 1)), BinderAwait(x)), x, 2)
  {
    var a, m := ExprStmt(AwaitAt(x, 1)), BinderAwait(x);
    PatternAwaitWalk(x);
    forall t, o | ExecBlock(Two(a, m), t, o)
      ensures 2 !in SecondAwaits(x, Top(false), t)
    {
      var t0 :| ExecAll(Two(a, m), t0, o) && t == [Enter] + t0 + [Exit];
      var top := Scope(Unbound, Top(false));
      var stopped, ta, tm := SplitAll(a, One(m), t0, o);
      EvalAwaitOnly(x, 1, ta);
      var om := OnlyOne(m, tm, o);
      StepsAwait(x, top, 1);
      PatternAwaitRun(x, Steps(x, top, ta), tm, om);
      StepsConcat(x, top, ta, tm);
      ShapeAll(x, top, Two(a, m), t0, o);
      StepsBlock(x, Top(false), t0);
    }
  }

  lemma PatternAwaitWalk(x: string)
    ensures Site(x, 2) in AwBlock(Two(ExprStmt(AwaitAt(x, 1)), BinderAwait(x)), Start()).reports
  {
    var used := State({x}, false, {});
    var out := State({}, true, {});
    WalkAwait(x, 1, Start());
    assert Start().names + {x} == {x};
    WalkAwait(x, 2, used);
    WalkOne(ExprStmt(AwaitAt(x, 2)), used);
    var out1 := AwBranch(Leaf, One(ExprStmt(AwaitAt(x, 2))), {x}, out);
    assert Site(x, 2) in out1.reports;
    assert AwArms(NoElse, {x}, out1).reports == out1.reports;
    assert AwArms(BinderAwait(x).cases, {x}, out) == AwArms(NoElse, {x}, out1);
    WalkTwo(ExprStmt(AwaitAt(x, 1)), BinderAwait(x), Start());
  }

  lemma PatternAwaitRun(x: string, env: Env, t: Trace, o: Outcome)
    requires Exec(BinderAwait(x), t, o)
    ensures SecondAwaits(x, env, t) == {}
  {
    var t0, t1 :| Eval(Leaf, t0) && ExecArms(BinderAwait(x).cases, t1, o) && t == t0 + t1;
    var t2, t3 :| Eval(Leaf, t2) && t1 == t2 + t3 && (ExecScoped({x}, One(ExprStmt(AwaitAt(x, 2))), t3, o) || ExecArms(NoElse, t3, o));
    assert t == t3;
    if ExecScoped({x}, One(ExprStmt(AwaitAt(x, 2))), t3, o) { FreshAwait(x, env, 2, t3, o); }
  }

  /** One await in a scope that binds `x`. */
  lemma FreshAwait(x: string, env: Env, n: nat, t: Trace, o: Outcome)
    requires ExecScoped({x}, One(ExprStmt(AwaitAt(x, n))), t, o)
    ensures SecondAwaits(x, env, t) == {}
  {
    var body, inner := One(ExprStmt(AwaitAt(x, n))), ScopeOf(x, {x}, env);
    var tb :| ExecBlock(body, tb, o) && t == [Enter, Bind({x})] + tb + [Exit];
    var ta :| ExecAll(body, ta, o) && tb == [Enter] + ta + [Exit];
    var oa := OnlyOne(ExprStmt(AwaitAt(x, n)), ta, o);
    EvalAwaitOnly(x, n, ta);
    StepsAwait(x, Scope(Unbound, inner), n);
    StepsBlock(x, inner, ta);
    ShapeBlock(x, inner, body, tb, o);
    StepsScoped(x, env, {x}, tb);
  }

  /** `spawn h  if d { await h  break }  await h`, as a loop body. */
  function JumpingArm(x: string): Stmts { SCons(Spawn(x), Two(AwaitAndBreak(x), ExprStmt(AwaitAt(x, 2)))) }

  function AwaitAndBreak(x: string): Stmt { If(Leaf, Two(ExprStmt(AwaitAt(x, 1)), Break), NoElse) }

  /** The join keeps the names of a branch that breaks. */
  lemma JumpingArmSpurious(x: string)
    ensures Spurious(One(While(Leaf, JumpingArm(x))), x, 2)
  {
    JumpingArmWalk(x);
    forall t, o | ExecBlock(One(While(Leaf, JumpingArm(x))), t, o)
      ensures 2 !in SecondAwaits(x, Top(false), t)
    {
      var w, top := While(Leaf, JumpingArm(x)), Scope(Unbound, Top(false));
      var t0 :| ExecAll(One(w), t0, o) && t == [Enter] + t0 + [Exit];
      var ow := OnlyOne(w, t0, o);
      var n: nat :| ExecWhile(Leaf, JumpingArm(x), n, t0, ow);
      JumpingArmRounds(x, top, n, t0, ow);
      ShapeAll(x, top, One(w), t0, o);
      StepsBlock(x, Top(false), t0);
    }
  }

  lemma JumpingArmWalk(x: string)
    ensures Site(x, 2) in AwBlock(One(While(Leaf, JumpingArm(x))), Start()).reports
  {
    var body, st, used := JumpingArm(x), Start(), State({x}, false, {});
    var rest := Two(AwaitAndBreak(x), ExprStmt(AwaitAt(x, 2)));
    AwaitAndBreakWalk(x);
    WalkAwait(x, 2, used);
    var saved := map[x := false];
    assert AwStmt(Spawn(x), st) == st && Shadow(Spawn(x), st.names, map[]) == saved;
    assert AwAll(body, st, map[]) == AwAll(rest, st, saved);
    assert AwAll(rest, st, saved) == AwAll(One(ExprStmt(AwaitAt(x, 2))), used, saved);
    assert AwAll(One(ExprStmt(AwaitAt(x, 2))), used, saved) == AwAll(SNil, AwExpr(AwaitAt(x, 2), used), saved);
    assert Site(x, 2) in AwBlock(body, st).reports;
    ReportsBlock(body, SecondPass(AwBlock(body, st), st));
    WalkOne(While(Leaf, body), st);
  }

  lemma AwaitAndBreakWalk(x: string)
    ensures AwStmt(AwaitAndBreak(x), Start()) == State({x}, false, {})
  {
    var a, used, out := ExprStmt(AwaitAt(x, 1)), State({x}, false, {}), State({}, true, {});
    WalkAwait(x, 1, Start());
    assert Start().names + {x} == {x};
    assert AwAll(Two(a, Break), Start(), map[]) == AwAll(One(Break), used, map[]);
    assert AwAll(One(Break), used, map[]) == AwAll(SNil, used, map[]);
    assert AwBlock(Two(a, Break), Start()) == used;
    assert AwBranch(Leaf, Two(a, Break), {}, out) == used;
    assert AwArms(NoElse, {}, used) == used;
  }

  lemma {:induction false} JumpingArmRounds(x: string, env: Env, n: nat, t: Trace, o: Outcome)
    requires ExecWhile(Leaf, JumpingArm(x), n, t, o)
    ensures SecondAwaits(x, env, t) == {}
    decreases n
  {
    var body := JumpingArm(x);
    var t0, t1 :| Eval(Leaf, t0) && WhileRest(Leaf, body, n, t1, o) && t == t0 + t1;
    assert t == t1;
    if n > 0 {
      var tb, o0, t2 := SplitRest(Leaf, body, n, t1, o);
      JumpingArmRound(x, env, tb, o0);
      StepsConcat(x, env, tb, t2);
      if LoopsOn(o0) { JumpingArmRounds(x, Steps(x, env, tb), n - 1, t2, o); }
    }
  }

  lemma JumpingArmRound(x: string, env: Env, t: Trace, o: Outcome)
    requires ExecBlock(JumpingArm(x), t, o)
    ensures SecondAwaits(x, env, t) == {}
  {
    var body, inner := JumpingArm(x), Scope(Unbound, env);
    var rest := Two(AwaitAndBreak(x), ExprStmt(AwaitAt(x, 2)));
    var t0 :| ExecAll(body, t0, o) && t == [Enter] + t0 + [Exit];
    var stopped, ts, tr := SplitAll(Spawn(x), rest, t0, o);
    assert t0 == [Bind({x})] + tr;
    StepsFirst(x, inner, Bind({x}), tr);
    AfterSpawn(x, Scope(Fresh, env), tr, o);
    ShapeAll(x, inner, body, t0, o);
    StepsBlock(x, env, t0);
  }

  lemma AfterSpawn(x: string, env: Env, t: Trace, o: Outcome)
    requires ExecAll(Two(AwaitAndBreak(x), ExprStmt(AwaitAt(x, 2))), t, o) && Lookup(env) == Fresh
    ensures SecondAwaits(x, env, t) == {}
  {
    var stopped, ti, tl := SplitAll(AwaitAndBreak(x), One(ExprStmt(AwaitAt(x, 2))), t, o);
    if stopped {
      AwaitAndBreakRun(x, env, t, o);
    } else {
      AwaitAndBreakRun(x, env, ti, Normal);
      assert t == tl;
      var ol := OnlyOne(ExprStmt(AwaitAt(x, 2)), tl, o);
      EvalAwaitOnly(x, 2, tl);
      StepsAwait(x, env, 2);
    }
  }

  lemma AwaitAndBreakRun(x: string, env: Env, t: Trace, o: Outcome)
    requires Exec(AwaitAndBreak(x), t, o) && Lookup(env) == Fresh
    ensures SecondAwaits(x, env, t) == {} && (o == Normal ==> t == [])
  {
    var t0, t1 :| Eval(Leaf, t0) && t == t0 + t1 && (ExecBlock(Two(ExprStmt(AwaitAt(x, 1)), Break), t1, o) || ExecArms(NoElse, t1, o));
    assert t == t1;
    if ExecBlock(Two(ExprStmt(AwaitAt(x, 1)), Break), t1, o) { LeavingBody(x, Break, env, t, o); }
  }
}
