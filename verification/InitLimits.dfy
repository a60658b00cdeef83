/**
 Where definite assignment is neither sound nor exact. For each condition of the theorems in InitSound
 and InitExact there is a concrete body without it that is accepted although a run reads too early,
 or reported although no run does.
 */
module InitLimits {
  import opened IronCore
  import opened InitCheck
  import opened InitSound
  import opened Programs

  /** The walk is silent about site `n`, yet a run reads `x` there before assigning it. */
  ghost predicate Missed(body: Stmts, x: string, n: nat) {
    && Report(x, n) !in WalkAll(body, Start()).reports
    && exists t, o :: ExecBlock(body, t, o) && n in EarlyReads(x, Outside, t)
  }

  /** The walk reports site `n`, yet no run reads `x` there before assigning it. */
  ghost predicate Spurious(body: Stmts, x: string, n: nat) {
    && Report(x, n) in WalkAll(body, Start()).reports
    && forall t, o :: ExecBlock(body, t, o) ==> n !in EarlyReads(x, Outside, t)
  }

  /** `var x` followed by one statement. */
  function AfterDecl(x: string, s: Stmt): Stmts { Two(Decl(x, NoInit), s) }

  lemma WalkTwo(a: Stmt, b: Stmt, st: State)
    ensures WalkAll(Two(a, b), st) == WalkStmt(b, WalkStmt(a, st))
  {
    assert WalkAll(SCons(b, SNil), WalkStmt(a, st)) == WalkStmt(b, WalkStmt(a, st));
  }

  /** In a fresh scope, `var x` and then a read of `x`. */
  lemma Early(x: string, env: Env, t: Trace, n: nat)
    ensures Steps(x, env, [Enter, Declare(x)] + t) == Steps(x, Scope(Blank, env), t)
    ensures EarlyReads(x, env, [Enter, Declare(x)] + t) == EarlyReads(x, Scope(Blank, env), t)
    ensures t != [] && t[0] == Read(x, n) ==> n in EarlyReads(x, Scope(Blank, env), t)
  {
    assert [Enter, Declare(x)] + t == [Enter] + ([Declare(x)] + t);
    StepsFirst(x, env, Enter, [Declare(x)] + t);
    StepsFirst(x, Scope(Unbound, env), Declare(x), t);
  }

  lemma EarlyRun(x: string, s: Stmt, t: Trace, n: nat) returns (all: Trace)
    requires Exec(s, t, Normal) && t != [] && t[0] == Read(x, n)
    ensures ExecBlock(AfterDecl(x, s), all, Normal) && n in EarlyReads(x, Outside, all)
  {
    RunTwo(Decl(x, NoInit), [Declare(x)], s, t, Normal);
    all := [Enter] + ([Declare(x)] + t) + [Exit];
    assert all == [Enter, Declare(x)] + (t + [Exit]);
    Early(x, Outside, t + [Exit], n);
  }

  /** A statement whose first event reads `x`, not reported right after `var x`. */
  lemma MissedAfterDecl(x: string, s: Stmt, t: Trace, n: nat)
    requires Exec(s, t, Normal) && t != [] && t[0] == Read(x, n)
    requires Report(x, n) !in WalkStmt(s, Register(x, Start())).reports
    ensures Missed(AfterDecl(x, s), x, n)
  {
    var all := EarlyRun(x, s, t, n);
    WalkTwo(Decl(x, NoInit), s, Start());
    assert WalkStmt(Decl(x, NoInit), Start()) == Register(x, Start());
  }

  lemma RunStore(target: Expr, compound: bool, t: Trace)
    requires StoreTo(target, compound, t)
    ensures Exec(Assign(target, compound, Leaf), t, Normal)
  {
    assert Eval(Leaf, []) && t == [] + t;
  }

  /** `var x; x += 1` reads x, but the walk only marks it. */
  lemma CompoundAssignmentMissed(x: string)
    ensures Missed(AfterDecl(x, Assign(Ident(x, 1), true, Leaf)), x, 1)
  {
    var t := [Read(x, 1)] + [Write(x)];
    RunStore(Ident(x, 1), true, t);
    MissedAfterDecl(x, Assign(Ident(x, 1), true, Leaf), t, 1);
  }

  function PartOf(k: ExprKind, x: string): Expr { Compound(k, ECons(Ident(x, 1), ENil)) }

  lemma EvalPart(k: ExprKind, x: string)
    ensures Eval(PartOf(k, x), [Read(x, 1)])
  {
    assert [Read(x, 1)] + [] == [Read(x, 1)];
    assert EvalAll(ENil, []) && Eval(Ident(x, 1), [Read(x, 1)]);
  }

  /** `x.f = 1` reads x, but an assignment target other than an identifier is not walked. */
  lemma PlaceTargetMissed(x: string)
    ensures Missed(AfterDecl(x, Assign(PartOf(Place, x), false, Leaf)), x, 1)
  {
    EvalPart(Place, x);
    RunStore(PartOf(Place, x), false, [Read(x, 1)]);
    MissedAfterDecl(x, Assign(PartOf(Place, x), false, Leaf), [Read(x, 1)], 1);
  }

  /** The payload of an enum construction is not walked. */
  lemma EnumPayloadMissed(x: string)
    ensures Missed(AfterDecl(x, ExprStmt(PartOf(EnumConstruct, x))), x, 1)
  {
    EvalPart(EnumConstruct, x);
    MissedAfterDecl(x, ExprStmt(PartOf(EnumConstruct, x)), [Read(x, 1)], 1);
  }

  lemma RunSkip(rest: Arms, t: Trace)
    requires ExecArms(rest, t, Normal)
    ensures Exec(If(Leaf, SNil, rest), t, Normal)
  {
    assert Eval(Leaf, []) && t == [] + t;
  }

  /** Without an else, the elif arms are not walked at all. */
  lemma ElifWithoutElseMissed(x: string)
    ensures Missed(AfterDecl(x, If(Leaf, SNil, Arm(Ident(x, 1), {}, SNil, NoElse))), x, 1)
  {
    var rest := Arm(Ident(x, 1), {}, SNil, NoElse);
    var t := [Read(x, 1)];
    assert t + [] == t && [] + t == t;
    assert ExecArms(rest, t, Normal) by { assert Eval(Ident(x, 1), t) && ExecArms(NoElse, [], Normal); }
    RunSkip(rest, t);
    var st := Register(x, Start());
    assert !HasElse(NoElse) && !HasElse(rest);
    assert WalkStmt(If(Leaf, SNil, rest), st) == WalkAside(SNil, Use(Leaf, st));
    MissedAfterDecl(x, If(Leaf, SNil, rest), t, 1);
  }

  /** After a return the read is dead code: no run reaches it, but it is reported. */
  lemma DeadReadSpurious(x: string)
    ensures Spurious(AfterDecl(x, Block(Two(Return(Leaf), ExprStmt(Ident(x, 1))))), x, 1)
  {
    DeadReadReported(x);
    forall t, o | ExecBlock(AfterDecl(x, Block(Two(Return(Leaf), ExprStmt(Ident(x, 1))))), t, o)
      ensures 1 !in EarlyReads(x, Outside, t)
    {
      DeadReadNotRun(x, t, o);
    }
  }

  lemma DeadReadReported(x: string)
    ensures Report(x, 1) in WalkAll(AfterDecl(x, Block(Two(Return(Leaf), ExprStmt(Ident(x, 1))))), Start()).reports
  {
    var dead := Two(Return(Leaf), ExprStmt(Ident(x, 1)));
    WalkTwo(Decl(x, NoInit), Block(dead), Start());
    WalkTwo(Return(Leaf), ExprStmt(Ident(x, 1)), Register(x, Start()));
  }

  lemma DeadReadNotRun(x: string, t: Trace, o: Outcome)
    requires ExecBlock(AfterDecl(x, Block(Two(Return(Leaf), ExprStmt(Ident(x, 1))))), t, o)
    ensures 1 !in EarlyReads(x, Outside, t)
  {
    var t0 :| ExecAll(AfterDecl(x, Block(Two(Return(Leaf), ExprStmt(Ident(x, 1))))), t0, o) && t == [Enter] + t0 + [Exit];
    DeadRun(x, t0, o);
    assert t == [Enter, Declare(x)] + ([Enter, Exit] + [Exit]);
    Early(x, Outside, [Enter, Exit] + [Exit], 1);
    StepsLast(x, Scope(Blank, Outside), [Enter, Exit], Exit);
    StepsLast(x, Scope(Blank, Outside), [Enter], Exit);
    assert [Enter] + [Exit] == [Enter, Exit];
  }

  lemma DeadRun(x: string, t: Trace, o: Outcome)
    requires ExecAll(AfterDecl(x, Block(Two(Return(Leaf), ExprStmt(Ident(x, 1))))), t, o)
    ensures t == [Declare(x), Enter, Exit]
  {
    var dead := Two(Return(Leaf), ExprStmt(Ident(x, 1)));
    var rest := SCons(Block(dead), SNil);
    var d := Decl(x, NoInit);
    assert !Exec(d, t, o) || o == Normal;
    var t0, t1 :| Exec(d, t0, Normal) && ExecAll(rest, t1, o) && t == t0 + t1;
    assert t0 == [Declare(x)];
    if o != Normal && Exec(Block(dead), t1, o) {
      DeadBlock(x, t1, o);
      assert t == [Declare(x)] + [Enter, Exit];
    } else {
      var t2, t3 :| Exec(Block(dead), t2, Normal) && ExecAll(SNil, t3, o) && t1 == t2 + t3;
      DeadBlock(x, t2, Normal);
    }
  }

  lemma DeadBlock(x: string, t: Trace, o: Outcome)
    requires Exec(Block(Two(Return(Leaf), ExprStmt(Ident(x, 1)))), t, o)
    ensures t == [Enter, Exit] && o == Returned
  {
    var dead := Two(Return(Leaf), ExprStmt(Ident(x, 1)));
    var t0 :| ExecAll(dead, t0, o) && t == [Enter] + t0 + [Exit];
    NothingAfter(dead, t0, o);
  }

  /** Two blocks declaring `var x`: the assignment in the first vouches for the second. */
  lemma ReusedNameMissed(x: string)
    ensures Missed(Two(Block(AfterDecl(x, Assign(Ident(x, 0), false, Leaf))), Block(AfterDecl(x, ExprStmt(Ident(x, 1))))), x, 1)
  {
    var t := ReusedNameExec(x);
    ReusedNameWalk(x);
  }

  lemma ReusedNameExec(x: string) returns (t: Trace)
    ensures ExecBlock(Two(Block(AfterDecl(x, Assign(Ident(x, 0), false, Leaf))), Block(AfterDecl(x, ExprStmt(Ident(x, 1))))), t, Normal)
    ensures 1 in EarlyReads(x, Outside, t)
  {
    SetBlock(x);
    UseBlock(x);
    var ta, tb := [Enter, Declare(x), Write(x), Exit], [Enter, Declare(x), Read(x, 1), Exit];
    t := TwoBlocks(AfterDecl(x, Assign(Ident(x, 0), false, Leaf)), ta, AfterDecl(x, ExprStmt(Ident(x, 1))), tb);
    assert t == [Enter] + (ta + (tb + [Exit]));
    ReusedNameRun(x, ta, tb + [Exit]);
  }

  lemma TwoBlocks(a: Stmts, ta: Trace, b: Stmts, tb: Trace) returns (t: Trace)
    requires ExecBlock(a, ta, Normal) && ExecBlock(b, tb, Normal)
    ensures ExecBlock(Two(Block(a), Block(b)), t, Normal) && t == [Enter] + (ta + tb) + [Exit]
  {
    t := [Enter] + (ta + tb) + [Exit];
    RunTwo(Block(a), ta, Block(b), tb, Normal);
  }

  lemma SetBlock(x: string)
    ensures ExecBlock(AfterDecl(x, Assign(Ident(x, 0), false, Leaf)), [Enter, Declare(x), Write(x), Exit], Normal)
  {
    assert [] + [Write(x)] == [Write(x)];
    RunStore(Ident(x, 0), false, [Write(x)]);
    RunTwo(Decl(x, NoInit), [Declare(x)], Assign(Ident(x, 0), false, Leaf), [Write(x)], Normal);
    assert [Enter] + ([Declare(x)] + [Write(x)]) + [Exit] == [Enter, Declare(x), Write(x), Exit];
  }

  lemma UseBlock(x: string)
    ensures ExecBlock(AfterDecl(x, ExprStmt(Ident(x, 1))), [Enter, Declare(x), Read(x, 1), Exit], Normal)
  {
    RunTwo(Decl(x, NoInit), [Declare(x)], ExprStmt(Ident(x, 1)), [Read(x, 1)], Normal);
    assert [Enter] + ([Declare(x)] + [Read(x, 1)]) + [Exit] == [Enter, Declare(x), Read(x, 1), Exit];
  }

  lemma ReusedNameRun(x: string, ta: Trace, tb: Trace)
    requires ta == [Enter, Declare(x), Write(x), Exit] && tb == [Enter, Declare(x), Read(x, 1), Exit, Exit]
    ensures 1 in EarlyReads(x, Outside, [Enter] + (ta + tb))
  {
    var top := Scope(Unbound, Outside);
    StepsFirst(x, Outside, Enter, ta + tb);
    StepsConcat(x, top, ta, tb);
    assert ta == [Enter, Declare(x)] + [Write(x), Exit];
    Early(x, top, [Write(x), Exit], 1);
    assert [Write(x)] + [Exit] == [Write(x), Exit] && [Exit] + [] == [Exit];
    StepsFirst(x, Scope(Blank, top), Write(x), [Exit]);
    StepsFirst(x, Scope(Filled, top), Exit, []);
    assert tb == [Enter, Declare(x)] + [Read(x, 1), Exit, Exit];
    Early(x, top, [Read(x, 1), Exit, Exit], 1);
  }

  lemma ReusedNameWalk(x: string)
    ensures WalkAll(Two(Block(AfterDecl(x, Assign(Ident(x, 0), false, Leaf))), Block(AfterDecl(x, ExprStmt(Ident(x, 1))))), Start()).reports == {}
  {
    var put, use := Assign(Ident(x, 0), false, Leaf), ExprStmt(Ident(x, 1));
    var a, b := AfterDecl(x, put), AfterDecl(x, use);
    WalkTwo(Block(a), Block(b), Start());
    WalkTwo(Decl(x, NoInit), put, Start());
    var st1 := WalkAll(a, Start());
    assert st1.tracked == {x} && st1.done == {x} && st1.reports == {};
    WalkTwo(Decl(x, NoInit), use, st1);
  }

  /** `{ var x }  x`: the inner variable stays tracked, and the read of the outer one is reported. */
  lemma OuterReadSpurious(x: string)
    ensures Spurious(Two(Block(One(Decl(x, NoInit))), ExprStmt(Ident(x, 1))), x, 1)
  {
    var inner, use := One(Decl(x, NoInit)), ExprStmt(Ident(x, 1));
    WalkTwo(Block(inner), use, Start());
    assert WalkAll(inner, Start()) == WalkAll(SNil, Register(x, Start()));
    assert Unset(Register(x, Start()).tracked, Register(x, Start()).done, x);
    forall t, o | ExecBlock(Two(Block(inner), use), t, o)
      ensures 1 !in EarlyReads(x, Outside, t)
    {
      var t0 :| ExecAll(Two(Block(inner), use), t0, o) && t == [Enter] + t0 + [Exit];
      OuterReadRun(x, Scope(Unbound, Outside), t0, o);
      GrowAll(x, Scope(Unbound, Outside), Two(Block(inner), use), t0, o);
      StepsBlock(x, Outside, t0);
    }
  }

  lemma OuterReadRun(x: string, env: Env, t: Trace, o: Outcome)
    requires ExecAll(Two(Block(One(Decl(x, NoInit))), ExprStmt(Ident(x, 1))), t, o) && Lookup(env) != Blank
    ensures EarlyReads(x, env, t) == {}
  {
    var inner, use := One(Decl(x, NoInit)), ExprStmt(Ident(x, 1));
    var stopped, tb, tu := SplitAll(Block(inner), One(use), t, o);
    var ob := if stopped then o else Normal;
    var t0 := if stopped then t else tb;
    InnerVarRun(x, env, t0, ob);
    if !stopped {
      var stopped1, t1, t2 := SplitAll(use, SNil, tu, o);
      assert tu == [Read(x, 1)];
      QuietSteps(x, env, tu);
      StepsConcat(x, env, tb, tu);
    }
  }

  lemma InnerVarRun(x: string, env: Env, t: Trace, o: Outcome)
    requires ExecBlock(One(Decl(x, NoInit)), t, o)
    ensures Steps(x, env, t) == env && EarlyReads(x, env, t) == {}
  {
    var t0 :| ExecAll(One(Decl(x, NoInit)), t0, o) && t == [Enter] + t0 + [Exit];
    var stopped, t1, t2 := SplitAll(Decl(x, NoInit), SNil, t0, o);
    assert t0 == [] + [Declare(x)];
    StepsLast(x, Scope(Unbound, env), [], Declare(x));
    StepsBlock(x, env, t0);
  }

  /** `match e { else { x = 1 } }` */
  function ElseOnly(x: string): Stmt { Match(Leaf, Else(One(Assign(Ident(x, 0), false, Leaf)))) }

  /** A match that is only an else always assigns, but its flags are put back. */
  lemma ElseOnlySpurious(x: string)
    ensures Spurious(SCons(Decl(x, NoInit), Two(ElseOnly(x), ExprStmt(Ident(x, 1)))), x, 1)
  {
    var rest := Two(ElseOnly(x), ExprStmt(Ident(x, 1)));
    var body := SCons(Decl(x, NoInit), rest);
    ElseOnlyWalk(x);
    forall t, o | ExecBlock(body, t, o)
      ensures 1 !in EarlyReads(x, Outside, t)
    {
      var top := Scope(Unbound, Outside);
      var t0 :| ExecAll(body, t0, o) && t == [Enter] + t0 + [Exit];
      var stopped, td, tr := SplitAll(Decl(x, NoInit), rest, t0, o);
      assert t0 == [Declare(x)] + tr;
      StepsFirst(x, top, Declare(x), tr);
      ElseOnlyThenRead(x, Scope(Blank, Outside), tr, o);
      GrowAll(x, top, body, t0, o);
      StepsBlock(x, Outside, t0);
    }
  }

  lemma ElseOnlyWalk(x: string)
    ensures Report(x, 1) in WalkAll(SCons(Decl(x, NoInit), Two(ElseOnly(x), ExprStmt(Ident(x, 1)))), Start()).reports
  {
    var st := Register(x, Start());
    var st1 := WalkStmt(ElseOnly(x), st);
    assert st1.done == st.done && x in st1.tracked;
    WalkTwo(ElseOnly(x), ExprStmt(Ident(x, 1)), st);
  }

  lemma ElseOnlyThenRead(x: string, env: Env, t: Trace, o: Outcome)
    requires ExecAll(Two(ElseOnly(x), ExprStmt(Ident(x, 1))), t, o) && env == Scope(Blank, Outside)
    ensures EarlyReads(x, env, t) == {}
  {
    var use := ExprStmt(Ident(x, 1));
    var stopped, tm, tu := SplitAll(ElseOnly(x), One(use), t, o);
    ElseOnlyRun(x, env, if stopped then t else tm, if stopped then o else Normal);
    if !stopped {
      var stopped1, t1, t2 := SplitAll(use, SNil, tu, o);
      assert tu == [Read(x, 1)];
      StepsConcat(x, env, tm, tu);
      QuietSteps(x, Steps(x, env, tm), tu);
    }
  }

  lemma ElseOnlyRun(x: string, env: Env, t: Trace, o: Outcome)
    requires Exec(ElseOnly(x), t, o) && env == Scope(Blank, Outside)
    ensures Steps(x, env, t) == Scope(Filled, Outside) && EarlyReads(x, env, t) == {}
  {
    var put := Assign(Ident(x, 0), false, Leaf);
    var t0, t1 :| Eval(Leaf, t0) && ExecArms(Else(One(put)), t1, o) && t == t0 + t1;
    assert t == t1;
    assert ExecBlock(One(put), t, o);
    var t2 :| ExecAll(One(put), t2, o) && t == [Enter] + t2 + [Exit];
    var stopped, t3, t4 := SplitAll(put, SNil, t2, o);
    assert t2 == [] + [Write(x)];
    StepsLast(x, Scope(Unbound, env), [], Write(x));
    StepsBlock(x, env, t2);
  }

  /** Names other than `x`: v, vv, vvv and so on. */
  function Filler(n: nat): string { seq(n + 1, _ => 'v') }

  /** `n` uninitialised variables, then `rest`. */
  function ManyVars(n: nat, rest: Stmts): Stmts {
    if n == 0 then rest else SCons(Decl(Filler(n), NoInit), ManyVars(n - 1, rest))
  }

  /** Behind 256 variables another one is not tracked: only the note about the cap is given. */
  lemma CapMissed(n: nat)
    requires n >= 256
    ensures var body := ManyVars(n, AfterDecl("x", ExprStmt(Ident("x", 1))));
            Missed(body, "x", 1) && WalkAll(body, Start()).capNoted
  {
    var last := AfterDecl("x", ExprStmt(Ident("x", 1)));
    CapWalk(n, last);
    var t := CapRun(n, last);
  }

  lemma CapWalk(n: nat, last: Stmts)
    requires n >= 256 && last == AfterDecl("x", ExprStmt(Ident("x", 1)))
    ensures var r := WalkAll(ManyVars(n, last), Start()); r.reports == {} && r.capNoted
  {
    var st := ManyVarsWalk(n, last, Start());
    WalkTwo(Decl("x", NoInit), ExprStmt(Ident("x", 1)), st);
  }

  lemma CapRun(n: nat, last: Stmts) returns (t: Trace)
    requires last == AfterDecl("x", ExprStmt(Ident("x", 1)))
    ensures ExecBlock(ManyVars(n, last), t, Normal) && 1 in EarlyReads("x", Outside, t)
  {
    var top := Scope(Unbound, Outside);
    var read: Trace := [Read("x", 1)];
    RunTwo(Decl("x", NoInit), [Declare("x")], ExprStmt(Ident("x", 1)), read, Normal);
    var t0 := ManyVarsRun(n, last, top, [Declare("x")] + read);
    StepsFirst("x", top, Declare("x"), read);
    QuietSteps("x", Scope(Blank, Outside), read);
    assert read[0].site == 1 && 1 in EarlyReads("x", Scope(Blank, Outside), read);
    GrowAll("x", top, ManyVars(n, last), t0, Normal);
    StepsBlock("x", Outside, t0);
    t := [Enter] + t0 + [Exit];
  }

  lemma {:induction false} ManyVarsWalk(n: nat, rest: Stmts, st: State) returns (st': State)
    requires "x" !in st.tracked
    ensures WalkAll(ManyVars(n, rest), st) == WalkAll(rest, st')
    ensures st.count + n >= 256 ==> st'.count >= 256
    ensures "x" !in st'.tracked && st'.reports == st.reports
    decreases n
  {
    st' := st;
    if n > 0 {
      assert Filler(n)[0] == 'v';
      st' := ManyVarsWalk(n - 1, rest, Register(Filler(n), st));
    }
  }

  lemma {:induction false} ManyVarsRun(n: nat, rest: Stmts, env: Env, t: Trace) returns (t': Trace)
    requires ExecAll(rest, t, Normal)
    ensures ExecAll(ManyVars(n, rest), t', Normal) && EarlyReads("x", env, t') == EarlyReads("x", env, t)
    decreases n
  {
    t' := t;
    if n > 0 {
      assert Filler(n)[0] == 'v';
      var t0 := ManyVarsRun(n - 1, rest, env, t);
      var d := Decl(Filler(n), NoInit);
      assert Exec(d, [Declare(Filler(n))], Normal);
      t' := [Declare(Filler(n))] + t0;
      StepsFirst("x", env, Declare(Filler(n)), t0);
    }
  }
}
