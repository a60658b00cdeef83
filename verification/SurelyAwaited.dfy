/**
 "Is this spawn surely awaited in its block?" (src/analyzer/capture.c): a syntactic test on the
 statements that follow the spawn, and what it promises about every run of them.
 */
module SurelyAwaited {
  import opened IronCore
  import opened Programs

  /** Does evaluating `e` always await `x`? The right side of and / or may be skipped. */
  predicate ExprSurely(e: Expr, x: string)
    decreases e
  {
    match e
    case Leaf => false
    case Ident(_, _) => false
    case Await(h, _) => (h.Ident? && h.name == x) || ExprSurely(h, x)
    case Logical(l, _) => ExprSurely(l, x)
    case Compound(k, es) => k != SliceExpr && k != EnumConstruct && SomeSurely(es, x)
  }

  predicate SomeSurely(es: Exprs, x: string)
    decreases es
  {
    es.ECons? && (ExprSurely(es.head, x) || SomeSurely(es.tail, x))
  }

  predicate StmtSurely(s: Stmt, x: string)
    decreases s
  {
    match s
    case Decl(_, i) => i.Value? && ExprSurely(i.e, x)
    case Assign(target, _, v) => ExprSurely(v, x) || ExprSurely(target, x)
    case Return(e) => ExprSurely(e, x)
    case ExprStmt(e) => ExprSurely(e, x)
    case Block(ss) => AnySurely(ss, x)
    case _ => false
  }

  predicate AnySurely(ss: Stmts, x: string)
    decreases ss
  {
    ss.SCons? && (StmtSurely(ss.head, x) || AnySurely(ss.tail, x))
  }

  /** Can the statement leave the enclosing block: a return, or a break / continue of an outer loop? */
  predicate MayExit(s: Stmt, inLoop: bool)
    decreases s
  {
    match s
    case Return(_) => true
    case Break => !inLoop
    case Continue => !inLoop
    case Block(ss) => MayExitAll(ss, inLoop)
    case If(_, b, rest) => MayExitAll(b, inLoop) || MayExitArms(rest, inLoop)
    case While(_, b) => MayExitAll(b, true)
    case For(_, _, b) => MayExitAll(b, true)
    case Match(_, cases) => MayExitArms(cases, inLoop)
    case _ => false
  }

  predicate MayExitAll(ss: Stmts, inLoop: bool)
    decreases ss
  {
    ss.SCons? && (MayExit(ss.head, inLoop) || MayExitAll(ss.tail, inLoop))
  }

  predicate MayExitArms(arms: Arms, inLoop: bool)
    decreases arms
  {
    match arms
    case NoElse => false
    case Else(b) => MayExitAll(b, inLoop)
    case Arm(_, _, b, rest) => MayExitAll(b, inLoop) || MayExitArms(rest, inLoop)
  }

  /** spawn_surely_awaited on the statements after the spawn. */
  predicate SpawnSurelyAwaited(rest: Stmts, x: string)
    decreases rest
  {
    rest.SCons? && (StmtSurely(rest.head, x) || (!MayExit(rest.head, false) && SpawnSurelyAwaited(rest.tail, x)))
  }

  /** Inside nested bare blocks, nothing that may exit precedes the awaiting statement. */
  predicate Tidy(s: Stmt, x: string)
    decreases s
  {
    s.Block? ==> TidyAll(s.stmts, x)
  }

  predicate TidyAll(ss: Stmts, x: string)
    decreases ss
  {
    ss.SCons? ==> if StmtSurely(ss.head, x) then Tidy(ss.head, x) else !MayExit(ss.head, false) && TidyAll(ss.tail, x)
  }

  predicate AwaitOf(ev: Event, x: string) { ev.Awaited? && ev.name == x }

  ghost predicate HasAwait(t: Trace, x: string) {
    exists i :: 0 <= i < |t| && AwaitOf(t[i], x)
  }

  /** The name is given another handle: shadowed or reassigned. */
  predicate Rebinds(ev: Event, x: string) {
    ev == Write(x) || ev == Declare(x) || (ev.Bind? && x in ev.names)
  }

  predicate NoRebind(evs: set<Event>, x: string) { forall ev :: ev in evs ==> !Rebinds(ev, x) }

  /** Before the statement awaits the name, nothing gives the name another handle. */
  predicate Untouched(s: Stmt, x: string)
    decreases s
  {
    s.Block? ==> UntouchedAll(s.stmts, x)
  }

  predicate UntouchedAll(ss: Stmts, x: string)
    decreases ss
  {
    ss.SCons? ==> if StmtSurely(ss.head, x) then Untouched(ss.head, x) else NoRebind(Events(ss.head), x) && UntouchedAll(ss.tail, x)
  }

  /** The name is awaited, and no event before that gives it another handle. */
  ghost predicate AwaitsFirst(t: Trace, x: string) {
    exists i :: 0 <= i < |t| && AwaitOf(t[i], x) && forall j :: 0 <= j < i ==> !Rebinds(t[j], x)
  }

  ghost predicate Steady(t: Trace, x: string) { forall j :: 0 <= j < |t| ==> !Rebinds(t[j], x) }

  lemma FirstInPart(t0: Trace, t1: Trace, x: string)
    requires AwaitsFirst(t0, x) || (Steady(t0, x) && AwaitsFirst(t1, x))
    ensures AwaitsFirst(t0 + t1, x)
  {
    if AwaitsFirst(t0, x) {
      var i :| 0 <= i < |t0| && AwaitOf(t0[i], x) && forall j :: 0 <= j < i ==> !Rebinds(t0[j], x);
      assert AwaitOf((t0 + t1)[i], x);
    } else {
      var i :| 0 <= i < |t1| && AwaitOf(t1[i], x) && forall j :: 0 <= j < i ==> !Rebinds(t1[j], x);
      assert AwaitOf((t0 + t1)[|t0| + i], x);
    }
  }

  lemma HasInPart(t0: Trace, t1: Trace, x: string)
    requires HasAwait(t0, x) || HasAwait(t1, x)
    ensures HasAwait(t0 + t1, x)
  {
    if i :| 0 <= i < |t0| && AwaitOf(t0[i], x) {
      assert AwaitOf((t0 + t1)[i], x);
    } else {
      var i :| 0 <= i < |t1| && AwaitOf(t1[i], x);
      assert AwaitOf((t0 + t1)[|t0| + i], x);
    }
  }

  lemma {:induction false} SureExpr(e: Expr, x: string, t: Trace)
    requires Eval(e, t) && ExprSurely(e, x)
    ensures HasAwait(t, x)
    decreases e
  {
    match e
    case Await(h, n) =>
      var t0 :| Eval(h, t0) && t == t0 + (if h.Ident? then [Awaited(h.name, n)] else []);
      if h.Ident? {
        assert AwaitOf(t[|t0|], x);
      } else {
        SureExpr(h, x, t0);
        assert t == t0;
      }
    case Logical(l, r) =>
      if Eval(l, t) {
        SureExpr(l, x, t);
      } else {
        var t0, t1 :| Eval(l, t0) && Eval(r, t1) && t == t0 + t1;
        SureExpr(l, x, t0);
        HasInPart(t0, t1, x);
      }
    case Compound(_, es) => SureExprs(es, x, t);
  }

  lemma {:induction false} SureExprs(es: Exprs, x: string, t: Trace)
    requires EvalAll(es, t) && SomeSurely(es, x)
    ensures HasAwait(t, x)
    decreases es
  {
    var t0, t1 :| Eval(es.head, t0) && EvalAll(es.tail, t1) && t == t0 + t1;
    if ExprSurely(es.head, x) { SureExpr(es.head, x, t0); } else { SureExprs(es.tail, x, t1); }
    HasInPart(t0, t1, x);
  }

  // ---------------------------------------------------------------- a statement that cannot exit completes

  ghost predicate Stays(inLoop: bool, o: Outcome) { o == Normal || (inLoop && o != Returned) }

  lemma {:induction false} NoExit(s: Stmt, inLoop: bool, t: Trace, o: Outcome)
    requires Exec(s, t, o) && !MayExit(s, inLoop)
    ensures Stays(inLoop, o)
    decreases s
  {
    match s
    case Block(ss) => NoExitBlock(ss, inLoop, t, o);
    case If(c, b, rest) =>
      var t0, t1 :| Eval(c, t0) && t == t0 + t1 && (ExecBlock(b, t1, o) || ExecArms(rest, t1, o));
      if ExecBlock(b, t1, o) { NoExitBlock(b, inLoop, t1, o); } else { NoExitArms(rest, inLoop, t1, o); }
    case While(c, b) =>
      var n: nat :| ExecWhile(c, b, n, t, o);
      NoExitWhile(c, b, n, t, o);
    case For(x, e, b) =>
      var n: nat, t0, t1 :| Eval(e, t0) && ExecFor(x, b, n, t1, o) && t == t0 + t1;
      NoExitFor(x, b, n, t1, o);
    case Match(e, cases) =>
      var t0, t1 :| Eval(e, t0) && ExecArms(cases, t1, o) && t == t0 + t1;
      NoExitArms(cases, inLoop, t1, o);
    case _ =>
  }

  lemma {:induction false} NoExitAll(ss: Stmts, inLoop: bool, t: Trace, o: Outcome)
    requires ExecAll(ss, t, o) && !MayExitAll(ss, inLoop)
    ensures Stays(inLoop, o)
    decreases ss, 0
  {
    if ss.SCons? {
      var stopped, t0, t1 := SplitAll(ss.head, ss.tail, t, o);
      if stopped { NoExit(ss.head, inLoop, t, o); } else { NoExitAll(ss.tail, inLoop, t1, o); }
    }
  }

  lemma {:induction false} NoExitBlock(ss: Stmts, inLoop: bool, t: Trace, o: Outcome)
    requires ExecBlock(ss, t, o) && !MayExitAll(ss, inLoop)
    ensures Stays(inLoop, o)
    decreases ss, 1
  {
    var t0 :| ExecAll(ss, t0, o) && t == [Enter] + t0 + [Exit];
    NoExitAll(ss, inLoop, t0, o);
  }

  lemma {:induction false} NoExitArms(arms: Arms, inLoop: bool, t: Trace, o: Outcome)
    requires ExecArms(arms, t, o) && !MayExitArms(arms, inLoop)
    ensures Stays(inLoop, o)
    decreases arms
  {
    match arms
    case NoElse =>
    case Else(b) => NoExitBlock(b, inLoop, t, o);
    case Arm(c, names, b, rest) =>
      var t0, t1 :| Eval(c, t0) && t == t0 + t1 && (ExecScoped(names, b, t1, o) || ExecArms(rest, t1, o));
      if ExecScoped(names, b, t1, o) {
        var t2 :| ExecBlock(b, t2, o) && t1 == [Enter, Bind(names)] + t2 + [Exit];
        NoExitBlock(b, inLoop, t2, o);
      } else {
        NoExitArms(rest, inLoop, t1, o);
      }
  }

  lemma {:induction false} NoExitWhile(c: Expr, b: Stmts, n: nat, t: Trace, o: Outcome)
    requires ExecWhile(c, b, n, t, o) && !MayExitAll(b, true)
    ensures o == Normal
    decreases b, 3, n
  {
    var t0, t1 :| Eval(c, t0) && WhileRest(c, b, n, t1, o) && t == t0 + t1;
    var tb, o0, t2 := SplitRest(c, b, n, t1, o);
    if n > 0 {
      NoExitBlock(b, true, tb, o0);
      if LoopsOn(o0) { NoExitWhile(c, b, n - 1, t2, o); }
    }
  }

  lemma {:induction false} NoExitFor(x: string, b: Stmts, n: nat, t: Trace, o: Outcome)
    requires ExecFor(x, b, n, t, o) && !MayExitAll(b, true)
    ensures o == Normal
    decreases b, 3, n
  {
    if n > 0 {
      var t0, o0, t1 :| ExecScoped({x}, b, t0, o0) && ForNext(x, b, n - 1, o0, t1, o) && t == t0 + t1;
      var t2 :| ExecBlock(b, t2, o0) && t0 == [Enter, Bind({x})] + t2 + [Exit];
      NoExitBlock(b, true, t2, o0);
      if LoopsOn(o0) { NoExitFor(x, b, n - 1, t1, o); }
    }
  }

  // ---------------------------------------------------------------- the promise

  /** A value that is surely awaited comes before anything else the statement does. */
  lemma SureFirst(e: Expr, x: string, t: Trace)
    requires Eval(e, t) && ExprSurely(e, x)
    ensures AwaitsFirst(t, x)
  {
    SureExpr(e, x, t);
    SteadyExpr(e, x, t);
  }

  lemma SteadyExpr(e: Expr, x: string, t: Trace)
    requires Eval(e, t)
    ensures Steady(t, x)
  {
    EvalWithin(e, t);
    ExprEvents(e);
  }

  lemma {:induction false} SureStmt(s: Stmt, x: string, t: Trace, o: Outcome)
    requires Exec(s, t, o) && StmtSurely(s, x) && Tidy(s, x) && Untouched(s, x)
    ensures AwaitsFirst(t, x)
    decreases s
  {
    match s
    case Decl(y, Value(e)) =>
      var t0 :| Eval(e, t0) && t == t0 + [Bind({y})];
      SureFirst(e, x, t0);
      FirstInPart(t0, [Bind({y})], x);
    case Assign(target, compound, v) =>
      var t0, t1 :| Eval(v, t0) && StoreTo(target, compound, t1) && t == t0 + t1;
      SteadyExpr(v, x, t0);
      if ExprSurely(v, x) { SureFirst(v, x, t0); } else { SureFirst(target, x, t1); }
      FirstInPart(t0, t1, x);
    case Return(e) => SureFirst(e, x, t);
    case ExprStmt(e) => SureFirst(e, x, t);
    case Block(ss) =>
      var t0 :| ExecAll(ss, t0, o) && t == [Enter] + t0 + [Exit];
      SureAll(ss, x, t0, o);
      FirstInPart([Enter], t0, x);
      FirstInPart([Enter] + t0, [Exit], x);
  }

  lemma {:induction false} SureAll(ss: Stmts, x: string, t: Trace, o: Outcome)
    requires ExecAll(ss, t, o) && AnySurely(ss, x) && TidyAll(ss, x) && UntouchedAll(ss, x)
    ensures AwaitsFirst(t, x)
    decreases ss
  {
    var stopped, t0, t1 := SplitAll(ss.head, ss.tail, t, o);
    if StmtSurely(ss.head, x) {
      SureStmt(ss.head, x, if stopped then t else t0, if stopped then o else Normal);
    } else if stopped {
      NoExit(ss.head, false, t, o);
    } else {
      SureAll(ss.tail, x, t1, o);
      ExecWithin(ss.head, t0, Normal);
    }
    if !stopped { FirstInPart(t0, t1, x); }
  }

  lemma {:induction false} CheckFindsAwait(rest: Stmts, x: string)
    requires SpawnSurelyAwaited(rest, x)
    ensures AnySurely(rest, x)
    decreases rest
  {
    if !StmtSurely(rest.head, x) { CheckFindsAwait(rest.tail, x); }
  }

  /** If the test says yes, no exit precedes the await inside a bare block and nothing before it gives the
      name another handle, then every run of the statements after the spawn awaits that very handle. */
  lemma SurelyAwaitedSound(rest: Stmts, x: string, t: Trace, o: Outcome)
    requires SpawnSurelyAwaited(rest, x) && TidyAll(rest, x) && UntouchedAll(rest, x) && ExecAll(rest, t, o)
    ensures exists i :: 0 <= i < |t| && AwaitOf(t[i], x) && forall j :: 0 <= j < i ==> !Rebinds(t[j], x)
  {
    CheckFindsAwait(rest, x);
    SureAll(rest, x, t, o);
  }

  /** In particular where nothing at all in the rest of the block binds or assigns the name. */
  lemma {:induction false} NoRebindUntouched(ss: Stmts, x: string)
    requires NoRebind(EventsAll(ss), x)
    ensures UntouchedAll(ss, x)
    decreases ss
  {
    if ss.SCons? {
      assert Events(ss.head) <= EventsAll(ss);
      if ss.head.Block? {
        assert EventsAll(ss.head.stmts) <= Events(ss.head);
        NoRebindUntouched(ss.head.stmts, x);
      }
      assert EventsAll(ss.tail) <= EventsAll(ss);
      NoRebindUntouched(ss.tail, x);
    }
  }

  /** The nesting condition only speaks about bare blocks: at the level of the spawn itself the
      test already looks for exits. */
  lemma {:induction false} FlatIsTidy(rest: Stmts, x: string)
    requires SpawnSurelyAwaited(rest, x) && NoBareBlock(rest)
    ensures TidyAll(rest, x)
    decreases rest
  {
    if !StmtSurely(rest.head, x) { FlatIsTidy(rest.tail, x); }
  }

  predicate NoBareBlock(ss: Stmts)
    decreases ss
  {
    ss.SCons? ==> !ss.head.Block? && NoBareBlock(ss.tail)
  }

  /** Without it the test is wrong: in `{ if c { return }  await h }` a run returns first. */
  lemma NestedExitNotAwaited(x: string)
    ensures var rest := One(Block(Two(If(Leaf, One(Return(Leaf)), NoElse), ExprStmt(AwaitAt(x, 1)))));
            SpawnSurelyAwaited(rest, x) && exists t, o :: ExecAll(rest, t, o) && !HasAwait(t, x)
  {
    var w := ExprStmt(AwaitAt(x, 1));
    var guard := If(Leaf, One(Return(Leaf)), NoElse);
    assert StmtSurely(w, x) && AnySurely(One(w), x) && AnySurely(Two(guard, w), x);
    var t := NestedExitRun(w);
  }

  lemma NestedExitRun(w: Stmt) returns (t: Trace)
    ensures ExecAll(One(Block(Two(If(Leaf, One(Return(Leaf)), NoElse), w))), t, Returned)
    ensures t == [Enter, Enter, Exit, Exit]
  {
    var guard := If(Leaf, One(Return(Leaf)), NoElse);
    var tr := [Enter] + [] + [Exit];
    assert Exec(Return(Leaf), [], Returned) by { assert Eval(Leaf, []); }
    RunStopped(Return(Leaf), SNil, [], Returned);
    RunIfTaken(One(Return(Leaf)), NoElse, tr, Returned);
    RunStopped(guard, One(w), tr, Returned);
    t := [Enter] + tr + [Exit];
    RunStopped(Block(Two(guard, w)), SNil, t, Returned);
  }
}
