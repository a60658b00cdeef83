/**
 Exactly when the surely-awaited test (src/analyzer/capture.c) is right. The test goes by the name of the
 spawn's handle; what it promises is about the handle itself. The ways a statement list can be left with that
 handle not awaited are computed by recursion on the syntax, following what the name denotes, and proved exact
 against the scopes at run time.
 */
module SurelyExact {
  import opened IronCore
  import opened Programs
  import opened SurelyAwaited
  import opened AwaitSound

  // ---------------------------------------------------------------- the handle at run time

  function Depth(env: Env): nat { if env.Top? then 0 else 1 + Depth(env.outer) }

  /** The name denotes its binding in the scope of depth `d`: no scope further in binds it. */
  predicate Denotes(env: Env, d: nat) {
    env.Scope? && if env.cell == Unbound then Denotes(env.outer, d) else Depth(env) == d
  }

  predicate AwaitsNow(x: string, d: nat, env: Env, ev: Event) { AwaitOf(ev, x) && Denotes(env, d) }

  /** The binding of depth `d` is assigned, or bound again in its own scope. */
  predicate Overwrites(x: string, d: nat, env: Env, ev: Event) {
    if ev == Write(x) then Denotes(env, d) else Rebinds(ev, x) && Depth(env) == d
  }

  /** The run awaits the handle bound in the scope of depth `d` before it is overwritten. */
  predicate Awaits(x: string, d: nat, env: Env, t: Trace)
    decreases |t|
  {
    t != [] && (AwaitsNow(x, d, env, t[0]) || (!Overwrites(x, d, env, t[0]) && Awaits(x, d, Step(x, env, t[0]), t[1..])))
  }

  /** The run overwrites it before it is awaited. */
  predicate Loses(x: string, d: nat, env: Env, t: Trace)
    decreases |t|
  {
    t != [] && (Overwrites(x, d, env, t[0]) || (!AwaitsNow(x, d, env, t[0]) && Loses(x, d, Step(x, env, t[0]), t[1..])))
  }

  /** `val x = spawn ...` was run in a scope inside `outer`: in every run of the statements behind it, however
      it leaves the block, that handle is awaited. */
  ghost predicate AlwaysAwaits(rest: Stmts, x: string) {
    forall outer: Env, t, o :: ExecAll(rest, t, o) ==> Awaits(x, Depth(outer) + 1, Scope(Fresh, outer), t)
  }

  // ---------------------------------------------------------------- the computation

  /** What has become of the handle on a path that has not awaited it: the name denotes it, an inner block has
      a binding of the same name, or it was overwritten. */
  datatype Hold = Own | Shadowed | Lost

  /** A way to leave a statement with the handle not awaited. */
  datatype Escape = Escape(how: Outcome, hold: Hold)

  /** `e` can be evaluated without awaiting `x`. */
  predicate SkipsE(e: Expr, x: string)
    decreases e
  {
    match e
    case Leaf => true
    case Ident(_, _) => true
    case Await(h, _) => !(h.Ident? && h.name == x) && SkipsE(h, x)
    case Logical(l, _) => SkipsE(l, x)
    case Compound(_, es) => SkipsEs(es, x)
  }

  predicate SkipsEs(es: Exprs, x: string)
    decreases es
  {
    es.ECons? ==> SkipsE(es.head, x) && SkipsEs(es.tail, x)
  }

  /** `e` can be evaluated without awaiting the handle. */
  predicate Can(e: Expr, x: string, h: Hold) { h == Own ==> SkipsE(e, x) }

  function When(b: bool, outs: set<Escape>): set<Escape> { if b then outs else {} }

  /** After a binding of the name; `top` in the scope of the spawn itself. */
  function Bound(h: Hold, top: bool): Hold { if h == Lost || top then Lost else Shadowed }

  function Written(h: Hold): Hold { if h == Own then Lost else h }

  /** A block gives back what it shadowed. */
  function Back(h: Hold, h': Hold): Hold { if h' == Lost then Lost else h }

  function GiveBack(h: Hold, outs: set<Escape>): set<Escape> { set p | p in outs :: Escape(p.how, Back(h, p.hold)) }

  function Jumped(outs: set<Escape>): set<Escape> { set p | p in outs && p.how != Normal }

  /** Leaving a loop from within its body. */
  function LeaveLoop(outs: set<Escape>): set<Escape> { set p | p in outs && !LoopsOn(p.how) :: Escape(LoopExit(p.how), p.hold) }

  /** A round may overwrite the handle and go on to another. */
  predicate LosesRound(outs: set<Escape>) { Escape(Normal, Lost) in outs || Escape(Continued, Lost) in outs }

  /** The loop entered with `h`; `body` and `lost` are the escapes of its body entered with `h` and with Lost. */
  function ThroughLoop(h: Hold, body: set<Escape>, lost: set<Escape>): set<Escape> {
    {Escape(Normal, h)} + LeaveLoop(body) + When(LosesRound(body), {Escape(Normal, Lost)} + LeaveLoop(lost))
  }

  /** The escapes of `s` entered with `h`. */
  function Escapes(s: Stmt, x: string, h: Hold, top: bool): set<Escape>
    decreases s
  {
    match s
    case Decl(y, i) => When(i.Value? ==> Can(i.e, x, h), {Escape(Normal, if y == x then Bound(h, top) else h)})
    case Spawn(y) => {Escape(Normal, if y == x then Bound(h, top) else h)}
    case Assign(target, _, v) =>
      When(Can(v, x, h) && Can(target, x, h), {Escape(Normal, if target.Ident? && target.name == x then Written(h) else h)})
    case Return(e) => When(Can(e, x, h), {Escape(Returned, h)})
    case Break => {Escape(Broke, h)}
    case Continue => {Escape(Continued, h)}
    case ExprStmt(e) => When(Can(e, x, h), {Escape(Normal, h)})
    case Block(ss) => EscapesBlock(ss, x, h)
    case If(c, b, rest) => When(Can(c, x, h), EscapesBlock(b, x, h) + EscapesArms(rest, x, h))
    case While(c, b) => When(Can(c, x, h), ThroughLoop(h, EscapesBlock(b, x, h), EscapesBlock(b, x, Lost)))
    case For(y, e, b) => When(Can(e, x, h), ThroughLoop(h, EscapesScoped({y}, b, x, h), EscapesScoped({y}, b, x, Lost)))
    case Match(e, cases) => When(Can(e, x, h), EscapesArms(cases, x, h))
  }

  function EscapesAll(ss: Stmts, x: string, h: Hold, top: bool): set<Escape>
    decreases ss, 0
  {
    match ss
    case SNil => {Escape(Normal, h)}
    case SCons(s, rest) =>
      var outs := Escapes(s, x, h, top);
      Jumped(outs)
      + When(Escape(Normal, Own) in outs, EscapesAll(rest, x, Own, top))
      + When(Escape(Normal, Shadowed) in outs, EscapesAll(rest, x, Shadowed, top))
      + When(Escape(Normal, Lost) in outs, EscapesAll(rest, x, Lost, top))
  }

  function EscapesBlock(ss: Stmts, x: string, h: Hold): set<Escape>
    decreases ss, 1
  {
    GiveBack(h, EscapesAll(ss, x, h, false))
  }

  /** A block in a scope that binds `names`. */
  function EscapesScoped(names: set<string>, ss: Stmts, x: string, h: Hold): set<Escape>
    decreases ss, 2
  {
    GiveBack(h, EscapesBlock(ss, x, if x in names then Bound(h, false) else h))
  }

  function EscapesArms(arms: Arms, x: string, h: Hold): set<Escape>
    decreases arms
  {
    match arms
    case NoElse => {Escape(Normal, h)}
    case Else(b) => EscapesBlock(b, x, h)
    case Arm(c, names, b, rest) => When(Can(c, x, h), EscapesScoped(names, b, x, h) + EscapesArms(rest, x, h))
  }

  // ---------------------------------------------------------------- runs that do not await the handle

  ghost predicate Quiet(t: Trace, x: string) { !HasAwait(t, x) }

  lemma QuietParts(t0: Trace, t1: Trace, x: string)
    ensures Quiet(t0 + t1, x) <==> Quiet(t0, x) && Quiet(t1, x)
  {
    if HasAwait(t0, x) || HasAwait(t1, x) { HasInPart(t0, t1, x); }
  }

  lemma QuietFirst(t: Trace, x: string)
    requires t != []
    ensures Quiet(t, x) <==> !AwaitOf(t[0], x) && Quiet(t[1..], x)
  {
    assert [t[0]] + t[1..] == t;
    QuietParts([t[0]], t[1..], x);
    assert Quiet([t[0]], x) <==> !AwaitOf(t[0], x) by { assert [t[0]][0] == t[0]; }
  }

  /** `h` says what has become of the handle when the scopes are `env`. */
  ghost predicate Agrees(h: Hold, d: nat, env: Env) {
    env.Scope? && Depth(env) >= d && (h != Lost ==> (h == Own <==> Denotes(env, d)))
  }

  /** A run that starts with `h` does not await the handle. */
  ghost predicate Misses(x: string, d: nat, h: Hold, env: Env, t: Trace) { h == Lost || !Awaits(x, d, env, t) }

  /** What has become of the handle after it. */
  ghost function After(x: string, d: nat, h: Hold, env: Env, t: Trace): Hold {
    if h == Lost || Loses(x, d, env, t) then Lost else if Denotes(Steps(x, env, t), d) then Own else Shadowed
  }

  lemma {:induction false} AwaitsConcat(x: string, d: nat, env: Env, t0: Trace, t1: Trace)
    ensures Awaits(x, d, env, t0 + t1) <==> Awaits(x, d, env, t0) || (!Loses(x, d, env, t0) && Awaits(x, d, Steps(x, env, t0), t1))
    ensures Loses(x, d, env, t0 + t1) <==> Loses(x, d, env, t0) || (!Awaits(x, d, env, t0) && Loses(x, d, Steps(x, env, t0), t1))
    ensures !(Awaits(x, d, env, t0) && Loses(x, d, env, t0))
    decreases |t0|
  {
    if t0 == [] {
      assert t0 + t1 == t1;
    } else {
      assert (t0 + t1)[1..] == t0[1..] + t1;
      AwaitsConcat(x, d, Step(x, env, t0[0]), t0[1..], t1);
    }
  }

  /** A run in two parts. */
  lemma Parts(x: string, d: nat, h: Hold, env: Env, t0: Trace, t1: Trace)
    ensures var env1, h1 := Steps(x, env, t0), After(x, d, h, env, t0);
            && (Misses(x, d, h, env, t0 + t1) <==> Misses(x, d, h, env, t0) && Misses(x, d, h1, env1, t1))
            && (Misses(x, d, h, env, t0) ==> After(x, d, h, env, t0 + t1) == After(x, d, h1, env1, t1))
            && Steps(x, env, t0 + t1) == Steps(x, env1, t1)
  {
    AwaitsConcat(x, d, env, t0, t1);
    StepsConcat(x, env, t0, t1);
  }

  lemma {:induction false} SameDenotes(env: Env, env': Env, d: nat)
    requires Same(env, env')
    ensures Depth(env) == Depth(env') && (Denotes(env, d) <==> Denotes(env', d))
  {
    if env.Scope? && env.cell == Unbound { SameDenotes(env.outer, env'.outer, d); }
  }

  /** Reads and awaits. */
  lemma {:induction false} ReadsHold(x: string, d: nat, env: Env, t: Trace)
    requires forall i :: 0 <= i < |t| ==> t[i].Read? || t[i].Awaited?
    ensures !Loses(x, d, env, t) && (Awaits(x, d, env, t) <==> Denotes(env, d) && !Quiet(t, x))
    decreases |t|
  {
    if t != [] {
      var env1 := Step(x, env, t[0]);
      SameUpdate(env, Used);
      SameRefl(env);
      SameDenotes(env, env1, d);
      ReadsHold(x, d, env1, t[1..]);
      QuietFirst(t, x);
    }
  }

  /** Evaluating an expression. */
  lemma EvalHold(x: string, d: nat, h: Hold, env: Env, e: Expr, t: Trace)
    requires Eval(e, t) && Agrees(h, d, env)
    ensures Misses(x, d, h, env, t) <==> h != Own || Quiet(t, x)
    ensures After(x, d, h, env, t) == h && Agrees(h, d, Steps(x, env, t)) && Depth(Steps(x, env, t)) == Depth(env)
  {
    EvalWithin(e, t);
    ExprEvents(e);
    ReadsHold(x, d, env, t);
    ShapeEval(x, env, e, t);
    SameDenotes(env, Steps(x, env, t), d);
  }

  /** One event. */
  lemma EventHold(x: string, d: nat, h: Hold, env: Env, ev: Event)
    ensures Steps(x, env, [ev]) == Step(x, env, ev)
    ensures Misses(x, d, h, env, [ev]) <==> h == Lost || !AwaitsNow(x, d, env, ev)
    ensures After(x, d, h, env, [ev])
         == if h == Lost || Overwrites(x, d, env, ev) then Lost else if Denotes(Step(x, env, ev), d) then Own else Shadowed
  {
    assert [ev][0] == ev && [ev][1..] == [];
    assert Awaits(x, d, env, [ev]) <==> AwaitsNow(x, d, env, ev);
    assert Loses(x, d, env, [ev]) <==> Overwrites(x, d, env, ev);
  }

  /** A binding in the current scope. */
  lemma BindHold(x: string, d: nat, h: Hold, env: Env, ev: Event)
    requires Agrees(h, d, env) && (ev.Bind? || ev.Declare?)
    ensures Misses(x, d, h, env, [ev])
    ensures After(x, d, h, env, [ev]) == if Rebinds(ev, x) then Bound(h, Depth(env) == d) else h
  {
    EventHold(x, d, h, env, ev);
  }

  lemma WriteHold(x: string, d: nat, h: Hold, env: Env, y: string)
    requires Agrees(h, d, env)
    ensures Misses(x, d, h, env, [Write(y)])
    ensures After(x, d, h, env, [Write(y)]) == if y == x then Written(h) else h
  {
    EventHold(x, d, h, env, Write(y));
    SameUpdate(env, Fresh);
    SameDenotes(env, Update(env, Fresh), d);
  }

  /** A block around a run. */
  lemma BlockHold(x: string, d: nat, h: Hold, env: Env, t: Trace)
    requires var end := Steps(x, Scope(Unbound, env), t); Agrees(h, d, env) && end.Scope? && Same(env, end.outer)
    ensures var inner := Scope(Unbound, env);
            && Agrees(h, d, inner)
            && (Misses(x, d, h, env, [Enter] + t + [Exit]) <==> Misses(x, d, h, inner, t))
            && (Misses(x, d, h, inner, t) ==> After(x, d, h, env, [Enter] + t + [Exit]) == Back(h, After(x, d, h, inner, t)))
  {
    var inner := Scope(Unbound, env);
    var end := Steps(x, inner, t);
    EventHold(x, d, h, env, Enter);
    Parts(x, d, h, env, [Enter], t);
    Parts(x, d, h, env, [Enter] + t, [Exit]);
    EventHold(x, d, After(x, d, h, inner, t), end, Exit);
    SameDenotes(env, end.outer, d);
  }

  /** A scope with bindings around a run. */
  lemma ScopedHold(x: string, d: nat, h: Hold, env: Env, names: set<string>, t: Trace)
    requires var end := Steps(x, ScopeOf(x, names, env), t); Agrees(h, d, env) && end.Scope? && Same(env, end.outer)
    ensures var inner, h1 := ScopeOf(x, names, env), if x in names then Bound(h, false) else h;
            && Agrees(h1, d, inner)
            && (Misses(x, d, h, env, [Enter, Bind(names)] + t + [Exit]) <==> Misses(x, d, h1, inner, t))
            && (Misses(x, d, h1, inner, t)
                ==> After(x, d, h, env, [Enter, Bind(names)] + t + [Exit]) == Back(h, After(x, d, h1, inner, t)))
  {
    var inner, h1 := ScopeOf(x, names, env), if x in names then Bound(h, false) else h;
    var end := Steps(x, inner, t);
    EventHold(x, d, h, env, Enter);
    BindHold(x, d, h, Scope(Unbound, env), Bind(names));
    EventHold(x, d, h, Scope(Unbound, env), Bind(names));
    assert [Enter, Bind(names)] + t + [Exit] == [Enter] + ([Bind(names)] + (t + [Exit]));
    Parts(x, d, h, env, [Enter], [Bind(names)] + (t + [Exit]));
    Parts(x, d, h, Scope(Unbound, env), [Bind(names)], t + [Exit]);
    Parts(x, d, h1, inner, t, [Exit]);
    EventHold(x, d, After(x, d, h1, inner, t), end, Exit);
    SameDenotes(env, end.outer, d);
  }

  /** After a statement, the hold agrees with the scopes, and the current scope is the same. */
  lemma StmtAgrees(x: string, d: nat, h: Hold, env: Env, s: Stmt, t: Trace, o: Outcome)
    requires Exec(s, t, o) && Agrees(h, d, env)
    ensures Agrees(After(x, d, h, env, t), d, Steps(x, env, t)) && Depth(Steps(x, env, t)) == Depth(env)
  {
    Shape(x, env, s, t, o);
    SameDenotes(env.outer, Steps(x, env, t).outer, d);
  }

  lemma TurnAgrees(x: string, d: nat, h: Hold, env: Env, s: Stmt, t: Trace, o: Outcome)
    requires Loop(s) && Turn(s, t, o) && Agrees(h, d, env)
    ensures Agrees(After(x, d, h, env, t), d, Steps(x, env, t)) && Depth(Steps(x, env, t)) == Depth(env)
  {
    if s.While? { ShapeBlock(x, env, s.body, t, o); } else { ShapeScoped(x, env, {s.loopVar}, s.body, t, o); }
    SameDenotes(env, Steps(x, env, t), d);
  }

  // ---------------------------------------------------------------- every such run is found

  lemma {:induction false} SkipsFound(e: Expr, x: string, t: Trace)
    requires Eval(e, t) && Quiet(t, x)
    ensures SkipsE(e, x)
    decreases e
  {
    match e
    case Leaf =>
    case Ident(_, _) =>
    case Await(h, n) =>
      var end := if h.Ident? then [Awaited(h.name, n)] else [];
      var t0 :| Eval(h, t0) && t == t0 + end;
      QuietParts(t0, end, x);
      SkipsFound(h, x, t0);
      assert end != [] ==> !AwaitOf(end[0], x);
    case Logical(l, r) =>
      if Eval(l, t) { SkipsFound(l, x, t); } else {
        var t0, t1 :| Eval(l, t0) && Eval(r, t1) && t == t0 + t1;
        QuietParts(t0, t1, x);
        SkipsFound(l, x, t0);
      }
    case Compound(_, es) => SkipsAllFound(es, x, t);
  }

  lemma {:induction false} SkipsAllFound(es: Exprs, x: string, t: Trace)
    requires EvalAll(es, t) && Quiet(t, x)
    ensures SkipsEs(es, x)
    decreases es
  {
    if es.ECons? {
      var t0, t1 :| Eval(es.head, t0) && EvalAll(es.tail, t1) && t == t0 + t1;
      QuietParts(t0, t1, x);
      SkipsFound(es.head, x, t0);
      SkipsAllFound(es.tail, x, t1);
    }
  }

  lemma EvalFound(x: string, d: nat, h: Hold, env: Env, e: Expr, t: Trace)
    requires Eval(e, t) && Agrees(h, d, env) && Misses(x, d, h, env, t)
    ensures Can(e, x, h) && After(x, d, h, env, t) == h && Agrees(h, d, Steps(x, env, t)) && Depth(Steps(x, env, t)) == Depth(env)
  {
    EvalHold(x, d, h, env, e, t);
    if h == Own { SkipsFound(e, x, t); }
  }

  lemma FoundBinder(x: string, d: nat, h: Hold, env: Env, s: Stmt, t: Trace)
    requires (s.Decl? || s.Spawn?) && Exec(s, t, Normal) && Agrees(h, d, env) && Misses(x, d, h, env, t)
    ensures Escape(Normal, After(x, d, h, env, t)) in Escapes(s, x, h, Depth(env) == d)
  {
    match s
    case Decl(y, NoInit) => BindHold(x, d, h, env, Declare(y));
    case Decl(y, Zeroed) => BindHold(x, d, h, env, Bind({y}));
    case Decl(y, Value(e)) =>
      var t0 :| Eval(e, t0) && t == t0 + [Bind({y})];
      Parts(x, d, h, env, t0, [Bind({y})]);
      EvalFound(x, d, h, env, e, t0);
      BindHold(x, d, h, Steps(x, env, t0), Bind({y}));
    case Spawn(y) => BindHold(x, d, h, env, Bind({y}));
  }

  lemma FoundAssign(x: string, d: nat, h: Hold, env: Env, s: Stmt, t: Trace)
    requires s.Assign? && Exec(s, t, Normal) && Agrees(h, d, env) && Misses(x, d, h, env, t)
    ensures Escape(Normal, After(x, d, h, env, t)) in Escapes(s, x, h, Depth(env) == d)
  {
    var Assign(target, compound, v) := s;
    var t0, t1 :| Eval(v, t0) && StoreTo(target, compound, t1) && t == t0 + t1;
    Parts(x, d, h, env, t0, t1);
    EvalFound(x, d, h, env, v, t0);
    var mid := Steps(x, env, t0);
    if target.Ident? { StoreHold(x, d, h, mid, target, compound, t1); } else { EvalFound(x, d, h, mid, target, t1); }
  }

  lemma StoreHold(x: string, d: nat, h: Hold, env: Env, target: Expr, compound: bool, t: Trace)
    requires target.Ident? && StoreTo(target, compound, t) && Agrees(h, d, env)
    ensures Misses(x, d, h, env, t)
    ensures After(x, d, h, env, t) == if target.name == x then Written(h) else h
  {
    var pre: Trace := if compound then [Read(target.name, target.site)] else [];
    Parts(x, d, h, env, pre, [Write(target.name)]);
    if compound { EventHold(x, d, h, env, Read(target.name, target.site)); }
    assert Steps(x, env, pre) == env && Misses(x, d, h, env, pre) && After(x, d, h, env, pre) == h;
    WriteHold(x, d, h, env, target.name);
  }

  lemma {:induction false} Found(x: string, d: nat, h: Hold, env: Env, s: Stmt, t: Trace, o: Outcome)
    requires Exec(s, t, o) && Agrees(h, d, env) && Misses(x, d, h, env, t)
    ensures Escape(o, After(x, d, h, env, t)) in Escapes(s, x, h, Depth(env) == d)
    decreases s
  {
    match s
    case Decl(_, _) => FoundBinder(x, d, h, env, s, t);
    case Spawn(_) => FoundBinder(x, d, h, env, s, t);
    case Assign(_, _, _) => FoundAssign(x, d, h, env, s, t);
    case Return(e) => EvalFound(x, d, h, env, e, t);
    case Break =>
    case Continue =>
    case ExprStmt(e) => EvalFound(x, d, h, env, e, t);
    case Block(ss) => FoundBlock(x, d, h, env, ss, t, o);
    case If(c, b, rest) =>
      var t0, t1 :| Eval(c, t0) && t == t0 + t1 && (ExecBlock(b, t1, o) || ExecArms(rest, t1, o));
      Parts(x, d, h, env, t0, t1);
      EvalFound(x, d, h, env, c, t0);
      var mid := Steps(x, env, t0);
      if ExecBlock(b, t1, o) { FoundBlock(x, d, h, mid, b, t1, o); } else { FoundArms(x, d, h, mid, rest, t1, o); }
    case While(c, b) =>
      var n: nat :| ExecWhile(c, b, n, t, o);
      FoundWhile(x, d, h, env, s, n, t, o);
    case For(y, e, b) =>
      var n: nat, t0, t1 :| Eval(e, t0) && ExecFor(y, b, n, t1, o) && t == t0 + t1;
      Parts(x, d, h, env, t0, t1);
      EvalFound(x, d, h, env, e, t0);
      FoundFor(x, d, h, Steps(x, env, t0), s, n, t1, o);
    case Match(e, cases) =>
      var t0, t1 :| Eval(e, t0) && ExecArms(cases, t1, o) && t == t0 + t1;
      Parts(x, d, h, env, t0, t1);
      EvalFound(x, d, h, env, e, t0);
      FoundArms(x, d, h, Steps(x, env, t0), cases, t1, o);
  }

  lemma {:induction false} FoundAll(x: string, d: nat, h: Hold, env: Env, ss: Stmts, t: Trace, o: Outcome)
    requires ExecAll(ss, t, o) && Agrees(h, d, env) && Misses(x, d, h, env, t)
    ensures Escape(o, After(x, d, h, env, t)) in EscapesAll(ss, x, h, Depth(env) == d)
    decreases ss, 0
  {
    if ss.SCons? {
      var stopped, t0, t1 := SplitAll(ss.head, ss.tail, t, o);
      if stopped {
        Found(x, d, h, env, ss.head, t, o);
      } else {
        Parts(x, d, h, env, t0, t1);
        Found(x, d, h, env, ss.head, t0, Normal);
        StmtAgrees(x, d, h, env, ss.head, t0, Normal);
        FoundAll(x, d, After(x, d, h, env, t0), Steps(x, env, t0), ss.tail, t1, o);
      }
    }
  }

  lemma {:induction false} FoundBlock(x: string, d: nat, h: Hold, env: Env, ss: Stmts, t: Trace, o: Outcome)
    requires ExecBlock(ss, t, o) && Agrees(h, d, env) && Misses(x, d, h, env, t)
    ensures Escape(o, After(x, d, h, env, t)) in EscapesBlock(ss, x, h)
    decreases ss, 1
  {
    var t0 :| ExecAll(ss, t0, o) && t == [Enter] + t0 + [Exit];
    var inner := Scope(Unbound, env);
    ShapeAll(x, inner, ss, t0, o);
    BlockHold(x, d, h, env, t0);
    FoundAll(x, d, h, inner, ss, t0, o);
  }

  lemma {:induction false} FoundScoped(x: string, d: nat, h: Hold, env: Env, names: set<string>, ss: Stmts, t: Trace, o: Outcome)
    requires ExecScoped(names, ss, t, o) && Agrees(h, d, env) && Misses(x, d, h, env, t)
    ensures Escape(o, After(x, d, h, env, t)) in EscapesScoped(names, ss, x, h)
    decreases ss, 2
  {
    var t0 :| ExecBlock(ss, t0, o) && t == [Enter, Bind(names)] + t0 + [Exit];
    var inner := ScopeOf(x, names, env);
    ShapeBlock(x, inner, ss, t0, o);
    SameRefl(env);
    ScopedHold(x, d, h, env, names, t0);
    FoundBlock(x, d, if x in names then Bound(h, false) else h, inner, ss, t0, o);
  }

  lemma {:induction false} FoundArms(x: string, d: nat, h: Hold, env: Env, arms: Arms, t: Trace, o: Outcome)
    requires ExecArms(arms, t, o) && Agrees(h, d, env) && Misses(x, d, h, env, t)
    ensures Escape(o, After(x, d, h, env, t)) in EscapesArms(arms, x, h)
    decreases arms
  {
    match arms
    case NoElse =>
    case Else(b) => FoundBlock(x, d, h, env, b, t, o);
    case Arm(c, names, b, rest) =>
      var t0, t1 :| Eval(c, t0) && t == t0 + t1 && (ExecScoped(names, b, t1, o) || ExecArms(rest, t1, o));
      Parts(x, d, h, env, t0, t1);
      EvalFound(x, d, h, env, c, t0);
      var mid := Steps(x, env, t0);
      if ExecScoped(names, b, t1, o) { FoundScoped(x, d, h, mid, names, b, t1, o); } else { FoundArms(x, d, h, mid, rest, t1, o); }
  }

  /** The escapes of the body of a loop. */
  function EscapesTurn(s: Stmt, x: string, h: Hold): set<Escape>
    requires Loop(s)
  {
    if s.While? then EscapesBlock(s.body, x, h) else EscapesScoped({s.loopVar}, s.body, x, h)
  }

  function EscapesRounds(s: Stmt, x: string, h: Hold): set<Escape>
    requires Loop(s)
  {
    ThroughLoop(h, EscapesTurn(s, x, h), EscapesTurn(s, x, Lost))
  }

  /** A round that ends with `p`, then rounds that end with `q`. */
  lemma RoundsEscape(s: Stmt, x: string, h: Hold, p: Escape, q: Escape)
    requires Loop(s) && p in EscapesTurn(s, x, h)
    requires if LoopsOn(p.how) then q in EscapesRounds(s, x, p.hold) else q == Escape(LoopExit(p.how), p.hold)
    ensures q in EscapesRounds(s, x, h)
  {
  }

  lemma {:induction false} FoundWhile(x: string, d: nat, h: Hold, env: Env, s: Stmt, n: nat, t: Trace, o: Outcome)
    requires s.While? && ExecWhile(s.cond, s.body, n, t, o) && Agrees(h, d, env) && Misses(x, d, h, env, t)
    ensures Can(s.cond, x, h) && Escape(o, After(x, d, h, env, t)) in EscapesRounds(s, x, h)
    decreases s.body, 3, n
  {
    var While(c, b) := s;
    var t0, t1 :| Eval(c, t0) && WhileRest(c, b, n, t1, o) && t == t0 + t1;
    Parts(x, d, h, env, t0, t1);
    EvalFound(x, d, h, env, c, t0);
    var tb, o0, t2 := SplitRest(c, b, n, t1, o);
    if n > 0 {
      var mid := Steps(x, env, t0);
      Parts(x, d, h, mid, tb, t2);
      FoundBlock(x, d, h, mid, b, tb, o0);
      TurnAgrees(x, d, h, mid, s, tb, o0);
      var env1, h1 := Steps(x, mid, tb), After(x, d, h, mid, tb);
      if LoopsOn(o0) { FoundWhile(x, d, h1, env1, s, n - 1, t2, o); }
      RoundsEscape(s, x, h, Escape(o0, h1), Escape(o, After(x, d, h, env, t)));
    }
  }

  lemma {:induction false} FoundFor(x: string, d: nat, h: Hold, env: Env, s: Stmt, n: nat, t: Trace, o: Outcome)
    requires s.For? && ExecFor(s.loopVar, s.body, n, t, o) && Agrees(h, d, env) && Misses(x, d, h, env, t)
    ensures Escape(o, After(x, d, h, env, t)) in EscapesRounds(s, x, h)
    decreases s.body, 3, n
  {
    if n > 0 {
      var For(y, _, b) := s;
      var tb, o0, t2 :| ExecScoped({y}, b, tb, o0) && ForNext(y, b, n - 1, o0, t2, o) && t == tb + t2;
      Parts(x, d, h, env, tb, t2);
      FoundScoped(x, d, h, env, {y}, b, tb, o0);
      TurnAgrees(x, d, h, env, s, tb, o0);
      var env1, h1 := Steps(x, env, tb), After(x, d, h, env, tb);
      if LoopsOn(o0) { FoundFor(x, d, h1, env1, s, n - 1, t2, o); }
      RoundsEscape(s, x, h, Escape(o0, h1), Escape(o, After(x, d, h, env, t)));
    }
  }

  // ---------------------------------------------------------------- and every escape found has such a run

  lemma {:induction false} SkipsRun(e: Expr, x: string) returns (t: Trace)
    requires SkipsE(e, x)
    ensures Eval(e, t) && Quiet(t, x)
    decreases e
  {
    match e
    case Leaf => t := [];
    case Ident(y, n) => t := [Read(y, n)];
    case Await(h, n) =>
      var t0 := SkipsRun(h, x);
      var end := if h.Ident? then [Awaited(h.name, n)] else [];
      QuietParts(t0, end, x);
      t := t0 + end;
    case Logical(l, _) => t := SkipsRun(l, x);
    case Compound(_, es) => t := SkipsAllRun(es, x);
  }

  lemma {:induction false} SkipsAllRun(es: Exprs, x: string) returns (t: Trace)
    requires SkipsEs(es, x)
    ensures EvalAll(es, t) && Quiet(t, x)
    decreases es
  {
    if es.ENil? {
      t := [];
    } else {
      var t0 := SkipsRun(es.head, x);
      var t1 := SkipsAllRun(es.tail, x);
      QuietParts(t0, t1, x);
      t := t0 + t1;
    }
  }

  lemma EvalRun(x: string, d: nat, h: Hold, env: Env, e: Expr) returns (t: Trace)
    requires Can(e, x, h) && Agrees(h, d, env)
    ensures Eval(e, t) && Misses(x, d, h, env, t) && After(x, d, h, env, t) == h && (h == Own ==> Quiet(t, x))
    ensures Agrees(h, d, Steps(x, env, t)) && Depth(Steps(x, env, t)) == Depth(env)
  {
    if h == Own { t := SkipsRun(e, x); } else { t := SomeEval(e); }
    EvalHold(x, d, h, env, e, t);
  }

  lemma RunBinder(x: string, d: nat, h: Hold, env: Env, s: Stmt, p: Escape) returns (t: Trace)
    requires (s.Decl? || s.Spawn?) && p in Escapes(s, x, h, Depth(env) == d) && Agrees(h, d, env)
    ensures Exec(s, t, p.how) && Misses(x, d, h, env, t) && After(x, d, h, env, t) == p.hold
  {
    match s
    case Decl(y, NoInit) => t := [Declare(y)]; BindHold(x, d, h, env, Declare(y));
    case Decl(y, Zeroed) => t := [Bind({y})]; BindHold(x, d, h, env, Bind({y}));
    case Decl(y, Value(e)) =>
      var t0 := EvalRun(x, d, h, env, e);
      Parts(x, d, h, env, t0, [Bind({y})]);
      BindHold(x, d, h, Steps(x, env, t0), Bind({y}));
      t := t0 + [Bind({y})];
    case Spawn(y) => t := [Bind({y})]; BindHold(x, d, h, env, Bind({y}));
  }

  lemma RunAssign(x: string, d: nat, h: Hold, env: Env, s: Stmt, p: Escape) returns (t: Trace)
    requires s.Assign? && p in Escapes(s, x, h, Depth(env) == d) && Agrees(h, d, env)
    ensures Exec(s, t, p.how) && Misses(x, d, h, env, t) && After(x, d, h, env, t) == p.hold
  {
    var Assign(target, compound, v) := s;
    var t0 := EvalRun(x, d, h, env, v);
    var mid := Steps(x, env, t0);
    var t1;
    if target.Ident? {
      t1 := SomeStore(target, compound);
      StoreHold(x, d, h, mid, target, compound, t1);
    } else {
      t1 := EvalRun(x, d, h, mid, target);
    }
    Parts(x, d, h, env, t0, t1);
    t := t0 + t1;
  }

  lemma {:induction false} Run(x: string, d: nat, h: Hold, env: Env, s: Stmt, p: Escape) returns (t: Trace)
    requires p in Escapes(s, x, h, Depth(env) == d) && Agrees(h, d, env)
    ensures Exec(s, t, p.how) && Misses(x, d, h, env, t) && After(x, d, h, env, t) == p.hold
    decreases s
  {
    match s
    case Decl(_, _) => t := RunBinder(x, d, h, env, s, p);
    case Spawn(_) => t := RunBinder(x, d, h, env, s, p);
    case Assign(_, _, _) => t := RunAssign(x, d, h, env, s, p);
    case Return(e) => t := EvalRun(x, d, h, env, e);
    case Break => t := [];
    case Continue => t := [];
    case ExprStmt(e) => t := EvalRun(x, d, h, env, e);
    case Block(ss) => t := RunBlock(x, d, h, env, ss, p);
    case If(c, b, rest) =>
      var t0 := EvalRun(x, d, h, env, c);
      var t1;
      if p in EscapesBlock(b, x, h) {
        t1 := RunBlock(x, d, h, Steps(x, env, t0), b, p);
      } else {
        t1 := RunArms(x, d, h, Steps(x, env, t0), rest, p);
      }
      Parts(x, d, h, env, t0, t1);
      t := t0 + t1;
    case While(_, _) => t := RunLoop(x, d, h, env, s, p);
    case For(_, _, _) => t := RunLoop(x, d, h, env, s, p);
    case Match(e, cases) =>
      var t0 := EvalRun(x, d, h, env, e);
      var t1 := RunArms(x, d, h, Steps(x, env, t0), cases, p);
      Parts(x, d, h, env, t0, t1);
      t := t0 + t1;
  }

  lemma {:induction false} RunAll(x: string, d: nat, h: Hold, env: Env, ss: Stmts, p: Escape) returns (t: Trace)
    requires p in EscapesAll(ss, x, h, Depth(env) == d) && Agrees(h, d, env)
    ensures ExecAll(ss, t, p.how) && Misses(x, d, h, env, t) && After(x, d, h, env, t) == p.hold
    decreases ss, 0
  {
    var top := Depth(env) == d;
    if ss.SNil? {
      t := [];
    } else if p in Jumped(Escapes(ss.head, x, h, top)) {
      t := Run(x, d, h, env, ss.head, p);
    } else {
      var h1 :| Escape(Normal, h1) in Escapes(ss.head, x, h, top) && p in EscapesAll(ss.tail, x, h1, top);
      var t0 := Run(x, d, h, env, ss.head, Escape(Normal, h1));
      StmtAgrees(x, d, h, env, ss.head, t0, Normal);
      var t1 := RunAll(x, d, h1, Steps(x, env, t0), ss.tail, p);
      Parts(x, d, h, env, t0, t1);
      t := t0 + t1;
    }
  }

  lemma {:induction false} RunBlock(x: string, d: nat, h: Hold, env: Env, ss: Stmts, p: Escape) returns (t: Trace)
    requires p in EscapesBlock(ss, x, h) && Agrees(h, d, env)
    ensures ExecBlock(ss, t, p.how) && Misses(x, d, h, env, t) && After(x, d, h, env, t) == p.hold
    decreases ss, 1
  {
    var q :| q in EscapesAll(ss, x, h, false) && p == Escape(q.how, Back(h, q.hold));
    var inner := Scope(Unbound, env);
    var t0 := RunAll(x, d, h, inner, ss, q);
    ShapeAll(x, inner, ss, t0, q.how);
    BlockHold(x, d, h, env, t0);
    t := [Enter] + t0 + [Exit];
  }

  lemma {:induction false} RunScoped(x: string, d: nat, h: Hold, env: Env, names: set<string>, ss: Stmts, p: Escape) returns (t: Trace)
    requires p in EscapesScoped(names, ss, x, h) && Agrees(h, d, env)
    ensures ExecScoped(names, ss, t, p.how) && Misses(x, d, h, env, t) && After(x, d, h, env, t) == p.hold
    decreases ss, 2
  {
    var h1 := if x in names then Bound(h, false) else h;
    var q :| q in EscapesBlock(ss, x, h1) && p == Escape(q.how, Back(h, q.hold));
    var inner := ScopeOf(x, names, env);
    var t0 := RunBlock(x, d, h1, inner, ss, q);
    ShapeBlock(x, inner, ss, t0, q.how);
    SameRefl(env);
    ScopedHold(x, d, h, env, names, t0);
    t := [Enter, Bind(names)] + t0 + [Exit];
  }

  lemma {:induction false} RunArms(x: string, d: nat, h: Hold, env: Env, arms: Arms, p: Escape) returns (t: Trace)
    requires p in EscapesArms(arms, x, h) && Agrees(h, d, env)
    ensures ExecArms(arms, t, p.how) && Misses(x, d, h, env, t) && After(x, d, h, env, t) == p.hold
    decreases arms
  {
    match arms
    case NoElse => t := [];
    case Else(b) => t := RunBlock(x, d, h, env, b, p);
    case Arm(c, names, b, rest) =>
      var t0 := EvalRun(x, d, h, env, c);
      var t1;
      if p in EscapesScoped(names, b, x, h) {
        t1 := RunScoped(x, d, h, Steps(x, env, t0), names, b, p);
      } else {
        t1 := RunArms(x, d, h, Steps(x, env, t0), rest, p);
      }
      Parts(x, d, h, env, t0, t1);
      t := t0 + t1;
  }

  lemma {:induction false} RunTurn(x: string, d: nat, h: Hold, env: Env, s: Stmt, p: Escape) returns (t: Trace)
    requires Loop(s) && p in EscapesTurn(s, x, h) && Agrees(h, d, env)
    ensures Turn(s, t, p.how) && Misses(x, d, h, env, t) && After(x, d, h, env, t) == p.hold
    decreases s.body, 3
  {
    if s.While? { t := RunBlock(x, d, h, env, s.body, p); } else { t := RunScoped(x, d, h, env, {s.loopVar}, s.body, p); }
  }

  lemma BeginHold(x: string, d: nat, h: Hold, env: Env, s: Stmt, head: Trace)
    requires Loop(s) && Eval(HeadOf(s), head) && Agrees(h, d, env) && (h == Own ==> Quiet(head, x))
    ensures var t := Begin(s, head);
            Misses(x, d, h, env, t) && After(x, d, h, env, t) == h && Agrees(h, d, Steps(x, env, t))
  {
    if s.While? { EvalHold(x, d, h, env, s.cond, head); }
  }

  /** No round, one that leaves the loop, or first one that overwrites the handle. */
  lemma {:induction false} RunRounds(x: string, d: nat, h: Hold, env: Env, s: Stmt, head: Trace, p: Escape) returns (n: nat, t: Trace)
    requires Loop(s) && Eval(HeadOf(s), head) && Agrees(h, d, env) && (h == Own ==> Quiet(head, x)) && p in EscapesRounds(s, x, h)
    ensures Rounds(s, n, t, p.how) && Misses(x, d, h, env, t) && After(x, d, h, env, t) == p.hold
    decreases s.body, 4, h != Lost
  {
    var begin := Begin(s, head);
    BeginHold(x, d, h, env, s, head);
    var env1 := Steps(x, env, begin);
    var turn := EscapesTurn(s, x, h);
    if p == Escape(Normal, h) {
      NoRounds(s, head);
      n, t := 0, begin;
    } else if p in LeaveLoop(turn) {
      var q :| q in turn && !LoopsOn(q.how) && p == Escape(LoopExit(q.how), q.hold);
      var t1 := RunTurn(x, d, h, env1, s, q);
      LastRound(s, head, t1, q.how);
      Parts(x, d, h, env, begin, t1);
      n, t := 1, begin + t1;
    } else {
      var q := if Escape(Normal, Lost) in turn then Escape(Normal, Lost) else Escape(Continued, Lost);
      n, t := RunLosing(x, d, h, env, s, head, q, p);
    }
  }

  lemma {:induction false} RunLosing(x: string, d: nat, h: Hold, env: Env, s: Stmt, head: Trace, q: Escape, p: Escape) returns (n: nat, t: Trace)
    requires Loop(s) && Eval(HeadOf(s), head) && Agrees(h, d, env) && (h == Own ==> Quiet(head, x)) && h != Lost
    requires q in EscapesTurn(s, x, h) && LoopsOn(q.how) && q.hold == Lost && p in EscapesRounds(s, x, Lost)
    ensures Rounds(s, n, t, p.how) && Misses(x, d, h, env, t) && After(x, d, h, env, t) == p.hold
    decreases s.body, 4, h != Lost, 0
  {
    var begin := Begin(s, head);
    BeginHold(x, d, h, env, s, head);
    var env1 := Steps(x, env, begin);
    var t1 := RunTurn(x, d, h, env1, s, q);
    TurnAgrees(x, d, h, env1, s, t1, q.how);
    var t2;
    n, t2 := RunRounds(x, d, Lost, Steps(x, env1, t1), s, head, p);
    OneMoreRound(s, head, t1, q.how, n, t2, p.how);
    Parts(x, d, h, env1, t1, t2);
    Parts(x, d, h, env, begin, t1 + t2);
    n, t := n + 1, begin + (t1 + t2);
  }

  lemma {:induction false} RunLoop(x: string, d: nat, h: Hold, env: Env, s: Stmt, p: Escape) returns (t: Trace)
    requires Loop(s) && p in Escapes(s, x, h, Depth(env) == d) && Agrees(h, d, env)
    ensures Exec(s, t, p.how) && Misses(x, d, h, env, t) && After(x, d, h, env, t) == p.hold
    decreases s, 0
  {
    var head := EvalRun(x, d, h, env, HeadOf(s));
    var n, t1;
    if s.While? {
      n, t1 := RunRounds(x, d, h, env, s, head, p);
      t := t1;
    } else {
      n, t1 := RunRounds(x, d, h, Steps(x, env, head), s, head, p);
      Parts(x, d, h, env, head, t1);
      t := head + t1;
    }
    WholeLoop(s, head, n, t1, p.how);
  }

  // ---------------------------------------------------------------- exactness

  /** The run leaves the statements behind the spawn by `p.how`, the handle not awaited and `p.hold` its fate. */
  ghost predicate LeavesBy(ss: Stmts, x: string, outer: Env, t: Trace, p: Escape) {
    var d, env := Depth(outer) + 1, Scope(Fresh, outer);
    ExecAll(ss, t, p.how) && !Awaits(x, d, env, t) && After(x, d, Own, env, t) == p.hold
  }

  /** The escapes computed are exactly the ways in which some run leaves the statements with the handle not
      awaited. */
  lemma EscapesExact(ss: Stmts, x: string, outer: Env, p: Escape)
    ensures p in EscapesAll(ss, x, Own, true) <==> exists t :: LeavesBy(ss, x, outer, t, p)
  {
    var d, env := Depth(outer) + 1, Scope(Fresh, outer);
    assert Depth(env) == d && Agrees(Own, d, env);
    if p in EscapesAll(ss, x, Own, true) {
      var t := RunAll(x, d, Own, env, ss, p);
      assert LeavesBy(ss, x, outer, t, p);
    }
    forall t | LeavesBy(ss, x, outer, t, p)
      ensures p in EscapesAll(ss, x, Own, true)
    {
      FoundAll(x, d, Own, env, ss, t, p.how);
    }
  }

  /** Every run of the statements awaits the handle spawned before them if and only if nothing escapes: for a
      rest that the test accepts, this is when the test is right. */
  lemma SurelyAwaitedExact(rest: Stmts, x: string)
    ensures AlwaysAwaits(rest, x) <==> EscapesAll(rest, x, Own, true) == {}
  {
    if EscapesAll(rest, x, Own, true) == {} {
      forall outer: Env, t, o | ExecAll(rest, t, o)
        ensures Awaits(x, Depth(outer) + 1, Scope(Fresh, outer), t)
      {
        var d, env := Depth(outer) + 1, Scope(Fresh, outer);
        assert Depth(env) == d && Agrees(Own, d, env);
        if !Awaits(x, d, env, t) { FoundAll(x, d, Own, env, rest, t, o); }
      }
    } else {
      var p :| p in EscapesAll(rest, x, Own, true);
      EscapesExact(rest, x, Top(false), p);
      var t :| LeavesBy(rest, x, Top(false), t, p);
      assert ExecAll(rest, t, p.how) && !Awaits(x, Depth(Top(false)) + 1, Scope(Fresh, Top(false)), t);
    }
  }

  // ---- the sufficient condition

  lemma {:induction false} SureSkips(e: Expr, x: string)
    requires ExprSurely(e, x)
    ensures !SkipsE(e, x)
    decreases e
  {
    match e
    case Await(h, _) => if !(h.Ident? && h.name == x) { SureSkips(h, x); }
    case Logical(l, _) => SureSkips(l, x);
    case Compound(_, es) => SureSkipsAll(es, x);
  }

  lemma {:induction false} SureSkipsAll(es: Exprs, x: string)
    requires SomeSurely(es, x)
    ensures !SkipsEs(es, x)
    decreases es
  {
    if ExprSurely(es.head, x) { SureSkips(es.head, x); } else { SureSkipsAll(es.tail, x); }
  }

  lemma {:induction false} SteadyHold(x: string, d: nat, env: Env, t: Trace)
    requires Steady(t, x)
    ensures !Loses(x, d, env, t)
    decreases |t|
  {
    if t != [] { SteadyHold(x, d, Step(x, env, t[0]), t[1..]); }
  }

  /** A statement that cannot exit and leaves the name alone can only be passed, with the handle still held. */
  lemma PassesOwn(s: Stmt, x: string, top: bool)
    requires !MayExit(s, false) && NoRebind(Events(s), x)
    ensures Escapes(s, x, Own, top) <= {Escape(Normal, Own)}
  {
    var own := Scope(Fresh, Top(false));
    var env := if top then own else Scope(Unbound, own);
    forall p | p in Escapes(s, x, Own, top)
      ensures p == Escape(Normal, Own)
    {
      assert Depth(own) == 1 && Agrees(Own, 1, env) && (Depth(env) == 1 <==> top);
      var t := Run(x, 1, Own, env, s, p);
      NoExit(s, false, t, p.how);
      ExecWithin(s, t, p.how);
      SteadyHold(x, 1, env, t);
      Shape(x, env, s, t, p.how);
      assert Declare(x) !in Events(s) && Bind({x}) !in Events(s);
      SameDenotes(env, Steps(x, env, t), 1);
    }
  }

  lemma {:induction false} SureStmtEmpty(s: Stmt, x: string, top: bool)
    requires StmtSurely(s, x) && Tidy(s, x) && Untouched(s, x)
    ensures Escapes(s, x, Own, top) == {}
    decreases s
  {
    match s
    case Decl(_, Value(e)) => SureSkips(e, x);
    case Assign(target, _, v) => if ExprSurely(v, x) { SureSkips(v, x); } else { SureSkips(target, x); }
    case Return(e) => SureSkips(e, x);
    case ExprStmt(e) => SureSkips(e, x);
    case Block(ss) => SureAllEmpty(ss, x, false);
  }

  lemma {:induction false} SureAllEmpty(ss: Stmts, x: string, top: bool)
    requires AnySurely(ss, x) && TidyAll(ss, x) && UntouchedAll(ss, x)
    ensures EscapesAll(ss, x, Own, top) == {}
    decreases ss
  {
    if StmtSurely(ss.head, x) {
      SureStmtEmpty(ss.head, x, top);
    } else {
      PassesOwn(ss.head, x, top);
      SureAllEmpty(ss.tail, x, top);
    }
  }

  /** A yes of the test is right where, before the await, no exit stands inside a bare block and nothing gives
      the name another handle. */
  lemma TidyAwaited(rest: Stmts, x: string)
    requires SpawnSurelyAwaited(rest, x) && TidyAll(rest, x) && UntouchedAll(rest, x)
    ensures AlwaysAwaits(rest, x)
  {
    CheckFindsAwait(rest, x);
    SureAllEmpty(rest, x, true);
    SurelyAwaitedExact(rest, x);
  }

  // ---------------------------------------------------------------- accepted, right and wrong

  lemma AwaitEscapes(x: string, h: Hold, top: bool)
    ensures Escapes(ExprStmt(AwaitAt(x, 1)), x, h, top) == if h == Own then {} else {Escape(Normal, h)}
    ensures EscapesAll(One(ExprStmt(AwaitAt(x, 1))), x, h, top) == if h == Own then {} else {Escape(Normal, h)}
  {
    var last := ExprStmt(AwaitAt(x, 1));
    assert !SkipsE(AwaitAt(x, 1), x);
    assert Escapes(last, x, h, top) == if h == Own then {} else {Escape(Normal, h)};
    assert EscapesAll(SNil, x, h, top) == {Escape(Normal, h)};
  }

  lemma AwaitLast(s: Stmt, x: string)
    requires !StmtSurely(s, x)
    ensures AnySurely(Two(s, ExprStmt(AwaitAt(x, 1))), x)
    ensures !MayExit(s, false) ==> SpawnSurelyAwaited(Two(s, ExprStmt(AwaitAt(x, 1))), x) && TidyAll(Two(s, ExprStmt(AwaitAt(x, 1))), x)
  {
    var last := ExprStmt(AwaitAt(x, 1));
    assert StmtSurely(last, x) && AnySurely(One(last), x) && SpawnSurelyAwaited(One(last), x) && TidyAll(One(last), x);
  }

  /** `val h = spawn ...  { val h = spawn ...  await h }`: it is the inner handle that is awaited. */
  lemma ShadowedNotAwaited(x: string)
    ensures var rest := One(Block(Two(Spawn(x), ExprStmt(AwaitAt(x, 1)))));
            SpawnSurelyAwaited(rest, x) && TidyAll(rest, x) && !AlwaysAwaits(rest, x)
  {
    var inner := Two(Spawn(x), ExprStmt(AwaitAt(x, 1)));
    AwaitLast(Spawn(x), x);
    AwaitEscapes(x, Shadowed, false);
    assert Escapes(Spawn(x), x, Own, false) == {Escape(Normal, Shadowed)};
    assert Escape(Normal, Shadowed) in EscapesAll(inner, x, Own, false);
    assert Escape(Normal, Own) in Escapes(Block(inner), x, Own, true);
    assert Escape(Normal, Own) in EscapesAll(SNil, x, Own, true);
    SurelyAwaitedExact(One(Block(inner)), x);
  }

  /** `var h = spawn ...  h = other  await h`: the spawned handle is gone. */
  lemma ReassignedNotAwaited(x: string)
    ensures var rest := Two(Assign(Ident(x, 0), false, Leaf), ExprStmt(AwaitAt(x, 1)));
            SpawnSurelyAwaited(rest, x) && TidyAll(rest, x) && !AlwaysAwaits(rest, x)
  {
    var put := Assign(Ident(x, 0), false, Leaf);
    AwaitLast(put, x);
    AwaitEscapes(x, Lost, true);
    assert Escapes(put, x, Own, true) == {Escape(Normal, Lost)};
    assert Escape(Normal, Lost) in EscapesAll(Two(put, ExprStmt(AwaitAt(x, 1))), x, Own, true);
    SurelyAwaitedExact(Two(put, ExprStmt(AwaitAt(x, 1))), x);
  }

  /** `if c { return await h }` */
  function MayReturn(x: string): Stmt { If(Leaf, One(Return(AwaitAt(x, 1))), NoElse) }

  /** `{ if c { return await h }  await h }`: an exit inside a bare block, and yet every run awaits, so the
      nesting condition is not the exact one. */
  lemma UntidyAwaited(x: string)
    ensures var rest := One(Block(Two(MayReturn(x), ExprStmt(AwaitAt(x, 1)))));
            SpawnSurelyAwaited(rest, x) && !TidyAll(rest, x) && AlwaysAwaits(rest, x)
  {
    UntidyTest(x);
    UntidyEscapes(x);
    SurelyAwaitedExact(One(Block(Two(MayReturn(x), ExprStmt(AwaitAt(x, 1))))), x);
  }

  lemma UntidyTest(x: string)
    ensures var rest := One(Block(Two(MayReturn(x), ExprStmt(AwaitAt(x, 1))))); SpawnSurelyAwaited(rest, x) && !TidyAll(rest, x)
  {
    IfMayExit(Leaf, Return(AwaitAt(x, 1)), x);
    AwaitLast(MayReturn(x), x);
    ExitFirst(MayReturn(x), One(ExprStmt(AwaitAt(x, 1))), x);
    InBlock(Two(MayReturn(x), ExprStmt(AwaitAt(x, 1))), x);
  }

  lemma IfMayExit(c: Expr, s: Stmt, x: string)
    requires MayExit(s, false)
    ensures MayExit(If(c, One(s), NoElse), false) && !StmtSurely(If(c, One(s), NoElse), x)
  {
    assert MayExitAll(One(s), false);
  }

  lemma ExitFirst(s: Stmt, rest: Stmts, x: string)
    requires !StmtSurely(s, x) && MayExit(s, false)
    ensures !TidyAll(SCons(s, rest), x)
  {
  }

  lemma InBlock(ss: Stmts, x: string)
    requires AnySurely(ss, x)
    ensures SpawnSurelyAwaited(One(Block(ss)), x) && (TidyAll(One(Block(ss)), x) <==> TidyAll(ss, x))
  {
    assert StmtSurely(Block(ss), x);
  }

  lemma UntidyEscapes(x: string)
    ensures EscapesAll(One(Block(Two(MayReturn(x), ExprStmt(AwaitAt(x, 1))))), x, Own, true) == {}
  {
    var inner := Two(MayReturn(x), ExprStmt(AwaitAt(x, 1)));
    MayReturnEscapes(x);
    AwaitEscapes(x, Own, false);
    assert EscapesAll(inner, x, Own, false) == {};
    assert Escapes(Block(inner), x, Own, true) == {};
  }

  lemma MayReturnEscapes(x: string)
    ensures Escapes(MayReturn(x), x, Own, false) == {Escape(Normal, Own)}
  {
    var back := Return(AwaitAt(x, 1));
    assert !SkipsE(AwaitAt(x, 1), x);
    assert Escapes(back, x, Own, false) == {} && EscapesAll(One(back), x, Own, false) == {};
    assert EscapesBlock(One(back), x, Own) == {};
    assert EscapesArms(NoElse, x, Own) == {Escape(Normal, Own)};
  }
}
