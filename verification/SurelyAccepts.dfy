/**
 The surely-awaited test (src/analyzer/capture.c) with both of its directions: what a yes promises, and which
 blocks it must say yes to.
 */
module SurelyAccepts {
  import opened IronCore
  import opened Programs
  import opened SurelyAwaited
  import opened SurelyExact
  import opened AwaitSound

  predicate NoAwaitOf(evs: set<Event>, x: string) { forall ev :: ev in evs ==> !AwaitOf(ev, x) }

  /** No await of `x` stands in a slice or in an enum payload, the right side of and / or aside. */
  predicate Open(e: Expr, x: string)
    decreases e
  {
    match e
    case Leaf => true
    case Ident(_, _) => true
    case Await(h, _) => Open(h, x)
    case Logical(l, _) => Open(l, x)
    case Compound(k, es) => if k == SliceExpr || k == EnumConstruct then NoAwaitOf(EventsEs(es), x) else OpenAll(es, x)
  }

  predicate OpenAll(es: Exprs, x: string)
    decreases es
  {
    es.ECons? ==> Open(es.head, x) && OpenAll(es.tail, x)
  }

  /** The ways in which a return, break or continue in the statement may leave it. */
  function ExitsBy(s: Stmt): set<Outcome>
    decreases s
  {
    match s
    case Return(_) => {Returned}
    case Break => {Broke}
    case Continue => {Continued}
    case Block(ss) => ExitsByAll(ss)
    case If(_, b, rest) => ExitsByAll(b) + ExitsByArms(rest)
    case While(_, b) => ExitsByAll(b) * {Returned}
    case For(_, _, b) => ExitsByAll(b) * {Returned}
    case Match(_, cases) => ExitsByArms(cases)
    case _ => {}
  }

  function ExitsByAll(ss: Stmts): set<Outcome>
    decreases ss
  {
    if ss.SNil? then {} else ExitsBy(ss.head) + ExitsByAll(ss.tail)
  }

  function ExitsByArms(arms: Arms): set<Outcome>
    decreases arms
  {
    match arms
    case NoElse => {}
    case Else(b) => ExitsByAll(b)
    case Arm(_, _, b, rest) => ExitsByAll(b) + ExitsByArms(rest)
  }

  /** Straight-line code and bare blocks; an if, loop or match holds no exit and no await of `x`. */
  predicate Plain(s: Stmt, x: string)
    decreases s
  {
    match s
    case Decl(_, i) => i.Value? ==> Open(i.e, x)
    case Spawn(_) => true
    case Assign(target, _, v) => Open(v, x) && Open(target, x)
    case Return(e) => Open(e, x)
    case Break => true
    case Continue => true
    case ExprStmt(e) => Open(e, x)
    case Block(ss) => PlainAll(ss, x)
    case _ => ExitsBy(s) == {} && NoAwaitOf(Events(s), x)
  }

  predicate PlainAll(ss: Stmts, x: string)
    decreases ss
  {
    ss.SCons? ==> Plain(ss.head, x) && PlainAll(ss.tail, x)
  }

  // ---------------------------------------------------------------- a run past whatever the test rejects

  lemma {:induction false} SkipsQuiet(e: Expr, x: string)
    requires NoAwaitOf(EventsE(e), x)
    ensures SkipsE(e, x)
    decreases e
  {
    match e
    case Leaf =>
    case Ident(_, _) =>
    case Await(h, n) =>
      if h.Ident? { assert Awaited(h.name, n) in EventsE(e); }
      SkipsQuiet(h, x);
    case Logical(l, _) => SkipsQuiet(l, x);
    case Compound(_, es) => SkipsQuietAll(es, x);
  }

  lemma {:induction false} SkipsQuietAll(es: Exprs, x: string)
    requires NoAwaitOf(EventsEs(es), x)
    ensures SkipsEs(es, x)
    decreases es
  {
    if es.ECons? {
      SkipsQuiet(es.head, x);
      SkipsQuietAll(es.tail, x);
    }
  }

  /** An expression is surely awaiting unless it can be evaluated without the await. */
  lemma {:induction false} SureOrSkips(e: Expr, x: string)
    requires Open(e, x)
    ensures ExprSurely(e, x) <==> !SkipsE(e, x)
    decreases e
  {
    match e
    case Leaf =>
    case Ident(_, _) =>
    case Await(h, _) => SureOrSkips(h, x);
    case Logical(l, _) => SureOrSkips(l, x);
    case Compound(k, es) => if k == SliceExpr || k == EnumConstruct { SkipsQuietAll(es, x); } else { SureOrSkipsAll(es, x); }
  }

  lemma {:induction false} SureOrSkipsAll(es: Exprs, x: string)
    requires OpenAll(es, x)
    ensures SomeSurely(es, x) <==> !SkipsEs(es, x)
    decreases es
  {
    if es.ECons? {
      SureOrSkips(es.head, x);
      SureOrSkipsAll(es.tail, x);
    }
  }

  function Absorbed(inLoop: bool): set<Outcome> { if inLoop then {Broke, Continued} else {} }

  lemma {:induction false} ExitExact(s: Stmt, inLoop: bool)
    ensures MayExit(s, inLoop) <==> ExitsBy(s) - Absorbed(inLoop) != {}
    ensures Normal !in ExitsBy(s)
    decreases s
  {
    match s
    case Return(_) => assert Returned in ExitsBy(s) - Absorbed(inLoop);
    case Break => if !inLoop { assert Broke in ExitsBy(s) - Absorbed(inLoop); }
    case Continue => if !inLoop { assert Continued in ExitsBy(s) - Absorbed(inLoop); }
    case Block(ss) => ExitExactAll(ss, inLoop);
    case If(_, b, rest) => ExitExactAll(b, inLoop); ExitExactArms(rest, inLoop);
    case While(_, b) => LoopExits(b, inLoop);
    case For(_, _, b) => LoopExits(b, inLoop);
    case Match(_, cases) => ExitExactArms(cases, inLoop);
    case _ =>
  }

  lemma {:induction false} LoopExits(b: Stmts, inLoop: bool)
    ensures MayExitAll(b, true) <==> ExitsByAll(b) * {Returned} - Absorbed(inLoop) != {}
    decreases b, 1
  {
    ExitExactAll(b, true);
    forall o | o in ExitsByAll(b) - Absorbed(true)
      ensures o in ExitsByAll(b) * {Returned} - Absorbed(inLoop)
    {
      assert o == Normal || o == Returned || o == Broke || o == Continued;
    }
    if MayExitAll(b, true) {
      var o :| o in ExitsByAll(b) - Absorbed(true);
      assert o in ExitsByAll(b) * {Returned} - Absorbed(inLoop);
    }
    if o :| o in ExitsByAll(b) * {Returned} - Absorbed(inLoop) { assert o in ExitsByAll(b) - Absorbed(true); }
  }

  lemma {:induction false} ExitExactAll(ss: Stmts, inLoop: bool)
    ensures MayExitAll(ss, inLoop) <==> ExitsByAll(ss) - Absorbed(inLoop) != {}
    ensures Normal !in ExitsByAll(ss)
    decreases ss, 0
  {
    if ss.SCons? {
      ExitExact(ss.head, inLoop);
      ExitExactAll(ss.tail, inLoop);
      assert ExitsByAll(ss) - Absorbed(inLoop) == (ExitsBy(ss.head) - Absorbed(inLoop)) + (ExitsByAll(ss.tail) - Absorbed(inLoop));
    }
  }

  lemma {:induction false} ExitExactArms(arms: Arms, inLoop: bool)
    ensures MayExitArms(arms, inLoop) <==> ExitsByArms(arms) - Absorbed(inLoop) != {}
    ensures Normal !in ExitsByArms(arms)
    decreases arms
  {
    match arms
    case NoElse =>
    case Else(b) => ExitExactAll(b, inLoop);
    case Arm(_, _, b, rest) => ExitExactAll(b, inLoop); ExitExactArms(rest, inLoop);
  }

  lemma WithinQuiet(t: Trace, evs: set<Event>, x: string)
    requires Within(t, evs) && NoAwaitOf(evs, x)
    ensures Quiet(t, x)
  {
    forall i | 0 <= i < |t|
      ensures !AwaitOf(t[i], x)
    {
      assert t[i] in evs;
    }
  }

  lemma {:induction false} MissStmt(s: Stmt, x: string) returns (t: Trace, o: Outcome)
    requires Plain(s, x) && !StmtSurely(s, x)
    ensures Exec(s, t, o) && Quiet(t, x) && (o == Normal ==> !MayExit(s, false))
    decreases s
  {
    o := Normal;
    match s
    case Decl(y, NoInit) => t := [Declare(y)];
    case Decl(y, Zeroed) => t := [Bind({y})];
    case Decl(y, Value(e)) =>
      SureOrSkips(e, x);
      var t0 := SkipsRun(e, x);
      QuietParts(t0, [Bind({y})], x);
      t := t0 + [Bind({y})];
    case Spawn(h) => t := [Bind({h})];
    case Assign(target, compound, v) => t := MissAssign(s, x);
    case Return(e) =>
      SureOrSkips(e, x);
      t := SkipsRun(e, x);
      o := Returned;
    case Break => t, o := [], Broke;
    case Continue => t, o := [], Continued;
    case ExprStmt(e) =>
      SureOrSkips(e, x);
      t := SkipsRun(e, x);
    case Block(ss) =>
      var t0;
      t0, o := MissAll(ss, x);
      QuietParts([Enter], t0, x);
      QuietParts([Enter] + t0, [Exit], x);
      t := [Enter] + t0 + [Exit];
    case _ =>
      t, o := SomeRun(s);
      ExecWithin(s, t, o);
      WithinQuiet(t, Events(s), x);
      ExitExact(s, false);
  }

  lemma MissAssign(s: Stmt, x: string) returns (t: Trace)
    requires s.Assign? && Plain(s, x) && !StmtSurely(s, x)
    ensures Exec(s, t, Normal) && Quiet(t, x)
  {
    var Assign(target, compound, v) := s;
    SureOrSkips(v, x);
    SureOrSkips(target, x);
    var t0 := SkipsRun(v, x);
    var t1;
    if target.Ident? { t1 := SomeStore(target, compound); } else { t1 := SkipsRun(target, x); }
    QuietParts(t0, t1, x);
    t := t0 + t1;
  }

  lemma {:induction false} MissAll(ss: Stmts, x: string) returns (t: Trace, o: Outcome)
    requires PlainAll(ss, x) && !AnySurely(ss, x)
    ensures ExecAll(ss, t, o) && Quiet(t, x) && (o == Normal ==> !MayExitAll(ss, false))
    decreases ss
  {
    t, o := [], Normal;
    if ss.SCons? {
      t, o := MissStmt(ss.head, x);
      if o == Normal {
        var t1;
        t1, o := MissAll(ss.tail, x);
        QuietParts(t, t1, x);
        t := t + t1;
      }
    }
  }

  /** What the test rejects has a run without the await. */
  lemma {:induction false} MissRest(rest: Stmts, x: string) returns (t: Trace, o: Outcome)
    requires PlainAll(rest, x) && !SpawnSurelyAwaited(rest, x)
    ensures ExecAll(rest, t, o) && Quiet(t, x)
    decreases rest
  {
    t, o := [], Normal;
    if rest.SCons? {
      t, o := MissStmt(rest.head, x);
      if o == Normal {
        var t1;
        t1, o := MissRest(rest.tail, x);
        QuietParts(t, t1, x);
        t := t + t1;
      }
    }
  }

  // ---------------------------------------------------------------- both directions

  /** The test says yes to every plain block whose runs all await the name. */
  lemma MustAccept(rest: Stmts, x: string)
    requires PlainAll(rest, x) && forall t, o :: ExecAll(rest, t, o) ==> HasAwait(t, x)
    ensures SpawnSurelyAwaited(rest, x)
  {
    if !SpawnSurelyAwaited(rest, x) { var t, o := MissRest(rest, x); }
  }

  lemma {:induction false} AwaitsName(x: string, d: nat, env: Env, t: Trace)
    requires Awaits(x, d, env, t)
    ensures HasAwait(t, x)
    decreases |t|
  {
    if AwaitOf(t[0], x) {
    } else {
      AwaitsName(x, d, Step(x, env, t[0]), t[1..]);
      var i :| 0 <= i < |t[1..]| && AwaitOf(t[1..][i], x);
      assert AwaitOf(t[i + 1], x);
    }
  }

  /** For plain blocks in which, before the await, no exit stands inside a bare block and nothing gives the name
      another handle, the test says yes if and only if every run awaits the spawned handle. */
  lemma TestExact(rest: Stmts, x: string)
    ensures PlainAll(rest, x) && AlwaysAwaits(rest, x) ==> SpawnSurelyAwaited(rest, x)
    ensures SpawnSurelyAwaited(rest, x) && TidyAll(rest, x) && UntouchedAll(rest, x) ==> AlwaysAwaits(rest, x)
  {
    if SpawnSurelyAwaited(rest, x) && TidyAll(rest, x) && UntouchedAll(rest, x) { TidyAwaited(rest, x); }
    if PlainAll(rest, x) && AlwaysAwaits(rest, x) {
      forall t, o | ExecAll(rest, t, o)
        ensures HasAwait(t, x)
      {
        AwaitsName(x, Depth(Top(false)) + 1, Scope(Fresh, Top(false)), t);
      }
      MustAccept(rest, x);
    }
  }

  /** spawn_surely_awaited: the loop of the source, with its two early returns. */
  method CheckSpawn(rest: Stmts, x: string) returns (awaited: bool)
    ensures awaited == SpawnSurelyAwaited(rest, x)
    ensures PlainAll(rest, x) && AlwaysAwaits(rest, x) ==> awaited
    ensures awaited && TidyAll(rest, x) && UntouchedAll(rest, x) ==> AlwaysAwaits(rest, x)
  {
    TestExact(rest, x);
    var cur := rest;
    while cur.SCons?
      invariant SpawnSurelyAwaited(cur, x) == SpawnSurelyAwaited(rest, x)
      decreases cur
    {
      if StmtSurely(cur.head, x) { return true; }
      if MayExit(cur.head, false) { return false; }
      cur := cur.tail;
    }
    return false;
  }
}
