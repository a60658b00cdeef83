/**
 The await-once analysis (src/analyzer/concurrency.c): which handles may already have been awaited
 on the current path. Branches are joined, a returned path is dead, a block gives shadowed names
 back, and a loop body is walked exactly twice.
 */
module AwaitOnce {
  import opened IronCore
  import opened Options

  /** A "may already have been awaited" report: the await node and the handle it names. */
  datatype Site = Site(name: string, site: nat)

  /** AwaitState together with the reports so far. */
  datatype State = State(names: set<string>, dead: bool, reports: set<Site>)

  function Start(): State { State({}, false, {}) }

  /** expr_ident_name: the identifier at the root of a place. */
  function RootName(e: Expr): Option<string>
    decreases e
  {
    match e
    case Ident(x, _) => Some(x)
    case Compound(Place, ECons(b, _)) => RootName(b)
    case _ => None
  }

  function AwExpr(e: Expr, st: State): State
    decreases e
  {
    match e
    case Leaf => st
    case Ident(_, _) => st
    case Await(h, n) =>
      var st1 := AwExpr(h, st);
      (match RootName(h)
       case None => st1
       case Some(x) =>
         st1.(names := st1.names + {x}, reports := if x in st1.names then st1.reports + {Site(x, n)} else st1.reports))
    case Logical(l, r) => AwExpr(r, AwExpr(l, st))
    case Compound(k, es) =>
      match k
      case Operator => AwExprs(es, st)
      case Place => AwExprs(es, st)
      case CallExpr => if es.ECons? then AwExprs(es.tail, st) else st
      case _ => st
  }

  function AwExprs(es: Exprs, st: State): State
    decreases es
  {
    match es
    case ENil => st
    case ECons(e, rest) => AwExprs(rest, AwExpr(e, st))
  }

  /** The name a statement of a block declares, if any. */
  function DeclName(s: Stmt): Option<string> {
    match s
    case Decl(x, _) => Some(x)
    case Spawn(h) => Some(h)
    case _ => None
  }

  /** The shadowed names of the block so far with the state they had before their declaration. */
  function Shadow(s: Stmt, names: set<string>, saved: map<string, bool>): map<string, bool> {
    match DeclName(s)
    case None => saved
    case Some(x) => if x in saved then saved else saved[x := x in names]
  }

  function GiveBack(names: set<string>, saved: map<string, bool>): set<string> {
    (names - saved.Keys) + (set x | x in saved && saved[x])
  }

  /** aw_join: a dead path contributes nothing. */
  function Join(dst: State, src: State): State {
    if src.dead then dst
    else if dst.dead then dst.(names := src.names, dead := false)
    else dst.(names := dst.names + src.names)
  }

  function AwStmt(s: Stmt, st: State): State
    decreases s
  {
    if st.dead then st else
    match s
    case Decl(x, Value(e)) => var st1 := AwExpr(e, st); st1.(names := st1.names - {x})
    case Decl(x, _) => st.(names := st.names - {x})
    case Spawn(h) => st.(names := st.names - {h})
    case Assign(target, _, v) =>
      var st1 := AwExpr(v, st);
      if target.Ident? then st1.(names := st1.names - {target.name}) else st1
    case Return(e) => AwExpr(e, st).(dead := true)
    case Break => st
    case Continue => st
    case ExprStmt(e) => AwExpr(e, st)
    case Block(ss) => AwBlock(ss, st)
    case If(c, body, rest) =>
      var st1 := AwExpr(c, st);
      AwArms(rest, st1.names, AwBranch(Leaf, body, st1.names, st1.(names := {}, dead := true)))
    case While(c, body) => AwLoop(body, AwExpr(c, st))
    case For(_, e, body) => AwLoop(body, AwExpr(e, st))
    case Match(e, cases) =>
      var st1 := AwExpr(e, st);
      AwArms(cases, st1.names, st1.(names := {}, dead := true))
  }

  function AwAll(ss: Stmts, st: State, saved: map<string, bool>): (State, map<string, bool>)
    decreases ss, 0
  {
    match ss
    case SNil => (st, saved)
    case SCons(s, rest) => AwAll(rest, AwStmt(s, st), Shadow(s, st.names, saved))
  }

  function AwBlock(ss: Stmts, st: State): State
    decreases ss, 1
  {
    if st.dead then st else
    var (st1, saved) := AwAll(ss, st, map[]);
    if st1.dead then st1 else st1.(names := GiveBack(st1.names, saved))
  }

  /** A live branch entered with `names`; `out` holds the join so far and all reports. */
  function AwBranch(c: Expr, body: Stmts, names: set<string>, out: State): State
    decreases body, 2
  {
    var r := AwBlock(body, AwExpr(c, State(names, false, out.reports)));
    Join(out.(reports := r.reports), r)
  }

  function AwArms(arms: Arms, names: set<string>, out: State): State
    decreases arms
  {
    match arms
    case NoElse => Join(out, State(names, false, out.reports))
    case Else(b) => AwBranch(Leaf, b, names, out)
    case Arm(c, _, b, rest) => AwArms(rest, names, AwBranch(c, b, names, out))
  }

  /** The second pass starts from what the first one left, returned or not, joined with the entry. */
  function SecondPass(it: State, st: State): State {
    State(it.names + st.names, false, it.reports)
  }

  function AwLoop(body: Stmts, st: State): State
    decreases body, 2
  {
    var it := AwBlock(body, st);
    var it2 := AwBlock(body, SecondPass(it, st));
    Join(Join(st.(reports := it2.reports), it), it2)
  }

  // ---------------------------------------------------------------- gen/kill form

  /** `st'` agrees with `st` on control and holds at least as much about the name `x`,
      reports in `ex` aside. */
  ghost predicate AtMost(ex: set<Site>, x: string, st: State, st': State) {
    && st.dead == st'.dead
    && (x in st.names ==> x in st'.names)
    && (forall n :: Site(x, n) in st.reports ==> Site(x, n) in st'.reports || Site(x, n) in ex)
  }

  ghost predicate SavedAtMost(x: string, saved: map<string, bool>, saved': map<string, bool>) {
    (x in saved <==> x in saved') && (x in saved && saved[x] ==> saved'[x])
  }

  lemma {:induction false} MonoExpr(ex: set<Site>, x: string, e: Expr, st: State, st': State)
    requires AtMost(ex, x, st, st')
    ensures AtMost(ex, x, AwExpr(e, st), AwExpr(e, st'))
    ensures AwExpr(e, st).dead == st.dead
    decreases e
  {
    match e
    case Leaf =>
    case Ident(_, _) =>
    case Await(h, n) => MonoExpr(ex, x, h, st, st');
    case Logical(l, r) =>
      MonoExpr(ex, x, l, st, st');
      MonoExpr(ex, x, r, AwExpr(l, st), AwExpr(l, st'));
    case Compound(k, es) =>
      match k
      case Operator => MonoExprs(ex, x, es, st, st');
      case Place => MonoExprs(ex, x, es, st, st');
      case CallExpr => if es.ECons? { MonoExprs(ex, x, es.tail, st, st'); }
      case _ =>
  }

  lemma {:induction false} MonoExprs(ex: set<Site>, x: string, es: Exprs, st: State, st': State)
    requires AtMost(ex, x, st, st')
    ensures AtMost(ex, x, AwExprs(es, st), AwExprs(es, st'))
    ensures AwExprs(es, st).dead == st.dead
    decreases es
  {
    if es.ECons? {
      MonoExpr(ex, x, es.head, st, st');
      MonoExprs(ex, x, es.tail, AwExpr(es.head, st), AwExpr(es.head, st'));
    }
  }

  /** The fate of one name under a statement depends on that name alone, monotonically: the
      transfer on the awaited set has gen/kill form, and control does not depend on the set. */
  lemma {:induction false} MonoStmt(ex: set<Site>, x: string, s: Stmt, st: State, st': State)
    requires AtMost(ex, x, st, st')
    ensures AtMost(ex, x, AwStmt(s, st), AwStmt(s, st'))
    decreases s
  {
    if !st.dead {
      match s
      case Decl(_, Value(e)) => MonoExpr(ex, x, e, st, st');
      case Decl(_, NoInit) =>
      case Decl(_, Zeroed) =>
      case Spawn(_) =>
      case Assign(_, _, v) => MonoExpr(ex, x, v, st, st');
      case Return(e) => MonoExpr(ex, x, e, st, st');
      case Break =>
      case Continue =>
      case ExprStmt(e) => MonoExpr(ex, x, e, st, st');
      case Block(ss) => MonoBlock(ex, x, ss, st, st');
      case If(c, body, rest) =>
        MonoExpr(ex, x, c, st, st');
        var st1, st1' := AwExpr(c, st), AwExpr(c, st');
        var out, out' := st1.(names := {}, dead := true), st1'.(names := {}, dead := true);
        MonoBranch(ex, x, Leaf, body, st1.names, st1'.names, out, out');
        MonoArms(ex, x, rest, st1.names, st1'.names, AwBranch(Leaf, body, st1.names, out), AwBranch(Leaf, body, st1'.names, out'));
      case While(c, body) =>
        MonoExpr(ex, x, c, st, st');
        MonoLoop(ex, x, body, AwExpr(c, st), AwExpr(c, st'));
      case For(_, e, body) =>
        MonoExpr(ex, x, e, st, st');
        MonoLoop(ex, x, body, AwExpr(e, st), AwExpr(e, st'));
      case Match(e, cases) =>
        MonoExpr(ex, x, e, st, st');
        var st1, st1' := AwExpr(e, st), AwExpr(e, st');
        MonoArms(ex, x, cases, st1.names, st1'.names, st1.(names := {}, dead := true), st1'.(names := {}, dead := true));
    }
  }

  lemma {:induction false} MonoAll(ex: set<Site>, x: string, ss: Stmts, st: State, st': State, saved: map<string, bool>, saved': map<string, bool>)
    requires AtMost(ex, x, st, st') && SavedAtMost(x, saved, saved')
    ensures AtMost(ex, x, AwAll(ss, st, saved).0, AwAll(ss, st', saved').0)
    ensures SavedAtMost(x, AwAll(ss, st, saved).1, AwAll(ss, st', saved').1)
    decreases ss, 0
  {
    if ss.SCons? {
      MonoStmt(ex, x, ss.head, st, st');
      MonoAll(ex, x, ss.tail, AwStmt(ss.head, st), AwStmt(ss.head, st'), Shadow(ss.head, st.names, saved), Shadow(ss.head, st'.names, saved'));
    }
  }

  lemma {:induction false} MonoBlock(ex: set<Site>, x: string, ss: Stmts, st: State, st': State)
    requires AtMost(ex, x, st, st')
    ensures AtMost(ex, x, AwBlock(ss, st), AwBlock(ss, st'))
    decreases ss, 1
  {
    MonoAll(ex, x, ss, st, st', map[], map[]);
  }

  lemma {:induction false} MonoBranch(ex: set<Site>, x: string, c: Expr, body: Stmts, names: set<string>, names': set<string>, out: State, out': State)
    requires (x in names ==> x in names') && AtMost(ex, x, out, out')
    ensures AtMost(ex, x, AwBranch(c, body, names, out), AwBranch(c, body, names', out'))
    decreases body, 2
  {
    var a, a' := State(names, false, out.reports), State(names', false, out'.reports);
    MonoExpr(ex, x, c, a, a');
    MonoBlock(ex, x, body, AwExpr(c, a), AwExpr(c, a'));
  }

  lemma {:induction false} MonoArms(ex: set<Site>, x: string, arms: Arms, names: set<string>, names': set<string>, out: State, out': State)
    requires (x in names ==> x in names') && AtMost(ex, x, out, out')
    ensures AtMost(ex, x, AwArms(arms, names, out), AwArms(arms, names', out'))
    decreases arms
  {
    match arms
    case NoElse =>
    case Else(b) => MonoBranch(ex, x, Leaf, b, names, names', out, out');
    case Arm(c, _, b, rest) =>
      MonoBranch(ex, x, c, b, names, names', out, out');
      MonoArms(ex, x, rest, names, names', AwBranch(c, b, names, out), AwBranch(c, b, names', out'));
  }

  lemma {:induction false} MonoLoop(ex: set<Site>, x: string, body: Stmts, st: State, st': State)
    requires AtMost(ex, x, st, st')
    ensures AtMost(ex, x, AwLoop(body, st), AwLoop(body, st'))
    decreases body, 2
  {
    MonoBlock(ex, x, body, st, st');
    var it, it' := AwBlock(body, st), AwBlock(body, st');
    MonoBlock(ex, x, body, SecondPass(it, st), SecondPass(it', st'));
  }

  // ---------------------------------------------------------------- reports only grow, and expressions forget no await

  lemma {:induction false} ReportsExpr(e: Expr, st: State)
    ensures st.reports <= AwExpr(e, st).reports && st.names <= AwExpr(e, st).names && AwExpr(e, st).dead == st.dead
    decreases e
  {
    match e
    case Await(h, _) => ReportsExpr(h, st);
    case Logical(l, r) => ReportsExpr(l, st); ReportsExpr(r, AwExpr(l, st));
    case Compound(k, es) => ReportsExprs(es, st); if es.ECons? { ReportsExprs(es.tail, st); }
    case _ =>
  }

  lemma {:induction false} ReportsExprs(es: Exprs, st: State)
    ensures st.reports <= AwExprs(es, st).reports && st.names <= AwExprs(es, st).names && AwExprs(es, st).dead == st.dead
    decreases es
  {
    if es.ECons? { ReportsExpr(es.head, st); ReportsExprs(es.tail, AwExpr(es.head, st)); }
  }

  lemma {:induction false} ReportsStmt(s: Stmt, st: State)
    ensures st.reports <= AwStmt(s, st).reports
    decreases s
  {
    if !st.dead {
      match s
      case Decl(_, Value(e)) => ReportsExpr(e, st);
      case Assign(_, _, v) => ReportsExpr(v, st);
      case Return(e) => ReportsExpr(e, st);
      case ExprStmt(e) => ReportsExpr(e, st);
      case Block(ss) => ReportsBlock(ss, st);
      case If(c, body, rest) =>
        ReportsExpr(c, st);
        var st1 := AwExpr(c, st);
        var out := st1.(names := {}, dead := true);
        ReportsBranch(Leaf, body, st1.names, out);
        ReportsArms(rest, st1.names, AwBranch(Leaf, body, st1.names, out));
      case While(c, body) => ReportsExpr(c, st); ReportsLoop(body, AwExpr(c, st));
      case For(_, e, body) => ReportsExpr(e, st); ReportsLoop(body, AwExpr(e, st));
      case Match(e, cases) =>
        ReportsExpr(e, st);
        ReportsArms(cases, AwExpr(e, st).names, AwExpr(e, st).(names := {}, dead := true));
      case _ =>
    }
  }

  lemma {:induction false} ReportsAll(ss: Stmts, st: State, saved: map<string, bool>)
    ensures st.reports <= AwAll(ss, st, saved).0.reports
    decreases ss, 0
  {
    if ss.SCons? {
      ReportsStmt(ss.head, st);
      ReportsAll(ss.tail, AwStmt(ss.head, st), Shadow(ss.head, st.names, saved));
    }
  }

  lemma {:induction false} ReportsBlock(ss: Stmts, st: State)
    ensures st.reports <= AwBlock(ss, st).reports
    decreases ss, 1
  {
    ReportsAll(ss, st, map[]);
  }

  lemma {:induction false} ReportsBranch(c: Expr, body: Stmts, names: set<string>, out: State)
    ensures out.reports <= AwBranch(c, body, names, out).reports
    decreases body, 2
  {
    ReportsExpr(c, State(names, false, out.reports));
    ReportsBlock(body, AwExpr(c, State(names, false, out.reports)));
  }

  lemma {:induction false} ReportsArms(arms: Arms, names: set<string>, out: State)
    ensures out.reports <= AwArms(arms, names, out).reports
    decreases arms
  {
    match arms
    case NoElse =>
    case Else(b) => ReportsBranch(Leaf, b, names, out);
    case Arm(c, _, b, rest) =>
      ReportsBranch(c, b, names, out);
      ReportsArms(rest, names, AwBranch(c, b, names, out));
  }

  lemma {:induction false} ReportsLoop(body: Stmts, st: State)
    ensures st.reports <= AwLoop(body, st).reports
    decreases body, 2
  {
    ReportsBlock(body, st);
    ReportsBlock(body, SecondPass(AwBlock(body, st), st));
  }

  // ---------------------------------------------------------------- two passes suffice

  /** A pass from `names` stays within `names`. */
  ghost predicate Closed(body: Stmts, names: set<string>, reports: set<Site>) {
    AwBlock(body, State(names, false, reports)).names <= names
  }

  /** Whatever else the awaited set holds, a name survives or appears by the same rule. */
  lemma SameFate(x: string, body: Stmts, st: State, st': State)
    requires st.dead == st'.dead && (x in st.names <==> x in st'.names)
    ensures x in AwBlock(body, st).names <==> x in AwBlock(body, st').names
    ensures AwBlock(body, st).dead == AwBlock(body, st').dead
  {
    MonoBlock(st.reports, x, body, st, st');
    MonoBlock(st'.reports, x, body, st', st);
  }

  /** Whether a block always returns does not depend on the awaited set. */
  lemma SameControl(body: Stmts, st: State, st': State)
    requires st.dead == st'.dead
    ensures AwBlock(body, st).dead == AwBlock(body, st').dead
  {
    var none := State({}, st.dead, {});
    MonoBlock(none.reports, "", body, none, st);
    MonoBlock(none.reports, "", body, none, st');
  }

  /** The input of the second pass is a fixpoint: neither pass leads out of it. */
  lemma SecondPassClosed(body: Stmts, st: State)
    requires !st.dead
    ensures var x2 := SecondPass(AwBlock(body, st), st); AwBlock(body, x2).names <= x2.names
  {
    var it := AwBlock(body, st);
    var x2 := SecondPass(it, st);
    forall x | x in AwBlock(body, x2).names
      ensures x in x2.names
    {
      if x !in x2.names { SameFate(x, body, st, x2); }
    }
  }

  /** Two passes suffice, whatever loops the body itself holds. The set the second pass starts
      from contains the entry, is closed under the body, and is the least such set; another pass
      from it leaves the same names and adds no report. */
  lemma TwoPassesSuffice(body: Stmts, st: State)
    requires !st.dead
    ensures var it := AwBlock(body, st);
            var x2 := SecondPass(it, st);
            var it2 := AwBlock(body, x2);
            && st.names <= x2.names && it2.names <= x2.names
            && (forall y: set<string>, r: set<Site> :: st.names <= y && Closed(body, y, r) ==> x2.names <= y)
            && AwBlock(body, x2.(reports := it2.reports)) == it2
            && (!it.dead ==> AwLoop(body, st) == State(x2.names, false, it2.reports))
            && (it.dead ==> AwLoop(body, st) == st.(reports := it2.reports))
  {
    var it := AwBlock(body, st);
    var x2 := SecondPass(it, st);
    var it2 := AwBlock(body, x2);
    SecondPassClosed(body, st);
    forall y: set<string>, r: set<Site> | st.names <= y && Closed(body, y, r)
      ensures x2.names <= y
    {
      forall x | x in it.names
        ensures x in y
      {
        MonoBlock(st.reports, x, body, st, State(y, false, r));
      }
    }
    SameControl(body, st, x2);
    ThirdPass(body, x2);
  }

  /** Running a block again from the same names with its reports known reports nothing new. */
  lemma ThirdPass(body: Stmts, st: State)
    ensures AwBlock(body, st.(reports := AwBlock(body, st).reports)) == AwBlock(body, st)
  {
    var r := AwBlock(body, st);
    var st' := st.(reports := r.reports);
    var r' := AwBlock(body, st');
    ReportsBlock(body, st);
    ReportsBlock(body, st');
    SameControl(body, st, st');
    assert r'.names == r.names by {
      forall x ensures x in r'.names <==> x in r.names { SameFate(x, body, st, st'); }
    }
    forall q | q in r'.reports
      ensures q in r.reports
    {
      MonoBlock(r.reports, q.name, body, st', st);
    }
  }
}
