/**
 Which handle an await is of: the walk goes by the identifier at the root of a place, however many fields and
 indices lie between.
 */
module AwaitPlaces {
  import opened IronCore
  import opened Options
  import opened AwaitOnce
  import opened Programs

  /** A place of any depth: fields and indices around `base`, each with its further operands. */
  function Wrap(base: Expr, ks: seq<Exprs>): Expr {
    if ks == [] then base else Compound(Place, ECons(Wrap(base, ks[1..]), ks[0]))
  }

  /** Not itself a field access or an index. */
  predicate Bare(e: Expr) { !(e.Compound? && e.kind == Place && e.parts.ECons?) }

  predicate AwaitFree(e: Expr)
    decreases e
  {
    match e
    case Leaf => true
    case Ident(_, _) => true
    case Await(_, _) => false
    case Logical(l, r) => AwaitFree(l) && AwaitFree(r)
    case Compound(_, es) => AwaitFreeAll(es)
  }

  predicate AwaitFreeAll(es: Exprs)
    decreases es
  {
    es.ECons? ==> AwaitFree(es.head) && AwaitFreeAll(es.tail)
  }

  predicate OperandsFree(ks: seq<Exprs>) { forall i :: 0 <= i < |ks| ==> AwaitFreeAll(ks[i]) }

  lemma {:induction false} FreeExpr(e: Expr, st: State)
    requires AwaitFree(e)
    ensures AwExpr(e, st) == st
    decreases e
  {
    match e
    case Logical(l, r) => FreeExpr(l, st); FreeExpr(r, st);
    case Compound(_, es) => FreeExprs(es, st); if es.ECons? { FreeExprs(es.tail, st); }
    case _ =>
  }

  lemma {:induction false} FreeExprs(es: Exprs, st: State)
    requires AwaitFreeAll(es)
    ensures AwExprs(es, st) == st
    decreases es
  {
    if es.ECons? { FreeExpr(es.head, st); FreeExprs(es.tail, st); }
  }

  lemma {:induction false} WrapFree(base: Expr, ks: seq<Exprs>)
    requires AwaitFree(base) && OperandsFree(ks)
    ensures AwaitFree(Wrap(base, ks))
    decreases |ks|
  {
    if ks != [] { WrapFree(base, ks[1..]); }
  }

  lemma {:induction false} WrapRoot(base: Expr, ks: seq<Exprs>)
    requires Bare(base)
    ensures RootName(Wrap(base, ks)) == if base.Ident? then Some(base.name) else None
    decreases |ks|
  {
    if ks != [] { WrapRoot(base, ks[1..]); }
  }

  /** Awaiting a place with the identifier `x` at its root notes `x`, and reports it if it was noted before. */
  lemma AwaitPlace(base: Expr, ks: seq<Exprs>, n: nat, st: State)
    requires Bare(base)
    ensures var r := AwExpr(Await(Wrap(base, ks), n), st);
            && st.names <= r.names && st.reports <= r.reports
            && (base.Ident? ==> base.name in r.names && (base.name in st.names ==> Site(base.name, n) in r.reports))
  {
    ReportsExpr(Wrap(base, ks), st);
    WrapRoot(base, ks);
  }

  /** Without awaits among the operands, that is all it does. */
  lemma AwaitPlaceOnly(base: Expr, ks: seq<Exprs>, n: nat, st: State)
    requires Bare(base) && AwaitFree(base) && OperandsFree(ks)
    ensures AwExpr(Await(Wrap(base, ks), n), st)
         == if !base.Ident? then st
            else State(st.names + {base.name}, st.dead, st.reports + if base.name in st.names then {Site(base.name, n)} else {})
  {
    WrapFree(base, ks);
    FreeExpr(Wrap(base, ks), st);
    WrapRoot(base, ks);
  }

  function AwaitOf(base: Expr, ks: seq<Exprs>, n: nat): Stmt { ExprStmt(Await(Wrap(base, ks), n)) }

  lemma BlockOfTwo(s: Stmt, t: Stmt)
    requires s.ExprStmt? && t.ExprStmt?
    ensures AwBlock(Two(s, t), Start()).reports == AwStmt(t, AwStmt(s, Start())).reports
  {
    var st := AwStmt(s, Start());
    assert AwAll(Two(s, t), Start(), map[]) == AwAll(One(t), st, map[]);
    assert AwAll(One(t), st, map[]) == AwAll(SNil, AwStmt(t, st), map[]);
  }

  /** `await p  await q` for any two places with the same identifier at the root, whatever their operands are:
      the second await is reported. */
  lemma SameRootReported(x: string, a: nat, ks: seq<Exprs>, n: nat, b: nat, ls: seq<Exprs>, m: nat)
    ensures Site(x, m) in AwBlock(Two(AwaitOf(Ident(x, a), ks, n), AwaitOf(Ident(x, b), ls, m)), Start()).reports
  {
    var st := AwExpr(Await(Wrap(Ident(x, a), ks), n), Start());
    AwaitPlace(Ident(x, a), ks, n, Start());
    AwaitPlace(Ident(x, b), ls, m, st);
    ReportsExpr(Await(Wrap(Ident(x, a), ks), n), Start());
    BlockOfTwo(AwaitOf(Ident(x, a), ks, n), AwaitOf(Ident(x, b), ls, m));
  }

  /** Exactly: the second of two awaits is reported if and only if both handles have the same identifier at the
      root, and nothing else is. */
  lemma PlacesExact(base: Expr, ks: seq<Exprs>, n: nat, other: Expr, ls: seq<Exprs>, m: nat)
    requires Bare(base) && AwaitFree(base) && OperandsFree(ks) && Bare(other) && AwaitFree(other) && OperandsFree(ls)
    ensures AwBlock(Two(AwaitOf(base, ks, n), AwaitOf(other, ls, m)), Start()).reports
         == if base.Ident? && other.Ident? && base.name == other.name then {Site(base.name, m)} else {}
  {
    AwaitPlaceOnly(base, ks, n, Start());
    AwaitPlaceOnly(other, ls, m, AwExpr(Await(Wrap(base, ks), n), Start()));
    BlockOfTwo(AwaitOf(base, ks, n), AwaitOf(other, ls, m));
  }

  /** A new binding of `x`, or an assignment to it, without awaits. */
  predicate Renews(s: Stmt, x: string) {
    match s
    case Decl(y, i) => y == x && (i.Value? ==> AwaitFree(i.e))
    case Spawn(y) => y == x
    case Assign(target, _, v) => target.Ident? && target.name == x && AwaitFree(v)
    case _ => false
  }

  /** In between it clears the handle: neither await is reported. */
  lemma RenewedNotReported(x: string, a: nat, ks: seq<Exprs>, n: nat, s: Stmt, b: nat, ls: seq<Exprs>, m: nat)
    requires OperandsFree(ks) && OperandsFree(ls) && Renews(s, x)
    ensures AwBlock(SCons(AwaitOf(Ident(x, a), ks, n), Two(s, AwaitOf(Ident(x, b), ls, m))), Start()).reports == {}
  {
    var used := State({x}, false, {});
    AwaitPlaceOnly(Ident(x, a), ks, n, Start());
    assert Start().names + {x} == {x} && Start().reports + {} == {};
    assert AwStmt(AwaitOf(Ident(x, a), ks, n), Start()) == used;
    RenewsClears(s, x);
    AwaitPlaceOnly(Ident(x, b), ls, m, Start());
    var saved := Shadow(s, used.names, map[]);
    var last := AwaitOf(Ident(x, b), ls, m);
    assert AwAll(SCons(AwaitOf(Ident(x, a), ks, n), Two(s, last)), Start(), map[]) == AwAll(Two(s, last), used, map[]);
    assert AwAll(Two(s, last), used, map[]) == AwAll(One(last), Start(), saved);
    assert AwAll(One(last), Start(), saved) == AwAll(SNil, AwStmt(last, Start()), saved);
  }

  lemma RenewsClears(s: Stmt, x: string)
    requires Renews(s, x)
    ensures AwStmt(s, State({x}, false, {})) == Start()
  {
    var used := State({x}, false, {});
    match s
    case Decl(_, Value(e)) => FreeExpr(e, used);
    case Assign(_, _, v) => FreeExpr(v, used);
    case _ =>
  }

  /** An assignment to a place renews nothing. */
  lemma PlaceAssignedStillReported(x: string, a: nat, ks: seq<Exprs>, n: nat, target: Expr, c: bool, v: Expr, b: nat, ls: seq<Exprs>, m: nat)
    requires !target.Ident?
    ensures Site(x, m) in AwBlock(SCons(AwaitOf(Ident(x, a), ks, n), Two(Assign(target, c, v), AwaitOf(Ident(x, b), ls, m))), Start()).reports
  {
    var s, last := Assign(target, c, v), AwaitOf(Ident(x, b), ls, m);
    var st := AwExpr(Await(Wrap(Ident(x, a), ks), n), Start());
    AwaitPlace(Ident(x, a), ks, n, Start());
    ReportsExpr(Await(Wrap(Ident(x, a), ks), n), Start());
    ReportsExpr(v, st);
    var st1 := AwStmt(s, st);
    AwaitPlace(Ident(x, b), ls, m, st1);
    assert AwAll(SCons(AwaitOf(Ident(x, a), ks, n), Two(s, last)), Start(), map[]) == AwAll(Two(s, last), st, map[]);
    assert AwAll(Two(s, last), st, map[]) == AwAll(One(last), st1, map[]);
    assert AwAll(One(last), st1, map[]) == AwAll(SNil, AwStmt(last, st1), map[]);
  }
}
