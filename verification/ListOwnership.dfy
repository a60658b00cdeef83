/**
 List ownership (src/analyzer/list_ownership.c): the syntactic discipline, and what runs of a program
 do to list buffers.
 */
module ListOwnership {
  import opened Options
  import opened ListHeap

  // ---- types

  datatype Type = ScalarT | ListT(elem: Type) | ObjT(fields: seq<Type>)

  /** object_holds_list: looks through at most 17 objects. */
  predicate ObjectHoldsList(t: Type, depth: nat)
    decreases t
  {
    t.ObjT? && depth <= 16 && exists i :: 0 <= i < |t.fields| && (t.fields[i].ListT? || ObjectHoldsList(t.fields[i], depth + 1))
  }

  predicate OwnsList(t: Type) { t.ListT? || ObjectHoldsList(t, 0) }

  /** A value of the type has a list in it. */
  ghost predicate HoldsList(t: Type) {
    t.ListT? || (t.ObjT? && exists i :: 0 <= i < |t.fields| && HoldsList(t.fields[i]))
  }

  /** A value of the type has a list in it, inside at most `n` objects. */
  ghost predicate HoldsWithin(t: Type, n: int)
    decreases t
  {
    t.ListT? || (t.ObjT? && n > 0 && exists i :: 0 <= i < |t.fields| && HoldsWithin(t.fields[i], n - 1))
  }

  lemma {:induction false} ObjectHoldsExact(t: Type, depth: nat)
    ensures t.ListT? || ObjectHoldsList(t, depth) <==> HoldsWithin(t, 17 - depth)
    decreases t
  {
    if t.ObjT? {
      forall i | 0 <= i < |t.fields|
        ensures t.fields[i].ListT? || ObjectHoldsList(t.fields[i], depth + 1) <==> HoldsWithin(t.fields[i], 17 - (depth + 1))
      {
        ObjectHoldsExact(t.fields[i], depth + 1);
      }
    }
  }

  lemma {:induction false} WithinHolds(t: Type, n: int)
    requires HoldsWithin(t, n)
    ensures HoldsList(t)
    decreases t
  {
    if t.ObjT? {
      var i :| 0 <= i < |t.fields| && HoldsWithin(t.fields[i], n - 1);
      WithinHolds(t.fields[i], n - 1);
    }
  }

  /** The test says yes exactly for types with a list inside at most 17 objects. */
  lemma OwnsExact(t: Type)
    ensures OwnsList(t) <==> HoldsWithin(t, 17)
    ensures OwnsList(t) ==> HoldsList(t)
  {
    ObjectHoldsExact(t, 0);
    if OwnsList(t) { WithinHolds(t, 17); }
  }

  /** A list in a value of the type is seen, if there is one. */
  ghost predicate Seen(t: Type) { HoldsList(t) ==> HoldsWithin(t, 17) }

  function Nested(n: nat): Type { if n == 0 then ListT(ScalarT) else ObjT([Nested(n - 1)]) }

  lemma {:induction false} NestedMissed(n: nat, depth: nat)
    requires n + depth > 17 && n > 0
    ensures !ObjectHoldsList(Nested(n), depth) && HoldsList(Nested(n))
    decreases n
  {
    assert HoldsList(Nested(0));
    if n > 1 { NestedMissed(n - 1, depth + 1); }
    assert Nested(n).fields[0] == Nested(n - 1);
  }

  /** A list inside 18 objects is not seen. */
  lemma DeepListMissed()
    ensures HoldsList(Nested(18)) && !OwnsList(Nested(18))
  {
    NestedMissed(18, 0);
  }

  // ---- programs

  datatype Kind = Local | Param | LoopVar | Global

  /** A place, with its static type. */
  datatype Place =
    | Var(x: nat, kind: Kind, t: Type)
    | Field(of: Place, i: nat, t: Type)
    | Index(of: Place, t: Type)

  /** `Construct` is memberwise: without a user init, arguments become fields. */
  datatype Expr =
    | Const
    | Read(place: Place)
    | ListLit(elems: Exprs)
    | Construct(args: Exprs)
    | CopyOf(place: Place)
    | TakeOf(place: Place)
    | Call(f: nat, args: Exprs)

  datatype Exprs = ENone | EMore(first: Expr, rest: Exprs)

  datatype Stmt =
    | Let(x: nat, init: Expr)
    | AssignTo(target: Place, value: Expr)
    | Append(target: Place, value: Expr)
    | Return(value: Expr)
    | Do(value: Expr)
    | Break
    | Continue
    | Block(body: Stmts)
    | If(yes: Stmts, no: Stmts)
    | While(body: Stmts)
    | For(x: nat, over: Place, body: Stmts)

  datatype Stmts = SNone | SMore(first: Stmt, rest: Stmts)

  datatype Fun = Fun(params: seq<nat>, body: Stmts)

  type Program = seq<Fun>

  // ---- the check

  /** is_list_place: a list, or what holds one, that already has an owner. */
  predicate IsListPlace(e: Expr) { e.Read? && OwnsList(e.place.t) }

  /** A new owner receives `e`. */
  function RequireFresh(e: Expr): seq<Expr> { if IsListPlace(e) then [e] else [] }

  /** check_return: a local may be moved out. */
  function CheckReturn(e: Expr): seq<Expr> {
    if e.Read? && e.place.Var? && e.place.kind == Local then [] else RequireFresh(e)
  }

  /** The expressions reported, in walking order. */
  function Offences(e: Expr): seq<Expr> {
    match e
    case ListLit(elems) => EachFresh(elems) + OffencesAll(elems)
    case Construct(args) => EachFresh(args) + OffencesAll(args)
    case Call(_, args) => OffencesAll(args)
    case _ => []
  }

  function OffencesAll(es: Exprs): seq<Expr> {
    if es.ENone? then [] else Offences(es.first) + OffencesAll(es.rest)
  }

  function EachFresh(es: Exprs): seq<Expr> {
    if es.ENone? then [] else RequireFresh(es.first) + EachFresh(es.rest)
  }

  function StmtOffences(s: Stmt): seq<Expr> {
    match s
    case Let(_, init) => RequireFresh(init) + Offences(init)
    case AssignTo(_, value) => RequireFresh(value) + Offences(value)
    case Append(_, value) => RequireFresh(value) + Offences(value)
    case Return(value) => CheckReturn(value) + Offences(value)
    case Do(value) => Offences(value)
    case Break => []
    case Continue => []
    case Block(body) => BodyOffences(body)
    case If(yes, no) => BodyOffences(yes) + BodyOffences(no)
    case While(body) => BodyOffences(body)
    case For(_, _, body) => BodyOffences(body)
  }

  function BodyOffences(ss: Stmts): seq<Expr> {
    if ss.SNone? then [] else StmtOffences(ss.first) + BodyOffences(ss.rest)
  }

  // ---- the discipline it enforces

  /** If the type of a place that is read has a list, it has one within the cap. */
  ghost predicate Shallow(e: Expr) {
    match e
    case Read(place) => Seen(place.t)
    case ListLit(elems) => ShallowAll(elems)
    case Construct(args) => ShallowAll(args)
    case Call(_, args) => ShallowAll(args)
    case _ => true
  }

  ghost predicate ShallowAll(es: Exprs) { es.EMore? ==> Shallow(es.first) && ShallowAll(es.rest) }

  ghost predicate ShallowStmt(s: Stmt) {
    match s
    case Let(_, init) => Shallow(init)
    case AssignTo(_, value) => Shallow(value)
    case Append(_, value) => Shallow(value)
    case Return(value) => Shallow(value)
    case Do(value) => Shallow(value)
    case Break => true
    case Continue => true
    case Block(body) => ShallowBody(body)
    case If(yes, no) => ShallowBody(yes) && ShallowBody(no)
    case While(body) => ShallowBody(body)
    case For(_, _, body) => ShallowBody(body)
  }

  ghost predicate ShallowBody(ss: Stmts) { ss.SMore? ==> ShallowStmt(ss.first) && ShallowBody(ss.rest) }

  /** Whatever gets a new owner is not a place that holds a list. */
  ghost predicate Moves(e: Expr) { !(e.Read? && HoldsList(e.place.t)) }

  ghost predicate Clean(e: Expr) {
    match e
    case ListLit(elems) => CleanAll(elems) && MovesAll(elems)
    case Construct(args) => CleanAll(args) && MovesAll(args)
    case Call(_, args) => CleanAll(args)
    case _ => true
  }

  ghost predicate CleanAll(es: Exprs) { es.EMore? ==> Clean(es.first) && CleanAll(es.rest) }

  ghost predicate MovesAll(es: Exprs) { es.EMore? ==> Moves(es.first) && MovesAll(es.rest) }

  ghost predicate CleanStmt(s: Stmt) {
    match s
    case Let(_, init) => Moves(init) && Clean(init)
    case AssignTo(_, value) => Moves(value) && Clean(value)
    case Append(_, value) => Moves(value) && Clean(value)
    case Return(value) => Clean(value) && (Moves(value) || (value.place.Var? && value.place.kind == Local))
    case Do(value) => Clean(value)
    case Break => true
    case Continue => true
    case Block(body) => CleanBody(body)
    case If(yes, no) => CleanBody(yes) && CleanBody(no)
    case While(body) => CleanBody(body)
    case For(_, _, body) => CleanBody(body)
  }

  ghost predicate CleanBody(ss: Stmts) { ss.SMore? ==> CleanStmt(ss.first) && CleanBody(ss.rest) }

  lemma FreshExact(e: Expr)
    requires Shallow(e)
    ensures RequireFresh(e) == [] <==> Moves(e)
  {
    if e.Read? { OwnsExact(e.place.t); }
  }

  lemma {:induction false} ExprExact(e: Expr)
    requires Shallow(e)
    ensures Offences(e) == [] <==> Clean(e)
  {
    match e
    case ListLit(elems) => ExprsExact(elems);
    case Construct(args) => ExprsExact(args);
    case Call(_, args) => ExprsExact(args);
    case _ =>
  }

  lemma {:induction false} ExprsExact(es: Exprs)
    requires ShallowAll(es)
    ensures OffencesAll(es) == [] <==> CleanAll(es)
    ensures EachFresh(es) == [] <==> MovesAll(es)
  {
    if es.EMore? {
      ExprExact(es.first);
      FreshExact(es.first);
      ExprsExact(es.rest);
    }
  }

  lemma {:induction false} StmtExact(s: Stmt)
    requires ShallowStmt(s)
    ensures StmtOffences(s) == [] <==> CleanStmt(s)
  {
    match s
    case Let(_, e) => ExprExact(e); FreshExact(e);
    case AssignTo(_, e) => ExprExact(e); FreshExact(e);
    case Append(_, e) => ExprExact(e); FreshExact(e);
    case Return(e) => ExprExact(e); FreshExact(e);
    case Do(e) => ExprExact(e);
    case Break =>
    case Continue =>
    case Block(body) => CheckExact(body);
    case If(yes, no) => CheckExact(yes); CheckExact(no);
    case While(body) => CheckExact(body);
    case For(_, _, body) => CheckExact(body);
  }

  /** The check reports nothing exactly when no list that has an owner is given a second one. */
  lemma {:induction false} CheckExact(ss: Stmts)
    requires ShallowBody(ss)
    ensures BodyOffences(ss) == [] <==> CleanBody(ss)
  {
    if ss.SMore? {
      StmtExact(ss.first);
      CheckExact(ss.rest);
    }
  }

  // ---- what is reported, by position

  /** A piece of program. `Given` are operands that become fields or elements, `Owned` one expression that gets a
      new owner: a binding, a place, a field, an element, or the caller it is returned to. */
  datatype Piece =
    | Whole(p: Program)
    | Body(ss: Stmts)
    | Statement(s: Stmt)
    | Value(e: Expr)
    | Operands(es: Exprs)
    | Given(es: Exprs)
    | Owned(e: Expr, returned: bool)

  /** The pieces a piece consists of, in program order. */
  function Parts(c: Piece): seq<Piece> {
    match c
    case Whole(p) => seq(|p|, k requires 0 <= k < |p| => Body(p[k].body))
    case Body(SMore(s, rest)) => [Statement(s), Body(rest)]
    case Statement(Let(_, e)) => [Owned(e, false), Value(e)]
    case Statement(AssignTo(_, e)) => [Owned(e, false), Value(e)]
    case Statement(Append(_, e)) => [Owned(e, false), Value(e)]
    case Statement(Return(e)) => [Owned(e, true), Value(e)]
    case Statement(Do(e)) => [Value(e)]
    case Statement(Block(b)) => [Body(b)]
    case Statement(If(yes, no)) => [Body(yes), Body(no)]
    case Statement(While(b)) => [Body(b)]
    case Statement(For(_, _, b)) => [Body(b)]
    case Value(ListLit(es)) => [Given(es), Operands(es)]
    case Value(Construct(es)) => [Given(es), Operands(es)]
    case Value(Call(_, es)) => [Operands(es)]
    case Operands(EMore(e, rest)) => [Value(e), Operands(rest)]
    case Given(EMore(e, rest)) => [Owned(e, false), Given(rest)]
    case _ => []
  }

  /** A position: which part to take at each step. */
  type Pos = seq<nat>

  function PieceAt(c: Piece, p: Pos): Option<Piece>
    decreases |p|
  {
    if p == [] then Some(c) else if p[0] < |Parts(c)| then PieceAt(Parts(c)[p[0]], p[1..]) else None
  }

  /** Earlier in the program. */
  predicate Earlier(p: Pos, q: Pos)
    decreases |p|
  {
    q != [] && (p == [] || p[0] < q[0] || (p[0] == q[0] && Earlier(p[1..], q[1..])))
  }

  /** A place with a list inside at most 17 objects gets a new owner, and it is no local that is returned. */
  ghost predicate Duplicates(c: Option<Piece>) {
    match c
    case Some(Owned(Read(place), returned)) => HoldsWithin(place.t, 17) && !(returned && place.Var? && place.kind == Local)
    case _ => false
  }

  ghost predicate Finds(c: Piece, p: Pos, e: Expr) { Duplicates(PieceAt(c, p)) && PieceAt(c, p).value.e == e }

  ghost predicate Ascending(ps: seq<Pos>) { forall i, j :: 0 <= i < j < |ps| ==> Earlier(ps[i], ps[j]) }

  /** `ps` are the positions in `c` where a list is duplicated, each once and in order, and `es` are the expressions
      that stand there. */
  ghost predicate Lists(c: Piece, ps: seq<Pos>, es: seq<Expr>) {
    && |ps| == |es|
    && Ascending(ps)
    && (forall i :: 0 <= i < |ps| ==> Finds(c, ps[i], es[i]))
    && (forall p :: Duplicates(PieceAt(c, p)) ==> p in ps)
  }

  /** The positions of a part, seen from the whole. */
  function Under(k: nat, ps: seq<Pos>): (r: seq<Pos>) {
    seq(|ps|, i requires 0 <= i < |ps| => [k] + ps[i])
  }

  /** The first `n` parts of `c` list `es` at `ps`. */
  ghost predicate ListsParts(c: Piece, n: nat, ps: seq<Pos>, es: seq<Expr>) {
    && n <= |Parts(c)| && |ps| == |es|
    && Ascending(ps)
    && (forall i :: 0 <= i < |ps| ==> ps[i] != [] && ps[i][0] < n && Finds(c, ps[i], es[i]))
    && (forall p :: Duplicates(PieceAt(c, p)) && p != [] && p[0] < n ==> p in ps)
  }

  /** Part `n` alone. */
  ghost predicate ListsPart(c: Piece, n: nat, ps: seq<Pos>, es: seq<Expr>) {
    && |ps| == |es|
    && Ascending(ps)
    && (forall i :: 0 <= i < |ps| ==> ps[i] != [] && ps[i][0] == n && Finds(c, ps[i], es[i]))
    && (forall p :: Duplicates(PieceAt(c, p)) && p != [] && p[0] == n ==> p in ps)
  }

  lemma PartUnder(c: Piece, n: nat, qs: seq<Pos>, fs: seq<Expr>)
    requires n < |Parts(c)| && Lists(Parts(c)[n], qs, fs)
    ensures ListsPart(c, n, Under(n, qs), fs)
  {
    var part, under := Parts(c)[n], Under(n, qs);
    forall i | 0 <= i < |qs|
      ensures under[i][0] == n && PieceAt(c, under[i]) == PieceAt(part, qs[i])
    {
      assert under[i][1..] == qs[i];
    }
    forall i, j | 0 <= i < j < |qs|
      ensures Earlier(under[i], under[j])
    {
      assert under[i][1..] == qs[i] && under[j][1..] == qs[j];
    }
    forall p | Duplicates(PieceAt(c, p)) && p != [] && p[0] == n
      ensures p in under
    {
      assert PieceAt(c, p) == PieceAt(part, p[1..]);
      var i :| 0 <= i < |qs| && qs[i] == p[1..];
      assert under[i] == p;
    }
  }

  lemma NextPart(c: Piece, n: nat, ps: seq<Pos>, es: seq<Expr>, qs: seq<Pos>, fs: seq<Expr>)
    requires n < |Parts(c)| && ListsParts(c, n, ps, es) && Lists(Parts(c)[n], qs, fs)
    ensures ListsParts(c, n + 1, ps + Under(n, qs), es + fs)
  {
    PartUnder(c, n, qs, fs);
    MoreParts(c, n, ps, es, Under(n, qs), fs);
  }

  lemma MoreParts(c: Piece, n: nat, ps: seq<Pos>, es: seq<Expr>, qs: seq<Pos>, fs: seq<Expr>)
    requires n < |Parts(c)| && ListsParts(c, n, ps, es) && ListsPart(c, n, qs, fs)
    ensures ListsParts(c, n + 1, ps + qs, es + fs)
  {
    InOrder(n, ps, qs);
    var all := ps + qs;
    forall i | 0 <= i < |all|
      ensures all[i] != [] && all[i][0] < n + 1 && Finds(c, all[i], (es + fs)[i])
    {
      if i < |ps| { assert Finds(c, ps[i], es[i]); } else { assert Finds(c, qs[i - |ps|], fs[i - |ps|]); }
    }
    forall p | Duplicates(PieceAt(c, p)) && p != [] && p[0] < n + 1
      ensures p in all
    {
      if p[0] < n { assert p in ps; } else { assert p in qs; }
    }
  }

  lemma InOrder(n: nat, ps: seq<Pos>, qs: seq<Pos>)
    requires Ascending(ps) && Ascending(qs)
    requires (forall i :: 0 <= i < |ps| ==> ps[i] != [] && ps[i][0] < n) && forall i :: 0 <= i < |qs| ==> qs[i] != [] && qs[i][0] == n
    ensures Ascending(ps + qs)
  {
    var all := ps + qs;
    forall i, j | 0 <= i < j < |all|
      ensures Earlier(all[i], all[j])
    {
      if i < |ps| <= j { assert ps[i][0] < n == qs[j - |ps|][0]; }
    }
  }

  lemma AllParts(c: Piece, ps: seq<Pos>, es: seq<Expr>)
    requires !c.Owned? && ListsParts(c, |Parts(c)|, ps, es)
    ensures Lists(c, ps, es)
  {
  }

  lemma NoParts(c: Piece)
    ensures ListsParts(c, 0, [], [])
  {
  }

  lemma OnePart(c: Piece, ps: seq<Pos>, es: seq<Expr>) returns (qs: seq<Pos>)
    requires !c.Owned? && |Parts(c)| == 1 && Lists(Parts(c)[0], ps, es)
    ensures Lists(c, qs, es)
  {
    NoParts(c);
    NextPart(c, 0, [], [], ps, es);
    qs := [] + Under(0, ps);
    assert [] + es == es;
    AllParts(c, qs, es);
  }

  lemma TwoParts(c: Piece, ps: seq<Pos>, es: seq<Expr>, qs: seq<Pos>, fs: seq<Expr>) returns (rs: seq<Pos>)
    requires !c.Owned? && |Parts(c)| == 2 && Lists(Parts(c)[0], ps, es) && Lists(Parts(c)[1], qs, fs)
    ensures Lists(c, rs, es + fs)
  {
    NoParts(c);
    NextPart(c, 0, [], [], ps, es);
    assert [] + es == es;
    NextPart(c, 1, [] + Under(0, ps), es, qs, fs);
    rs := [] + Under(0, ps) + Under(1, qs);
    AllParts(c, rs, es + fs);
  }

  lemma OwnedListed(e: Expr, returned: bool) returns (ps: seq<Pos>)
    ensures Lists(Owned(e, returned), ps, if returned then CheckReturn(e) else RequireFresh(e))
  {
    var c := Owned(e, returned);
    if e.Read? { OwnsExact(e.place.t); }
    assert Parts(c) == [];
    ps := if Duplicates(Some(c)) then [[]] else [];
  }

  lemma {:induction false} GivenListed(es: Exprs) returns (ps: seq<Pos>)
    ensures Lists(Given(es), ps, EachFresh(es))
  {
    var c := Given(es);
    if es.ENone? {
      ps := [];
      NoParts(c);
      AllParts(c, [], []);
    } else {
      var first := OwnedListed(es.first, false);
      var rest := GivenListed(es.rest);
      ps := TwoParts(c, first, RequireFresh(es.first), rest, EachFresh(es.rest));
    }
  }

  lemma {:induction false} ValueListed(e: Expr) returns (ps: seq<Pos>)
    ensures Lists(Value(e), ps, Offences(e))
  {
    var c := Value(e);
    match e
    case ListLit(es) =>
      var given := GivenListed(es);
      var rest := OperandsListed(es);
      ps := TwoParts(c, given, EachFresh(es), rest, OffencesAll(es));
    case Construct(es) =>
      var given := GivenListed(es);
      var rest := OperandsListed(es);
      ps := TwoParts(c, given, EachFresh(es), rest, OffencesAll(es));
    case Call(_, es) =>
      var rest := OperandsListed(es);
      ps := OnePart(c, rest, OffencesAll(es));
    case _ =>
      ps := [];
      NoParts(c);
      AllParts(c, [], []);
  }

  lemma {:induction false} OperandsListed(es: Exprs) returns (ps: seq<Pos>)
    ensures Lists(Operands(es), ps, OffencesAll(es))
  {
    var c := Operands(es);
    if es.ENone? {
      ps := [];
      NoParts(c);
      AllParts(c, [], []);
    } else {
      var first := ValueListed(es.first);
      var rest := OperandsListed(es.rest);
      ps := TwoParts(c, first, Offences(es.first), rest, OffencesAll(es.rest));
    }
  }

  lemma OwningListed(s: Stmt, e: Expr, returned: bool) returns (ps: seq<Pos>)
    requires Parts(Statement(s)) == [Owned(e, returned), Value(e)]
    ensures Lists(Statement(s), ps, (if returned then CheckReturn(e) else RequireFresh(e)) + Offences(e))
  {
    var first := OwnedListed(e, returned);
    var rest := ValueListed(e);
    ps := TwoParts(Statement(s), first, if returned then CheckReturn(e) else RequireFresh(e), rest, Offences(e));
  }

  lemma {:induction false} StatementListed(s: Stmt) returns (ps: seq<Pos>)
    ensures Lists(Statement(s), ps, StmtOffences(s))
    decreases s
  {
    var c := Statement(s);
    match s
    case Let(_, e) => ps := OwningListed(s, e, false);
    case AssignTo(_, e) => ps := OwningListed(s, e, false);
    case Append(_, e) => ps := OwningListed(s, e, false);
    case Return(e) => ps := OwningListed(s, e, true);
    case Do(e) =>
      var rest := ValueListed(e);
      ps := OnePart(c, rest, Offences(e));
    case Break =>
      ps := [];
      NoParts(c);
      AllParts(c, [], []);
    case Continue =>
      ps := [];
      NoParts(c);
      AllParts(c, [], []);
    case If(yes, no) =>
      var a := BodyListed(yes);
      var b := BodyListed(no);
      ps := TwoParts(c, a, BodyOffences(yes), b, BodyOffences(no));
    case Block(b) =>
      var a := BodyListed(b);
      ps := OnePart(c, a, BodyOffences(b));
    case While(b) =>
      var a := BodyListed(b);
      ps := OnePart(c, a, BodyOffences(b));
    case For(_, _, b) =>
      var a := BodyListed(b);
      ps := OnePart(c, a, BodyOffences(b));
  }

  /** The reports for a body are exactly the duplications in it, each once, in program order. */
  lemma {:induction false} BodyListed(ss: Stmts) returns (ps: seq<Pos>)
    ensures Lists(Body(ss), ps, BodyOffences(ss))
    decreases ss
  {
    var c := Body(ss);
    if ss.SNone? {
      ps := [];
      NoParts(c);
      AllParts(c, [], []);
    } else {
      var first := StatementListed(ss.first);
      var rest := BodyListed(ss.rest);
      ps := TwoParts(c, first, StmtOffences(ss.first), rest, BodyOffences(ss.rest));
    }
  }

  /** The pass itself: a walk that appends to the diagnostics. */
  class Checker {
    var reports: seq<Expr>

    constructor ()
      ensures reports == []
    {
      reports := [];
    }

    method Fresh(e: Expr)
      modifies this
      ensures reports == old(reports) + RequireFresh(e)
    {
      if IsListPlace(e) { reports := reports + [e]; }
    }

    method FreshAll(es: Exprs)
      modifies this
      ensures reports == old(reports) + EachFresh(es)
    {
      if es.EMore? {
        Fresh(es.first);
        FreshAll(es.rest);
      }
    }

    method VisitExpr(e: Expr)
      modifies this
      ensures reports == old(reports) + Offences(e)
    {
      match e
      case ListLit(elems) => FreshAll(elems); VisitExprs(elems);
      case Construct(args) => FreshAll(args); VisitExprs(args);
      case Call(_, args) => VisitExprs(args);
      case _ =>
    }

    method VisitExprs(es: Exprs)
      modifies this
      ensures reports == old(reports) + OffencesAll(es)
    {
      if es.EMore? {
        VisitExpr(es.first);
        VisitExprs(es.rest);
      }
    }

    /** An expression that gets a new owner. */
    method VisitOwned(e: Expr)
      modifies this
      ensures reports == old(reports) + (RequireFresh(e) + Offences(e))
    {
      Fresh(e);
      VisitExpr(e);
    }

    method VisitReturned(e: Expr)
      modifies this
      ensures reports == old(reports) + (CheckReturn(e) + Offences(e))
    {
      if !(e.Read? && e.place.Var? && e.place.kind == Local) { Fresh(e); }
      VisitExpr(e);
    }

    method Visit(s: Stmt)
      modifies this
      ensures reports == old(reports) + StmtOffences(s)
      decreases s, 2
    {
      match s
      case Let(_, e) => VisitOwned(e);
      case AssignTo(_, e) => VisitOwned(e);
      case Append(_, e) => VisitOwned(e);
      case Return(e) => VisitReturned(e);
      case Do(e) => VisitExpr(e);
      case Break =>
      case Continue =>
      case Block(body) => VisitAll(body);
      case If(_, _) => VisitBoth(s);
      case While(body) => VisitAll(body);
      case For(_, _, body) => VisitAll(body);
    }

    method VisitBoth(s: Stmt)
      requires s.If?
      modifies this
      ensures reports == old(reports) + (BodyOffences(s.yes) + BodyOffences(s.no))
      decreases s, 1
    {
      VisitAll(s.yes);
      VisitAll(s.no);
    }

    method VisitAll(ss: Stmts)
      modifies this
      ensures reports == old(reports) + BodyOffences(ss)
    {
      if ss.SMore? {
        Visit(ss.first);
        VisitAll(ss.rest);
      }
    }
  }

  /** The reports for the first `n` functions. */
  function FunOffences(p: Program, n: nat): seq<Expr>
    requires n <= |p|
  {
    if n == 0 then [] else FunOffences(p, n - 1) + BodyOffences(p[n - 1].body)
  }

  lemma {:induction false} FunsListed(p: Program, n: nat) returns (ps: seq<Pos>)
    requires n <= |p|
    ensures ListsParts(Whole(p), n, ps, FunOffences(p, n))
    decreases n
  {
    ps := [];
    if n == 0 {
      NoParts(Whole(p));
    } else {
      var before := FunsListed(p, n - 1);
      var body := BodyListed(p[n - 1].body);
      NextPart(Whole(p), n - 1, before, FunOffences(p, n - 1), body, BodyOffences(p[n - 1].body));
      ps := before + Under(n - 1, body);
    }
  }

  lemma {:induction false} FunsClean(p: Program, n: nat)
    requires n <= |p| && forall k :: 0 <= k < |p| ==> ShallowBody(p[k].body)
    ensures FunOffences(p, n) == [] <==> forall k :: 0 <= k < n ==> CleanBody(p[k].body)
    decreases n
  {
    if n > 0 {
      FunsClean(p, n - 1);
      CheckExact(p[n - 1].body);
    }
  }

  /** iron_list_ownership_check: exactly the places with a list that get a new owner are reported, each once, in
      program order; so nothing is reported if and only if no list is duplicated. */
  method Check(p: Program) returns (reports: seq<Expr>)
    ensures exists ps :: Lists(Whole(p), ps, reports)
    ensures (forall k :: 0 <= k < |p| ==> ShallowBody(p[k].body)) ==>
              (reports == [] <==> forall k :: 0 <= k < |p| ==> CleanBody(p[k].body))
  {
    var c := new Checker();
    for k := 0 to |p|
      invariant c.reports == FunOffences(p, k)
    {
      c.VisitAll(p[k].body);
    }
    reports := c.reports;
    ghost var ps := FunsListed(p, |p|);
    AllParts(Whole(p), ps, reports);
    if forall k :: 0 <= k < |p| ==> ShallowBody(p[k].body) { FunsClean(p, |p|); }
  }
}
