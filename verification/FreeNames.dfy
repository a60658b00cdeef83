/**
 Captures as free names: what a closure captures, said without scope chains.
 */
module FreeNames {
  import opened Options
  import opened Capture

  /** `node` declares `x` in the scope it stands in. */
  ghost predicate Declares(node: Node, x: string) {
    match node
    case Group(parts) => DeclaresSome(parts, x)
    case Declare(init, names) => Declares(init, x) || x in Names(names)
    case Loop(iterable, _, _) => Declares(iterable, x)
    case _ => false
  }

  ghost predicate DeclaresSome(nodes: Nodes, x: string) { nodes.Cons? && (Declares(nodes.head, x) || DeclaresSome(nodes.tail, x)) }

  /** Some identifier `x` in `node` stands where nothing in `node` has bound `x`. */
  ghost predicate Free(node: Node, x: string) {
    match node
    case Leaf => false
    case Ident(name, _) => name == x
    case Group(parts) => FreeSome(parts, x)
    case Braces(stmts) => FreeSome(stmts, x)
    case Declare(init, _) => Free(init, x)
    case Loop(iterable, names, body) => Free(iterable, x) || (!Declares(iterable, x) && x !in Names(names) && Free(body, x))
    case Case(pattern, names, body) => Free(pattern, x) || (x !in Names(names) && Free(body, x))
    case Lambda(params, body) => x !in Names(params) && Free(body, x)
  }

  /** A declaration binds from its end on. */
  ghost predicate FreeSome(nodes: Nodes, x: string) {
    nodes.Cons? && (Free(nodes.head, x) || (!Declares(nodes.head, x) && FreeSome(nodes.tail, x)))
  }

  lemma PushBinds(chain: Chain, s: Scope, x: string, n: nat)
    requires n <= |chain|
    ensures BoundBelow(chain + [s], x, n) <==> x !in s && BoundBelow(chain, x, n)
  {
    assert (chain + [s])[..|chain|] == chain;
  }

  /** The first binder of a name in a scope is the one that counts, and it can be captured. */
  lemma {:induction false} FirstBinder(s: Scope, bs: seq<Binder>, k: nat)
    requires k < |bs| && forall i :: 0 <= i < k ==> bs[i].name != bs[k].name
    ensures DefineAll(s, bs)[bs[k].name] == if bs[k].name in s then s[bs[k].name] else Sym(bs[k].decl, true)
    decreases |bs|
  {
    if bs[k].name in s {
      DefinedStays(s, bs, bs[k].name);
    } else if k == 0 {
      DefinedStays(Define(s, bs[0]), bs[1..], bs[0].name);
    } else {
      FirstBinder(Define(s, bs[0]), bs[1..], k - 1);
    }
  }

  lemma {:induction false} DefinedStays(s: Scope, bs: seq<Binder>, x: string)
    requires x in s
    ensures DefineAll(s, bs)[x] == s[x]
    decreases |bs|
  {
    if bs != [] { DefinedStays(Define(s, bs[0]), bs[1..], x); }
  }

  /** Behind a node, the names it declared are bound in the current scope. */
  lemma {:induction false} AfterBinds(node: Node, chain: Chain, x: string, n: nat)
    requires n < |chain|
    ensures |After(node, chain)| == |chain|
    ensures BoundBelow(After(node, chain), x, n) <==> !Declares(node, x) && BoundBelow(chain, x, n)
  {
    AfterShape(node, chain);
    match node
    case Group(parts) => AfterAllBinds(parts, chain, x, n);
    case Declare(init, names) =>
      AfterBinds(init, chain, x, n);
      AfterShape(init, chain);
      TopBinds(After(init, chain), names, x, n);
    case Loop(iterable, _, _) => AfterBinds(iterable, chain, x, n);
    case _ =>
  }

  lemma {:induction false} AfterAllBinds(nodes: Nodes, chain: Chain, x: string, n: nat)
    requires n < |chain|
    ensures BoundBelow(AfterAll(nodes, chain), x, n) <==> !DeclaresSome(nodes, x) && BoundBelow(chain, x, n)
  {
    if nodes.Cons? {
      AfterBinds(nodes.head, chain, x, n);
      AfterAllBinds(nodes.tail, After(nodes.head, chain), x, n);
    }
  }

  lemma TopBinds(chain: Chain, names: seq<Binder>, x: string, n: nat)
    requires n < |chain|
    ensures BoundBelow(DefineTop(chain, names), x, n) <==> x !in Names(names) && BoundBelow(chain, x, n)
  {
    var under, top := chain[..|chain| - 1], chain[|chain| - 1];
    assert chain == under + [top];
    PushBinds(under, top, x, n);
    PushBinds(under, DefineAll(top, names), x, n);
  }

  /** What lookup finds outside are the free names that are bound there to a variable or parameter. */
  lemma {:induction false} OutsideFree(node: Node, chain: Chain, n: nat, x: string)
    requires n < |chain| || (node.Lambda? && n == |chain|)
    ensures x in Outside(node, chain, n) <==> Free(node, x) && BoundBelow(chain, x, n)
  {
    match node
    case Leaf =>
    case Ident(name, _) =>
    case Group(parts) => OutsideAllFree(parts, chain, n, x);
    case Braces(stmts) =>
      PushBinds(chain, map[], x, n);
      OutsideAllFree(stmts, chain + [map[]], n, x);
    case Declare(init, _) => OutsideFree(init, chain, n, x);
    case Loop(iterable, names, body) =>
      OutsideFree(iterable, chain, n, x);
      AfterBinds(iterable, chain, x, n);
      PushBinds(After(iterable, chain), DefineAll(map[], names), x, n);
      OutsideFree(body, After(iterable, chain) + [DefineAll(map[], names)], n, x);
    case Case(pattern, names, body) =>
      PushBinds(chain, map[], x, n);
      OutsideFree(pattern, chain + [map[]], n, x);
      PushBinds(chain, DefineAll(map[], names), x, n);
      OutsideFree(body, chain + [DefineAll(map[], names)], n, x);
    case Lambda(params, body) =>
      PushBinds(chain, DefineAll(map[], params), x, n);
      OutsideFree(body, chain + [DefineAll(map[], params)], n, x);
  }

  lemma {:induction false} OutsideAllFree(nodes: Nodes, chain: Chain, n: nat, x: string)
    requires n < |chain|
    ensures x in OutsideAll(nodes, chain, n) <==> FreeSome(nodes, x) && BoundBelow(chain, x, n)
  {
    if nodes.Cons? {
      OutsideFree(nodes.head, chain, n, x);
      AfterBinds(nodes.head, chain, x, n);
      OutsideAllFree(nodes.tail, After(nodes.head, chain), n, x);
    }
  }

  /** `x` is found in the scopes around the closure and denotes a variable or parameter there. */
  ghost predicate BoundAround(outer: Chain, x: string) {
    Lookup(outer, x).Some? && Lookup(outer, x).value.capturable
  }

  /** A closure captures exactly its free names that denote a variable or parameter where it stands. */
  lemma CapturesFree(lambda: Node, outer: Chain, x: string)
    requires lambda.Lambda? && Formed(lambda)
    ensures x in SeenNames(Captures(Resolve(lambda, outer))) <==> Free(lambda, x) && BoundAround(outer, x)
  {
    CapturesAgree(lambda, outer);
    OutsideFree(lambda, outer, |outer|, x);
  }
}
