/**
 Capture sets of closures (src/analyzer/capture.c) against the scope chain of name resolution
 (src/analyzer/resolve.c, src/analyzer/scope.c).
 */
module Capture {
  import opened Options

  /** A resolved symbol: its declaration, and whether it is a variable or parameter that is not extern. */
  datatype Sym = Sym(decl: nat, capturable: bool)

  type Scope = map<string, Sym>

  /** Scopes from the outermost to the current one. */
  type Chain = seq<Scope>

  datatype Binder = Binder(name: string, decl: nat)

  /** The shapes name resolution and the capture walk distinguish. A group is any other node: its
      parts are visited in order. `sym` is what resolution leaves on an identifier. */
  datatype Node =
    | Leaf
    | Ident(name: string, sym: Option<Sym>)
    | Group(parts: Nodes)
    | Braces(stmts: Nodes)
    | Declare(init: Node, names: seq<Binder>)
    | Loop(iterable: Node, names: seq<Binder>, body: Node)
    | Case(pattern: Node, names: seq<Binder>, body: Node)
    | Lambda(params: seq<Binder>, body: Node)

  datatype Nodes = Nil | Cons(head: Node, tail: Nodes)

  // ---- scopes

  /** iron_scope_define: a second definition of a name in one scope is refused. */
  function Define(s: Scope, b: Binder): Scope {
    if b.name in s then s else s[b.name := Sym(b.decl, true)]
  }

  function DefineAll(s: Scope, bs: seq<Binder>): (r: Scope)
    ensures r.Keys == s.Keys + Names(bs)
    decreases |bs|
  {
    if bs == [] then s else DefineAll(Define(s, bs[0]), bs[1..])
  }

  function Names(bs: seq<Binder>): set<string> {
    set i | 0 <= i < |bs| :: bs[i].name
  }

  /** The innermost scope that has the name. */
  function Where(chain: Chain, name: string): (r: Option<nat>)
    ensures r.Some? ==> r.value < |chain| && name in chain[r.value]
    ensures forall i :: (if r.Some? then r.value else -1) < i < |chain| ==> name !in chain[i]
  {
    if chain == [] then None
    else if name in chain[|chain| - 1] then Some(|chain| - 1)
    else Where(chain[..|chain| - 1], name)
  }

  /** iron_scope_lookup */
  function Lookup(chain: Chain, name: string): Option<Sym> {
    match Where(chain, name)
    case None => None
    case Some(i) => Some(chain[i][name])
  }

  function DefineTop(chain: Chain, bs: seq<Binder>): Chain {
    if chain == [] then [] else chain[..|chain| - 1] + [DefineAll(chain[|chain| - 1], bs)]
  }

  /** Names bound in the scopes from `n` on. */
  function NamesFrom(chain: Chain, n: nat): set<string> {
    set i, x | n <= i < |chain| && x in chain[i] :: x
  }

  // ---- resolution

  /** The chain after a node: only declarations change it, in the current scope. */
  function After(node: Node, chain: Chain): Chain {
    match node
    case Group(parts) => AfterAll(parts, chain)
    case Declare(init, names) => DefineTop(After(init, chain), names)
    case Loop(iterable, _, _) => After(iterable, chain)
    case _ => chain
  }

  function AfterAll(nodes: Nodes, chain: Chain): Chain {
    match nodes
    case Nil => chain
    case Cons(head, tail) => AfterAll(tail, After(head, chain))
  }

  /** resolve_node: each identifier gets the symbol the chain has for it at that point. */
  function Resolve(node: Node, chain: Chain): Node {
    match node
    case Leaf => Node.Leaf
    case Ident(name, _) => Node.Ident(name, Lookup(chain, name))
    case Group(parts) => Group(ResolveAll(parts, chain))
    case Braces(stmts) => Braces(ResolveAll(stmts, chain + [map[]]))
    case Declare(init, names) => Node.Declare(Resolve(init, chain), names)
    case Loop(iterable, names, body) =>
      Loop(Resolve(iterable, chain), names, Resolve(body, After(iterable, chain) + [DefineAll(map[], names)]))
    case Case(pattern, names, body) =>
      Case(Resolve(pattern, chain + [map[]]), names, Resolve(body, chain + [DefineAll(map[], names)]))
    case Lambda(params, body) => Lambda(params, Resolve(body, chain + [DefineAll(map[], params)]))
  }

  function ResolveAll(nodes: Nodes, chain: Chain): Nodes {
    match nodes
    case Nil => Nil
    case Cons(head, tail) => Cons(Resolve(head, chain), ResolveAll(tail, After(head, chain)))
  }

  /** Identifier `name`, met with this chain, denotes a variable or parameter bound below depth `n`. */
  predicate BoundBelow(chain: Chain, name: string, n: nat) {
    var w := Where(chain, name);
    w.Some? && w.value < n && chain[w.value][name].capturable
  }

  /** The names of the identifiers in `node`, nested closures included, whose lookup finds a variable
      or parameter bound below depth `n`. */
  function Outside(node: Node, chain: Chain, n: nat): set<string> {
    match node
    case Leaf => {}
    case Ident(name, _) => if BoundBelow(chain, name, n) then {name} else {}
    case Group(parts) => OutsideAll(parts, chain, n)
    case Braces(stmts) => OutsideAll(stmts, chain + [map[]], n)
    case Declare(init, _) => Outside(init, chain, n)
    case Loop(iterable, names, body) =>
      Outside(iterable, chain, n) + Outside(body, After(iterable, chain) + [DefineAll(map[], names)], n)
    case Case(pattern, names, body) =>
      Outside(pattern, chain + [map[]], n) + Outside(body, chain + [DefineAll(map[], names)], n)
    case Lambda(params, body) => Outside(body, chain + [DefineAll(map[], params)], n)
  }

  function OutsideAll(nodes: Nodes, chain: Chain, n: nat): set<string> {
    match nodes
    case Nil => {}
    case Cons(head, tail) => Outside(head, chain, n) + OutsideAll(tail, After(head, chain), n)
  }

  // ---- the capture walk

  /** One recorded capture: the name and the symbol of the occurrence that recorded it. */
  datatype Entry = Entry(name: string, sym: Sym)

  /** `locals` is the running name set; captures are kept in order of first use. */
  datatype Walk = Walk(locals: set<string>, captures: seq<Entry>)

  function SeenNames(es: seq<Entry>): set<string> {
    set i | 0 <= i < |es| :: es[i].name
  }

  function Record(w: Walk, e: Entry): Walk {
    if e.name in w.locals || e.name in SeenNames(w.captures) then w else w.(captures := w.captures + [e])
  }

  function RecordAll(w: Walk, es: seq<Entry>): Walk
    decreases |es|
  {
    if es == [] then w else RecordAll(Record(w, es[0]), es[1..])
  }

  /** collect_idents, on resolved nodes */
  function Collect(node: Node, w: Walk): Walk
    decreases node, 0
  {
    match node
    case Leaf => w
    case Ident(name, sym) => if sym.Some? && sym.value.capturable then Record(w, Entry(name, sym.value)) else w
    case Group(parts) => CollectAll(parts, w)
    case Braces(stmts) => CollectAll(stmts, w).(locals := w.locals)
    case Declare(init, names) =>
      var after := Collect(init, w);
      after.(locals := after.locals + Names(names))
    case Loop(iterable, names, body) =>
      var before := Collect(iterable, w);
      Collect(body, before.(locals := before.locals + Names(names))).(locals := before.locals)
    case Case(pattern, names, body) =>
      var before := Collect(pattern, w);
      Collect(body, before.(locals := before.locals + Names(names))).(locals := before.locals)
    case Lambda(_, _) => RecordAll(w, Captures(node))
  }

  function CollectAll(nodes: Nodes, w: Walk): Walk {
    match nodes
    case Nil => w
    case Cons(head, tail) => CollectAll(tail, Collect(head, w))
  }

  /** find_captures */
  function Captures(lambda: Node): seq<Entry>
    requires lambda.Lambda?
    decreases lambda.body, 1
  {
    Collect(lambda.body, Walk(Names(lambda.params), [])).captures
  }

  // ---- the two agree

  /** The node declares nothing in the current scope, as no expression does. */
  predicate Plain(node: Node) {
    match node
    case Group(parts) => PlainAll(parts)
    case Declare(_, _) => false
    case Loop(iterable, _, _) => Plain(iterable)
    case _ => true
  }

  predicate PlainAll(nodes: Nodes) {
    nodes.Cons? ==> Plain(nodes.head) && PlainAll(nodes.tail)
  }

  /** Patterns are expressions. */
  predicate Formed(node: Node) {
    match node
    case Leaf => true
    case Ident(_, _) => true
    case Group(parts) => FormedAll(parts)
    case Braces(stmts) => FormedAll(stmts)
    case Declare(init, _) => Formed(init)
    case Loop(iterable, _, body) => Formed(iterable) && Formed(body)
    case Case(pattern, _, body) => Formed(pattern) && Plain(pattern) && Formed(body)
    case Lambda(_, body) => Formed(body)
  }

  predicate FormedAll(nodes: Nodes) {
    nodes.Cons? ==> Formed(nodes.head) && FormedAll(nodes.tail)
  }

  lemma {:induction false} AfterShape(node: Node, chain: Chain)
    requires chain != []
    ensures |After(node, chain)| == |chain| && After(node, chain)[..|chain| - 1] == chain[..|chain| - 1]
    ensures Plain(node) ==> After(node, chain) == chain
  {
    match node
    case Group(parts) => AfterAllShape(parts, chain);
    case Declare(init, _) => AfterShape(init, chain);
    case Loop(iterable, _, _) => AfterShape(iterable, chain);
    case _ =>
  }

  lemma {:induction false} AfterAllShape(nodes: Nodes, chain: Chain)
    requires chain != []
    ensures |AfterAll(nodes, chain)| == |chain| && AfterAll(nodes, chain)[..|chain| - 1] == chain[..|chain| - 1]
    ensures PlainAll(nodes) ==> AfterAll(nodes, chain) == chain
  {
    if nodes.Cons? {
      AfterShape(nodes.head, chain);
      AfterAllShape(nodes.tail, After(nodes.head, chain));
    }
  }

  lemma Prefix(chain: Chain, chain': Chain, n: nat)
    requires n < |chain| == |chain'| && chain[..|chain| - 1] == chain'[..|chain| - 1]
    ensures chain[..n] == chain'[..n]
  {
  }

  lemma NamesPush(chain: Chain, n: nat, s: Scope)
    requires n <= |chain|
    ensures NamesFrom(chain + [s], n) == NamesFrom(chain, n) + s.Keys
  {
    var all := chain + [s];
    forall x | x in NamesFrom(chain, n) + s.Keys
      ensures x in NamesFrom(all, n)
    {
      if x in s { assert x in all[|chain|]; } else {
        var i :| n <= i < |chain| && x in chain[i];
        assert x in all[i];
      }
    }
  }

  lemma NamesDefine(chain: Chain, n: nat, bs: seq<Binder>)
    requires n < |chain|
    ensures NamesFrom(DefineTop(chain, bs), n) == NamesFrom(chain, n) + Names(bs)
  {
  }

  /** A name no scope from `n` on binds is looked up among the first `n`. */
  lemma WhereBelow(chain: Chain, name: string, n: nat)
    requires n <= |chain|
    ensures name !in NamesFrom(chain, n) ==> Where(chain, name) == Where(chain[..n], name)
    ensures name in NamesFrom(chain, n) ==> Where(chain, name).Some? && Where(chain, name).value >= n
    decreases |chain|
  {
  }

  lemma BoundBelowIff(chain: Chain, name: string, n: nat)
    requires n <= |chain|
    ensures BoundBelow(chain, name, n) <==>
              name !in NamesFrom(chain, n) && Lookup(chain[..n], name).Some? && Lookup(chain[..n], name).value.capturable
    ensures name !in NamesFrom(chain, n) ==> Lookup(chain, name) == Lookup(chain[..n], name)
  {
  }

  /** Bindings between two depths are what separates the names from outside the one and the other. */
  lemma {:induction false} OutsideSplit(node: Node, chain: Chain, n: nat, m: nat)
    requires n <= m < |chain|
    ensures Outside(node, chain, n) == set x | x in Outside(node, chain, m) && x !in NamesFrom(chain[..m], n)
  {
    match node
    case Leaf =>
    case Ident(name, _) =>
      WhereBelow(chain, name, m);
      WhereBelow(chain, name, n);
      WhereBelow(chain[..m], name, n);
      assert chain[..m][..n] == chain[..n];
    case Group(parts) => OutsideAllSplit(parts, chain, n, m);
    case Braces(stmts) =>
      assert (chain + [map[]])[..m] == chain[..m];
      OutsideAllSplit(stmts, chain + [map[]], n, m);
    case Declare(init, _) => OutsideSplit(init, chain, n, m);
    case Loop(iterable, names, body) =>
      OutsideSplit(iterable, chain, n, m);
      AfterShape(iterable, chain);
      Prefix(chain, After(iterable, chain), m);
      var inner := After(iterable, chain) + [DefineAll(map[], names)];
      assert inner[..m] == After(iterable, chain)[..m];
      OutsideSplit(body, inner, n, m);
    case Case(pattern, names, body) =>
      assert (chain + [map[]])[..m] == chain[..m];
      OutsideSplit(pattern, chain + [map[]], n, m);
      var inner := chain + [DefineAll(map[], names)];
      assert inner[..m] == chain[..m];
      OutsideSplit(body, inner, n, m);
    case Lambda(params, body) =>
      var inner := chain + [DefineAll(map[], params)];
      assert inner[..m] == chain[..m];
      OutsideSplit(body, inner, n, m);
  }

  lemma {:induction false} OutsideAllSplit(nodes: Nodes, chain: Chain, n: nat, m: nat)
    requires n <= m < |chain|
    ensures OutsideAll(nodes, chain, n) == set x | x in OutsideAll(nodes, chain, m) && x !in NamesFrom(chain[..m], n)
  {
    if nodes.Cons? {
      OutsideSplit(nodes.head, chain, n, m);
      AfterShape(nodes.head, chain);
      Prefix(chain, After(nodes.head, chain), m);
      OutsideAllSplit(nodes.tail, After(nodes.head, chain), n, m);
    }
  }

  /** Each entry carries the symbol its name has in the chain outside, and no name comes twice. */
  ghost predicate EntriesRight(es: seq<Entry>, outer: Chain) {
    && (forall i :: 0 <= i < |es| ==> Lookup(outer, es[i].name) == Some(es[i].sym))
    && (forall i, j :: 0 <= i < j < |es| ==> es[i].name != es[j].name)
  }

  /** What the walk has recorded and what the chain says, at one point of the body of a closure at
      depth `n`. */
  ghost predicate Agrees(w: Walk, chain: Chain, n: nat) {
    n < |chain| && w.locals == NamesFrom(chain, n) && EntriesRight(w.captures, chain[..n])
  }

  lemma RecordOne(w: Walk, e: Entry, outer: Chain)
    requires EntriesRight(w.captures, outer) && (e.name !in w.locals ==> Lookup(outer, e.name) == Some(e.sym))
    ensures Record(w, e).locals == w.locals && EntriesRight(Record(w, e).captures, outer)
    ensures SeenNames(Record(w, e).captures) == SeenNames(w.captures) + (if e.name in w.locals then {} else {e.name})
  {
    var es := w.captures + [e];
    assert forall i :: 0 <= i < |w.captures| ==> w.captures[i].name in SeenNames(w.captures) && es[i] == w.captures[i];
    assert es[|w.captures|] == e;
  }

  lemma {:induction false} RecordMany(w: Walk, es: seq<Entry>, outer: Chain)
    requires EntriesRight(w.captures, outer)
    requires forall i :: 0 <= i < |es| && es[i].name !in w.locals ==> Lookup(outer, es[i].name) == Some(es[i].sym)
    ensures RecordAll(w, es).locals == w.locals && EntriesRight(RecordAll(w, es).captures, outer)
    ensures SeenNames(RecordAll(w, es).captures) == SeenNames(w.captures) + set x | x in SeenNames(es) && x !in w.locals
    decreases |es|
  {
    if es != [] {
      RecordOne(w, es[0], outer);
      RecordMany(Record(w, es[0]), es[1..], outer);
      assert SeenNames(es) == {es[0].name} + SeenNames(es[1..]) by {
        assert forall i :: 0 <= i < |es[1..]| ==> es[1..][i] == es[i + 1];
        assert forall i :: 1 <= i < |es| ==> es[i] == es[1..][i - 1];
      }
    }
  }

  /** The walk over a resolved node keeps the running name set equal to the names bound inside, and
      records exactly the names found outside. */
  lemma {:induction false} CollectAgrees(node: Node, chain: Chain, n: nat, w: Walk)
    requires Agrees(w, chain, n) && Formed(node)
    ensures Agrees(Collect(Resolve(node, chain), w), After(node, chain), n)
    ensures SeenNames(Collect(Resolve(node, chain), w).captures) == SeenNames(w.captures) + Outside(node, chain, n)
    decreases node, 0
  {
    match node
    case Leaf =>
    case Ident(name, _) =>
      BoundBelowIff(chain, name, n);
      if Lookup(chain, name).Some? && Lookup(chain, name).value.capturable {
        RecordOne(w, Entry(name, Lookup(chain, name).value), chain[..n]);
      }
    case Group(parts) => CollectAllAgrees(parts, chain, n, w);
    case Braces(stmts) =>
      Enter(w, chain, n, map[]);
      CollectAllAgrees(stmts, chain + [map[]], n, w);
      AfterAllShape(stmts, chain + [map[]]);
      Prefix(chain + [map[]], AfterAll(stmts, chain + [map[]]), n);
      assert (chain + [map[]])[..n] == chain[..n];
    case Declare(init, names) =>
      CollectAgrees(init, chain, n, w);
      AfterShape(init, chain);
      NamesDefine(After(init, chain), n, names);
      Prefix(After(init, chain), DefineTop(After(init, chain), names), n);
    case Loop(iterable, names, body) =>
      CollectAgrees(iterable, chain, n, w);
      AfterShape(iterable, chain);
      var before := Collect(Resolve(iterable, chain), w);
      BodyAgrees(body, After(iterable, chain), n, before, names);
    case Case(pattern, names, body) =>
      Enter(w, chain, n, map[]);
      CollectAgrees(pattern, chain + [map[]], n, w);
      AfterShape(pattern, chain + [map[]]);
      NamesPush(chain, n, map[]);
      assert (chain + [map[]])[..n] == chain[..n];
      var before := Collect(Resolve(pattern, chain + [map[]]), w);
      BodyAgrees(body, chain, n, before, names);
    case Lambda(params, body) =>
      NestedAgrees(node, chain, n, w);
  }

  lemma Enter(w: Walk, chain: Chain, n: nat, s: Scope)
    requires Agrees(w, chain, n)
    ensures Agrees(w.(locals := w.locals + s.Keys), chain + [s], n)
    ensures s == map[] ==> Agrees(w, chain + [s], n)
  {
    NamesPush(chain, n, s);
    assert (chain + [s])[..n] == chain[..n];
    if s == map[] { assert w.locals + s.Keys == w.locals; }
  }

  /** A body with its own names in a scope of their own, which ends with it. */
  lemma {:induction false} BodyAgrees(body: Node, chain: Chain, n: nat, w: Walk, names: seq<Binder>)
    requires Agrees(w, chain, n) && Formed(body)
    ensures
      var inner := chain + [DefineAll(map[], names)];
      var after := Collect(Resolve(body, inner), w.(locals := w.locals + Names(names)));
      && Agrees(after.(locals := w.locals), chain, n)
      && SeenNames(after.captures) == SeenNames(w.captures) + Outside(body, inner, n)
    decreases body, 2
  {
    var s := DefineAll(map[], names);
    var inner := chain + [s];
    Enter(w, chain, n, s);
    assert s.Keys == Names(names);
    CollectAgrees(body, inner, n, w.(locals := w.locals + Names(names)));
    AfterShape(body, inner);
    Prefix(inner, After(body, inner), n);
    assert inner[..n] == chain[..n];
  }

  lemma {:induction false} CollectAllAgrees(nodes: Nodes, chain: Chain, n: nat, w: Walk)
    requires Agrees(w, chain, n) && FormedAll(nodes)
    ensures Agrees(CollectAll(ResolveAll(nodes, chain), w), AfterAll(nodes, chain), n)
    ensures SeenNames(CollectAll(ResolveAll(nodes, chain), w).captures) == SeenNames(w.captures) + OutsideAll(nodes, chain, n)
    decreases nodes, 0
  {
    if nodes.Cons? {
      CollectAgrees(nodes.head, chain, n, w);
      AfterShape(nodes.head, chain);
      Prefix(chain, After(nodes.head, chain), n);
      CollectAllAgrees(nodes.tail, After(nodes.head, chain), n, Collect(Resolve(nodes.head, chain), w));
    }
  }

  /** A nested closure hands on what it captures from beyond this one. */
  lemma {:induction false} NestedAgrees(lambda: Node, chain: Chain, n: nat, w: Walk)
    requires lambda.Lambda? && Agrees(w, chain, n) && Formed(lambda)
    ensures Agrees(Collect(Resolve(lambda, chain), w), chain, n)
    ensures SeenNames(Collect(Resolve(lambda, chain), w).captures) == SeenNames(w.captures) + Outside(lambda, chain, n)
    decreases lambda.body, 4
  {
    var es := Captures(Resolve(lambda, chain));
    CapturesAgree(lambda, chain);
    var m := |chain|;
    var inner := chain + [DefineAll(map[], lambda.params)];
    OutsideSplit(lambda.body, inner, n, m);
    assert inner[..m] == chain;
    forall i | 0 <= i < |es| && es[i].name !in w.locals
      ensures Lookup(chain[..n], es[i].name) == Some(es[i].sym)
    {
      BoundBelowIff(chain, es[i].name, n);
    }
    RecordMany(w, es, chain[..n]);
  }

  /** The captures recorded for a closure are exactly the variables and parameters its body, nested
      closures included, finds outside it by scope lookup; each once, with the binding visible where
      the closure stands. */
  lemma {:induction false} CapturesAgree(lambda: Node, chain: Chain)
    requires lambda.Lambda? && Formed(lambda)
    ensures SeenNames(Captures(Resolve(lambda, chain))) == Outside(lambda, chain, |chain|)
    ensures EntriesRight(Captures(Resolve(lambda, chain)), chain)
    decreases lambda.body, 3
  {
    var s := DefineAll(map[], lambda.params);
    var inner := chain + [s];
    var w := Walk(Names(lambda.params), []);
    NamesPush(chain, |chain|, s);
    assert NamesFrom(chain, |chain|) == {};
    assert inner[..|chain|] == chain;
    assert Agrees(w, inner, |chain|);
    CollectAgrees(lambda.body, inner, |chain|, w);
    AfterShape(lambda.body, inner);
    Prefix(inner, After(lambda.body, inner), |chain|);
  }
}
