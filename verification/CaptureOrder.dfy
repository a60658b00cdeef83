/**
 The order in which a closure captures: that of the first free use of each name.
 */
module CaptureOrder {
  import opened Options
  import opened Capture
  import opened FreeNames

  // ---------------------------------------------------------------- lists of names

  /** `xs` without the names in `l`. */
  function Without(xs: seq<string>, l: set<string>): seq<string> {
    if xs == [] then [] else (if xs[0] in l then [] else [xs[0]]) + Without(xs[1..], l)
  }

  /** The names in `xs` that denote a variable or parameter in `outer`. */
  ghost function Kept(xs: seq<string>, outer: Chain): seq<string> {
    if xs == [] then [] else (if BoundAround(outer, xs[0]) then [xs[0]] else []) + Kept(xs[1..], outer)
  }

  /** `seen`, and behind it what is new in `xs`. */
  function Fresh(seen: seq<string>, xs: seq<string>): seq<string>
    decreases |xs|
  {
    if xs == [] then seen else Fresh(if xs[0] in seen then seen else seen + [xs[0]], xs[1..])
  }

  function NamesOf(es: seq<Entry>): seq<string> { seq(|es|, i requires 0 <= i < |es| => es[i].name) }

  lemma {:induction false} WithoutConcat(a: seq<string>, b: seq<string>, l: set<string>)
    ensures Without(a + b, l) == Without(a, l) + Without(b, l)
  {
    if a == [] {
      assert a + b == b;
    } else {
      assert (a + b)[1..] == a[1..] + b;
      WithoutConcat(a[1..], b, l);
    }
  }

  lemma {:induction false} KeptConcat(a: seq<string>, b: seq<string>, outer: Chain)
    ensures Kept(a + b, outer) == Kept(a, outer) + Kept(b, outer)
  {
    if a == [] {
      assert a + b == b;
    } else {
      assert (a + b)[1..] == a[1..] + b;
      KeptConcat(a[1..], b, outer);
    }
  }

  lemma {:induction false} FreshConcat(seen: seq<string>, a: seq<string>, b: seq<string>)
    ensures Fresh(seen, a + b) == Fresh(Fresh(seen, a), b)
    decreases |a|
  {
    if a == [] {
      assert a + b == b;
    } else {
      assert (a + b)[1..] == a[1..] + b;
      FreshConcat(if a[0] in seen then seen else seen + [a[0]], a[1..], b);
    }
  }

  lemma {:induction false} FreshHas(seen: seq<string>, xs: seq<string>, x: string)
    ensures x in Fresh(seen, xs) <==> x in seen || x in xs
    decreases |xs|
  {
    if xs != [] {
      assert xs == [xs[0]] + xs[1..];
      FreshHas(if xs[0] in seen then seen else seen + [xs[0]], xs[1..], x);
    }
  }

  lemma {:induction false} WithoutHas(xs: seq<string>, l: set<string>, x: string)
    ensures x in Without(xs, l) <==> x in xs && x !in l
  {
    if xs != [] {
      assert xs == [xs[0]] + xs[1..];
      WithoutHas(xs[1..], l, x);
    }
  }

  /** Names from which repetitions were dropped before add nothing else and nothing in another order. */
  lemma {:induction false} FreshWithout(seen: seq<string>, l: set<string>, t: seq<string>, b: seq<string>)
    ensures Fresh(seen, Without(Fresh(t, b), l)) == Fresh(Fresh(seen, Without(t, l)), Without(b, l))
    decreases |b|
  {
    if b != [] {
      var x := b[0];
      FreshWithout(seen, l, if x in t then t else t + [x], b[1..]);
      FreshConcat(Fresh(seen, Without(t, l)), if x in l then [] else [x], Without(b[1..], l));
      if x in t {
        WithoutHas(t, l, x);
        FreshHas(seen, Without(t, l), x);
        assert x !in l ==> Fresh(Fresh(seen, Without(t, l)), [x]) == Fresh(seen, Without(t, l));
      } else {
        WithoutConcat(t, [x], l);
        assert Without([x], l) == (if x in l then [] else [x]);
        FreshConcat(seen, Without(t, l), Without([x], l));
      }
    }
  }

  /** Names not bound from depth `n` on denote the same in the outer scopes. */
  lemma {:induction false} KeptWithout(xs: seq<string>, chain: Chain, n: nat)
    requires n <= |chain|
    ensures Kept(Without(xs, NamesFrom(chain, n)), chain[..n]) == Without(Kept(xs, chain), NamesFrom(chain, n))
  {
    var l := NamesFrom(chain, n);
    if xs != [] {
      KeptWithout(xs[1..], chain, n);
      BoundBelowIff(chain, xs[0], n);
      KeptConcat(if xs[0] in l then [] else [xs[0]], Without(xs[1..], l), chain[..n]);
      WithoutConcat(if BoundAround(chain, xs[0]) then [xs[0]] else [], Kept(xs[1..], chain), l);
      assert Kept([xs[0]], chain[..n]) == (if BoundAround(chain[..n], xs[0]) then [xs[0]] else []);
      assert Without([xs[0]], l) == (if xs[0] in l then [] else [xs[0]]);
    }
  }

  // ---------------------------------------------------------------- the free uses in order

  /** The names `node` declares in the scope it stands in. */
  function Declared(node: Node): set<string> {
    match node
    case Group(parts) => DeclaredAll(parts)
    case Declare(init, names) => Declared(init) + Names(names)
    case Loop(iterable, _, _) => Declared(iterable)
    case _ => {}
  }

  function DeclaredAll(nodes: Nodes): set<string> {
    if nodes.Nil? then {} else Declared(nodes.head) + DeclaredAll(nodes.tail)
  }

  /** The uses in `node` of names not bound in it nor in `bound`, from left to right. */
  function Uses(node: Node, bound: set<string>): seq<string> {
    match node
    case Leaf => []
    case Ident(name, _) => if name in bound then [] else [name]
    case Group(parts) => UsesAll(parts, bound)
    case Braces(stmts) => UsesAll(stmts, bound)
    case Declare(init, _) => Uses(init, bound)
    case Loop(iterable, names, body) => Uses(iterable, bound) + Uses(body, bound + Declared(iterable) + Names(names))
    case Case(pattern, names, body) => Uses(pattern, bound) + Uses(body, bound + Names(names))
    case Lambda(params, body) => Uses(body, bound + Names(params))
  }

  function UsesAll(nodes: Nodes, bound: set<string>): seq<string> {
    if nodes.Nil? then [] else Uses(nodes.head, bound) + UsesAll(nodes.tail, bound + Declared(nodes.head))
  }

  lemma {:induction false} DeclaredExact(node: Node, x: string)
    ensures x in Declared(node) <==> Declares(node, x)
  {
    match node
    case Group(parts) => DeclaredAllExact(parts, x);
    case Declare(init, _) => DeclaredExact(init, x);
    case Loop(iterable, _, _) => DeclaredExact(iterable, x);
    case _ =>
  }

  lemma {:induction false} DeclaredAllExact(nodes: Nodes, x: string)
    ensures x in DeclaredAll(nodes) <==> DeclaresSome(nodes, x)
  {
    if nodes.Cons? {
      DeclaredExact(nodes.head, x);
      DeclaredAllExact(nodes.tail, x);
    }
  }

  /** The names used are the free ones that are not bound around. */
  lemma {:induction false} UsesFree(node: Node, bound: set<string>, x: string)
    ensures x in Uses(node, bound) <==> Free(node, x) && x !in bound
  {
    match node
    case Leaf =>
    case Ident(_, _) =>
    case Group(parts) => UsesAllFree(parts, bound, x);
    case Braces(stmts) => UsesAllFree(stmts, bound, x);
    case Declare(init, _) => UsesFree(init, bound, x);
    case Loop(iterable, names, body) =>
      UsesFree(iterable, bound, x);
      DeclaredExact(iterable, x);
      UsesFree(body, bound + Declared(iterable) + Names(names), x);
    case Case(pattern, names, body) =>
      UsesFree(pattern, bound, x);
      UsesFree(body, bound + Names(names), x);
    case Lambda(params, body) => UsesFree(body, bound + Names(params), x);
  }

  lemma {:induction false} UsesAllFree(nodes: Nodes, bound: set<string>, x: string)
    ensures x in UsesAll(nodes, bound) <==> FreeSome(nodes, x) && x !in bound
  {
    if nodes.Cons? {
      UsesFree(nodes.head, bound, x);
      DeclaredExact(nodes.head, x);
      UsesAllFree(nodes.tail, bound + Declared(nodes.head), x);
    }
  }

  /** Binding more names around only leaves out their uses. */
  lemma {:induction false} UsesWithout(node: Node, bound: set<string>, l: set<string>)
    ensures Uses(node, l + bound) == Without(Uses(node, bound), l)
  {
    match node
    case Leaf =>
    case Ident(_, _) =>
    case Group(parts) => UsesAllWithout(parts, bound, l);
    case Braces(stmts) => UsesAllWithout(stmts, bound, l);
    case Declare(init, _) => UsesWithout(init, bound, l);
    case Loop(iterable, names, body) =>
      var more := bound + Declared(iterable) + Names(names);
      UsesWithout(iterable, bound, l);
      UsesWithout(body, more, l);
      assert l + bound + Declared(iterable) + Names(names) == l + more;
      WithoutConcat(Uses(iterable, bound), Uses(body, more), l);
    case Case(pattern, names, body) =>
      UsesWithout(pattern, bound, l);
      UsesWithout(body, bound + Names(names), l);
      assert l + bound + Names(names) == l + (bound + Names(names));
      WithoutConcat(Uses(pattern, bound), Uses(body, bound + Names(names)), l);
    case Lambda(params, body) =>
      UsesWithout(body, bound + Names(params), l);
      assert l + bound + Names(params) == l + (bound + Names(params));
  }

  lemma {:induction false} UsesAllWithout(nodes: Nodes, bound: set<string>, l: set<string>)
    ensures UsesAll(nodes, l + bound) == Without(UsesAll(nodes, bound), l)
  {
    if nodes.Cons? {
      var more := bound + Declared(nodes.head);
      UsesWithout(nodes.head, bound, l);
      UsesAllWithout(nodes.tail, more, l);
      assert l + bound + Declared(nodes.head) == l + more;
      WithoutConcat(Uses(nodes.head, bound), UsesAll(nodes.tail, more), l);
    }
  }

  // ---------------------------------------------------------------- the walk records them in that order

  lemma {:induction false} AfterDeclared(node: Node, chain: Chain, n: nat)
    requires n < |chain|
    ensures NamesFrom(After(node, chain), n) == NamesFrom(chain, n) + Declared(node)
  {
    AfterShape(node, chain);
    match node
    case Group(parts) => AfterAllDeclared(parts, chain, n);
    case Declare(init, names) =>
      AfterDeclared(init, chain, n);
      AfterShape(init, chain);
      NamesDefine(After(init, chain), n, names);
    case Loop(iterable, _, _) => AfterDeclared(iterable, chain, n);
    case _ =>
  }

  lemma {:induction false} AfterAllDeclared(nodes: Nodes, chain: Chain, n: nat)
    requires n < |chain|
    ensures NamesFrom(AfterAll(nodes, chain), n) == NamesFrom(chain, n) + DeclaredAll(nodes)
  {
    if nodes.Cons? {
      AfterDeclared(nodes.head, chain, n);
      AfterShape(nodes.head, chain);
      AfterAllDeclared(nodes.tail, After(nodes.head, chain), n);
    }
  }

  /** `es` is what was recorded when the names in `seen` and then those in `uses` came, as far as `outer` binds them. */
  ghost predicate Recorded(es: seq<Entry>, seen: seq<Entry>, uses: seq<string>, outer: Chain) {
    NamesOf(es) == Fresh(NamesOf(seen), Kept(uses, outer))
  }

  lemma RecordedTwice(es: seq<Entry>, mid: seq<Entry>, seen: seq<Entry>, a: seq<string>, b: seq<string>, outer: Chain)
    requires Recorded(mid, seen, a, outer) && Recorded(es, mid, b, outer)
    ensures Recorded(es, seen, a + b, outer)
  {
    KeptConcat(a, b, outer);
    FreshConcat(NamesOf(seen), Kept(a, outer), Kept(b, outer));
  }

  lemma SeenHas(es: seq<Entry>, x: string)
    ensures x in SeenNames(es) <==> x in NamesOf(es)
  {
    if x in SeenNames(es) {
      var i :| 0 <= i < |es| && es[i].name == x;
      assert NamesOf(es)[i] == x;
    }
  }

  lemma {:induction false} RecordAllNames(w: Walk, es: seq<Entry>)
    ensures NamesOf(RecordAll(w, es).captures) == Fresh(NamesOf(w.captures), Without(NamesOf(es), w.locals))
    decreases |es|
  {
    if es != [] {
      var w' := Record(w, es[0]);
      SeenHas(w.captures, es[0].name);
      RecordAllNames(w', es[1..]);
      assert NamesOf(es)[1..] == NamesOf(es[1..]);
      assert NamesOf(w.captures + [es[0]]) == NamesOf(w.captures) + [es[0].name];
      FreshConcat(NamesOf(w.captures), if es[0].name in w.locals then [] else [es[0].name], Without(NamesOf(es[1..]), w.locals));
    }
  }

  /** The walk over a resolved node records the uses in it in their order. */
  lemma {:induction false} CollectOrder(node: Node, chain: Chain, n: nat, w: Walk)
    requires Agrees(w, chain, n) && Formed(node)
    ensures Recorded(Collect(Resolve(node, chain), w).captures, w.captures, Uses(node, w.locals), chain[..n])
    decreases node, 1
  {
    match node
    case Leaf =>
    case Ident(name, _) => IdentOrder(name, chain, n, w);
    case Group(parts) => CollectAllOrder(parts, chain, n, w);
    case Braces(stmts) =>
      Enter(w, chain, n, map[]);
      CollectAllOrder(stmts, chain + [map[]], n, w);
      assert (chain + [map[]])[..n] == chain[..n];
    case Declare(init, names) => CollectOrder(init, chain, n, w);
    case Loop(iterable, names, body) => LoopOrder(node, chain, n, w);
    case Case(pattern, names, body) => CaseOrder(node, chain, n, w);
    case Lambda(params, body) => NestedOrder(node, chain, n, w);
  }

  lemma IdentOrder(name: string, chain: Chain, n: nat, w: Walk)
    requires Agrees(w, chain, n)
    ensures Recorded(Collect(Resolve(Node.Ident(name, None), chain), w).captures, w.captures, Uses(Node.Ident(name, None), w.locals), chain[..n])
  {
    BoundBelowIff(chain, name, n);
    SeenHas(w.captures, name);
    if Lookup(chain, name).Some? {
      var e := Entry(name, Lookup(chain, name).value);
      assert NamesOf(w.captures + [e]) == NamesOf(w.captures) + [name];
    }
  }

  lemma {:induction false} LoopOrder(node: Node, chain: Chain, n: nat, w: Walk)
    requires node.Loop? && Agrees(w, chain, n) && Formed(node)
    ensures Recorded(Collect(Resolve(node, chain), w).captures, w.captures, Uses(node, w.locals), chain[..n])
    decreases node, 0
  {
    var mid := Collect(Resolve(node.iterable, chain), w);
    CollectOrder(node.iterable, chain, n, w);
    CollectAgrees(node.iterable, chain, n, w);
    AfterDeclared(node.iterable, chain, n);
    AfterShape(node.iterable, chain);
    Prefix(chain, After(node.iterable, chain), n);
    BodyOrder(node.body, After(node.iterable, chain), n, mid, node.names);
    RecordedTwice(Collect(Resolve(node, chain), w).captures, mid.captures, w.captures, Uses(node.iterable, w.locals),
                  Uses(node.body, w.locals + Declared(node.iterable) + Names(node.names)), chain[..n]);
  }

  lemma {:induction false} CaseOrder(node: Node, chain: Chain, n: nat, w: Walk)
    requires node.Case? && Agrees(w, chain, n) && Formed(node)
    ensures Recorded(Collect(Resolve(node, chain), w).captures, w.captures, Uses(node, w.locals), chain[..n])
    decreases node, 0
  {
    var inner := chain + [map[]];
    var mid := Collect(Resolve(node.pattern, inner), w);
    Enter(w, chain, n, map[]);
    assert inner[..n] == chain[..n];
    CollectOrder(node.pattern, inner, n, w);
    CollectAgrees(node.pattern, inner, n, w);
    AfterShape(node.pattern, inner);
    NamesPush(chain, n, map[]);
    BodyOrder(node.body, chain, n, mid, node.names);
    RecordedTwice(Collect(Resolve(node, chain), w).captures, mid.captures, w.captures, Uses(node.pattern, w.locals),
                  Uses(node.body, w.locals + Names(node.names)), chain[..n]);
  }

  lemma {:induction false} BodyOrder(body: Node, chain: Chain, n: nat, w: Walk, names: seq<Binder>)
    requires Agrees(w, chain, n) && Formed(body)
    ensures Recorded(Collect(Resolve(body, chain + [DefineAll(map[], names)]), w.(locals := w.locals + Names(names))).captures,
                     w.captures, Uses(body, w.locals + Names(names)), chain[..n])
    decreases body, 2
  {
    var s := DefineAll(map[], names);
    Enter(w, chain, n, s);
    assert (chain + [s])[..n] == chain[..n];
    CollectOrder(body, chain + [s], n, w.(locals := w.locals + Names(names)));
  }

  lemma {:induction false} CollectAllOrder(nodes: Nodes, chain: Chain, n: nat, w: Walk)
    requires Agrees(w, chain, n) && FormedAll(nodes)
    ensures Recorded(CollectAll(ResolveAll(nodes, chain), w).captures, w.captures, UsesAll(nodes, w.locals), chain[..n])
    decreases nodes, 0
  {
    if nodes.Cons? {
      var mid := Collect(Resolve(nodes.head, chain), w);
      CollectOrder(nodes.head, chain, n, w);
      CollectAgrees(nodes.head, chain, n, w);
      AfterDeclared(nodes.head, chain, n);
      AfterShape(nodes.head, chain);
      Prefix(chain, After(nodes.head, chain), n);
      CollectAllOrder(nodes.tail, After(nodes.head, chain), n, mid);
      RecordedTwice(CollectAll(ResolveAll(nodes, chain), w).captures, mid.captures, w.captures, Uses(nodes.head, w.locals),
                    UsesAll(nodes.tail, w.locals + Declared(nodes.head)), chain[..n]);
    }
  }

  /** What a nested closure hands on comes in the order of its uses. */
  lemma {:induction false} NestedOrder(lambda: Node, chain: Chain, n: nat, w: Walk)
    requires lambda.Lambda? && Agrees(w, chain, n) && Formed(lambda)
    ensures Recorded(Collect(Resolve(lambda, chain), w).captures, w.captures, Uses(lambda, w.locals), chain[..n])
    decreases lambda.body, 4
  {
    var es := Captures(Resolve(lambda, chain));
    var uses := Uses(lambda.body, Names(lambda.params));
    CapturesInOrder(lambda, chain);
    assert {} + Names(lambda.params) == Names(lambda.params);
    RecordAllNames(w, es);
    assert Fresh([], Kept(uses, chain)) == NamesOf(es);
    FreshWithout(NamesOf(w.captures), w.locals, [], Kept(uses, chain));
    KeptWithout(uses, chain, n);
    UsesWithout(lambda.body, Names(lambda.params), w.locals);
  }

  /** A closure captures in the order of the first free use of each name. */
  lemma {:induction false} CapturesInOrder(lambda: Node, chain: Chain)
    requires lambda.Lambda? && Formed(lambda)
    ensures NamesOf(Captures(Resolve(lambda, chain))) == Fresh([], Kept(Uses(lambda, {}), chain))
    decreases lambda.body, 3
  {
    var s := DefineAll(map[], lambda.params);
    var inner := chain + [s];
    var w := Walk(Names(lambda.params), []);
    NamesPush(chain, |chain|, s);
    assert NamesFrom(chain, |chain|) == {};
    assert inner[..|chain|] == chain;
    CollectOrder(lambda.body, inner, |chain|, w);
    assert NamesOf([]) == [];
    assert {} + Names(lambda.params) == Names(lambda.params);
  }

  /** The names stand in the order in which each is first used. */
  ghost predicate ByFirstUse(names: seq<string>, uses: seq<string>) {
    forall i, j :: 0 <= i < j < |names| ==> UsedBefore(uses, names[i], names[j])
  }

  ghost predicate UsedBefore(uses: seq<string>, x: string, y: string) {
    exists a :: 0 <= a < |uses| && uses[a] == x && y !in uses[..a] && x != y
  }

  lemma {:induction false} FreshByFirstUse(uses: seq<string>)
    ensures ByFirstUse(Fresh([], uses), uses)
    decreases |uses|
  {
    if uses != [] {
      var last := |uses| - 1;
      var before, x := uses[..last], uses[last];
      var names := Fresh([], before);
      assert uses == before + [x];
      FreshConcat([], before, [x]);
      FreshByFirstUse(before);
      FreshHas([], before, x);
      var all := Fresh([], uses);
      forall i, j | 0 <= i < j < |all|
        ensures UsedBefore(uses, all[i], all[j])
      {
        assert all[i] == names[i];
        if j < |names| {
          assert UsedBefore(before, names[i], names[j]);
          var a :| 0 <= a < |before| && before[a] == names[i] && names[j] !in before[..a] && names[i] != names[j];
          assert uses[a] == names[i] && uses[..a] == before[..a];
        } else {
          FreshHas([], before, names[i]);
          var a :| 0 <= a < |before| && before[a] == names[i];
          assert uses[a] == names[i] && uses[..a] == before[..a];
        }
      }
    }
  }

  /** The names a closure captures, in order: those of its free uses that its surroundings bind, each once, by
      first use. */
  lemma CapturesByFirstUse(lambda: Node, outer: Chain)
    requires lambda.Lambda? && Formed(lambda)
    ensures var names := NamesOf(Captures(Resolve(lambda, outer)));
            ByFirstUse(names, Kept(Uses(lambda, {}), outer))
            && forall x :: x in names <==> Free(lambda, x) && BoundAround(outer, x)
  {
    var es := Captures(Resolve(lambda, outer));
    CapturesInOrder(lambda, outer);
    FreshByFirstUse(Kept(Uses(lambda, {}), outer));
    forall x
      ensures x in NamesOf(es) <==> Free(lambda, x) && BoundAround(outer, x)
    {
      SeenHas(es, x);
      CapturesFree(lambda, outer, x);
    }
  }
}
