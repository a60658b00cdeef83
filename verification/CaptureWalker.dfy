/**
 Name resolution and the capture walk on their own state: the current scope moved by push and pop, and
 the running name set saved and restored around blocks.
 */
module CaptureWalker {
  import opened Options
  import opened Capture
  import opened CaptureOrder
  import opened FreeNames

  /** ResolveCtx: `scopes` ends with the current scope. */
  class Resolver {
    var scopes: Chain

    constructor (outer: Chain)
      ensures scopes == outer
    {
      scopes := outer;
    }

    method PushScope()
      modifies this
      ensures scopes == old(scopes) + [map[]]
    {
      scopes := scopes + [map[]];
    }

    /** The outermost scope is never left. */
    method PopScope()
      modifies this
      ensures scopes == if |old(scopes)| > 1 then old(scopes)[..|old(scopes)| - 1] else old(scopes)
    {
      if |scopes| > 1 { scopes := scopes[..|scopes| - 1]; }
    }

    method DefineNames(names: seq<Binder>)
      requires scopes != []
      modifies this
      ensures scopes == DefineTop(old(scopes), names)
    {
      var top := scopes[|scopes| - 1];
      for i := 0 to |names|
        invariant DefineAll(top, names[i..]) == DefineAll(scopes[|scopes| - 1], names)
      {
        assert names[i..] == [names[i]] + names[i + 1..];
        if names[i].name !in top { top := top[names[i].name := Sym(names[i].decl, true)]; }
      }
      scopes := scopes[..|scopes| - 1] + [top];
    }

    /** iron_scope_lookup: up the parent chain. */
    method LookupName(name: string) returns (sym: Option<Sym>)
      ensures sym == Lookup(scopes, name)
    {
      var cur := |scopes|;
      assert scopes[..cur] == scopes;
      while cur > 0
        invariant 0 <= cur <= |scopes|
        invariant Lookup(scopes[..cur], name) == Lookup(scopes, name)
      {
        assert scopes[..cur][..cur - 1] == scopes[..cur - 1];
        if name in scopes[cur - 1] { return Some(scopes[cur - 1][name]); }
        cur := cur - 1;
      }
      return None;
    }

    /** resolve_node */
    method ResolveNode(node: Node) returns (r: Node)
      requires scopes != [] && Formed(node)
      modifies this
      ensures r == Resolve(node, old(scopes)) && scopes == After(node, old(scopes)) && scopes != []
      decreases node, 1
    {
      ghost var chain := scopes;
      match node
      case Leaf => r := node;
      case Ident(name, _) =>
        var sym := LookupName(name);
        r := Node.Ident(name, sym);
      case Group(parts) =>
        var kids := ResolveList(parts);
        r := Group(kids);
      case Braces(stmts) =>
        PushScope();
        var kids := ResolveList(stmts);
        AfterAllShape(stmts, chain + [map[]]);
        PopScope();
        assert scopes == chain;
        r := Braces(kids);
      case Declare(init, names) =>
        var value := ResolveNode(init);
        DefineNames(names);
        r := Node.Declare(value, names);
      case Loop(iterable, names, body) =>
        var head := ResolveNode(iterable);
        var inside := ResolveScoped(names, body);
        r := Loop(head, names, inside);
      case Case(pattern, names, body) =>
        r := ResolveCase(node);
      case Lambda(params, body) =>
        var inside := ResolveScoped(params, body);
        r := Lambda(params, inside);
    }

    /** A scope with the given names around a body. */
    method ResolveScoped(names: seq<Binder>, body: Node) returns (r: Node)
      requires scopes != [] && Formed(body)
      modifies this
      ensures r == Resolve(body, old(scopes) + [DefineAll(map[], names)]) && scopes == old(scopes)
      decreases body, 2
    {
      ghost var chain := scopes;
      PushScope();
      DefineNames(names);
      assert scopes == chain + [DefineAll(map[], names)];
      AfterShape(body, scopes);
      r := ResolveNode(body);
      PopScope();
      assert scopes == chain;
    }

    method ResolveCase(node: Node) returns (r: Node)
      requires scopes != [] && node.Case? && Formed(node)
      modifies this
      ensures r == Resolve(node, old(scopes)) && scopes == old(scopes)
      decreases node, 0
    {
      ghost var chain := scopes;
      PushScope();
      AfterShape(node.pattern, scopes);
      var head := ResolveNode(node.pattern);
      DefineNames(node.names);
      assert scopes == chain + [DefineAll(map[], node.names)];
      AfterShape(node.body, scopes);
      var inside := ResolveNode(node.body);
      PopScope();
      assert scopes == chain;
      r := Case(head, node.names, inside);
    }

    method ResolveList(nodes: Nodes) returns (r: Nodes)
      requires scopes != [] && FormedAll(nodes)
      modifies this
      ensures r == ResolveAll(nodes, old(scopes)) && scopes == AfterAll(nodes, old(scopes)) && scopes != []
      decreases nodes
    {
      match nodes
      case Nil => r := Nil;
      case Cons(head, tail) =>
        var first := ResolveNode(head);
        var rest := ResolveList(tail);
        r := Cons(first, rest);
    }
  }

  /** The state of one capture walk. */
  class CaptureWalk {
    var locals: set<string>
    var captures: seq<Entry>
    var seen: set<string>

    ghost function State(): Walk
      reads this
    {
      Walk(locals, captures)
    }

    ghost predicate Valid()
      reads this
    {
      seen == SeenNames(captures)
    }

    constructor (params: seq<Binder>)
      ensures Valid() && State() == Walk(Names(params), [])
    {
      locals, captures, seen := {}, [], {};
      new;
      AddLocals(params);
    }

    method AddLocals(names: seq<Binder>)
      requires Valid()
      modifies this
      ensures Valid() && captures == old(captures) && locals == old(locals) + Names(names)
    {
      for i := 0 to |names|
        invariant Valid() && captures == old(captures) && locals == old(locals) + Names(names[..i])
      {
        assert names[..i + 1] == names[..i] + [names[i]];
        assert Names(names[..i + 1]) == Names(names[..i]) + {names[i].name} by {
          assert names[..i + 1][i] == names[i];
          assert forall k :: 0 <= k < i ==> names[..i + 1][k] == names[..i][k];
        }
        locals := locals + {names[i].name};
      }
      assert names[..|names|] == names;
    }

    method RecordEntry(e: Entry)
      requires Valid()
      modifies this
      ensures Valid() && State() == Record(old(State()), e)
    {
      if e.name !in locals && e.name !in seen {
        seen := seen + {e.name};
        captures := captures + [e];
        assert forall k :: 0 <= k < |old(captures)| ==> captures[k] == old(captures)[k];
        assert captures[|old(captures)|] == e;
      }
    }

    /** collect_idents */
    method CollectIdents(node: Node)
      requires Valid()
      modifies this
      ensures Valid() && State() == Collect(node, old(State()))
      decreases node, 1
    {
      match node
      case Leaf =>
      case Ident(name, sym) =>
        if sym.Some? && sym.value.capturable { RecordEntry(Entry(name, sym.value)); }
      case Group(parts) => CollectList(parts);
      case Braces(stmts) =>
        var saved := locals;
        CollectList(stmts);
        locals := saved;
      case Declare(init, names) =>
        CollectIdents(init);
        AddLocals(names);
      case Loop(iterable, names, body) =>
        CollectIdents(iterable);
        CollectScoped(names, body);
      case Case(pattern, names, body) =>
        CollectIdents(pattern);
        CollectScoped(names, body);
      case Lambda(_, _) =>
        var inner := FindCaptures(node);
        ghost var w := State();
        for i := 0 to |inner|
          invariant Valid() && RecordAll(State(), inner[i..]) == RecordAll(w, inner)
        {
          assert inner[i..][0] == inner[i] && inner[i..][1..] == inner[i + 1..];
          RecordEntry(inner[i]);
        }
    }

    method CollectScoped(names: seq<Binder>, body: Node)
      requires Valid()
      modifies this
      ensures Valid() && locals == old(locals)
      ensures captures == Collect(body, old(State()).(locals := old(locals) + Names(names))).captures
      decreases body, 2
    {
      var saved := locals;
      AddLocals(names);
      CollectIdents(body);
      locals := saved;
    }

    method CollectList(nodes: Nodes)
      requires Valid()
      modifies this
      ensures Valid() && State() == CollectAll(nodes, old(State()))
      decreases nodes, 0
    {
      match nodes
      case Nil =>
      case Cons(head, tail) =>
        CollectIdents(head);
        CollectList(tail);
    }
  }

  /** find_captures, with the closures inside analyzed first */
  method FindCaptures(lambda: Node) returns (captures: seq<Entry>)
    requires lambda.Lambda?
    ensures captures == Captures(lambda)
    decreases lambda, 0
  {
    var walk := new CaptureWalk(lambda.params);
    walk.CollectIdents(lambda.body);
    return walk.captures;
  }

  /** Resolving a closure and then collecting its captures: exactly its free names that denote a variable or
      parameter where it stands, each once, by first use, with the binding visible there. */
  method CapturesOf(lambda: Node, outer: Chain) returns (captures: seq<Entry>)
    requires lambda.Lambda? && Formed(lambda) && outer != []
    ensures SeenNames(captures) == Outside(lambda, outer, |outer|) && EntriesRight(captures, outer)
    ensures forall x :: x in NamesOf(captures) <==> Free(lambda, x) && BoundAround(outer, x)
    ensures ByFirstUse(NamesOf(captures), Kept(Uses(lambda, {}), outer))
  {
    var resolver := new Resolver(outer);
    var resolved := resolver.ResolveNode(lambda);
    captures := FindCaptures(resolved);
    CapturesAgree(lambda, outer);
    CapturesByFirstUse(lambda, outer);
  }
}
