/**
 Which globals an initializer reads, computed twice: when names are resolved (src/analyzer/resolve.c,
 gdep_walk), before receiver types are known, and again once the program type-checks
 (src/analyzer/global_order.c, global_deps).
 */
module GlobalDeps {
  import opened Options
  import opened Graph

  /** The nodes of an expression or body that matter, in walking order: an identifier bound to a
      global, a function or a type, and a method call with the receiver type found later. */
  datatype Node =
    | GlobalRef(g: nat)
    | FuncRef(f: nat)
    | TypeRef(typeName: string, isObject: bool)
    | MethodCall(receiver: Option<string>, name: string)

  datatype Decl =
    | Func(nodes: seq<Node>)
    | Method(typeName: string, name: string, isInit: bool, nodes: seq<Node>)

  datatype Program = Program(inits: seq<Option<seq<Node>>>, decls: seq<Decl>)

  /** How a call is resolved: only named functions, every method the name may mean, or the methods
      of the receiver's type. */
  datatype View = Certain | Possible | Typed

  ghost predicate NodesBound(p: Program, nodes: seq<Node>) {
    forall k :: 0 <= k < |nodes| ==> NodeBound(p, nodes[k])
  }

  ghost predicate NodeBound(p: Program, node: Node) {
    match node
    case GlobalRef(g) => g < |p.inits|
    case FuncRef(f) => f < |p.decls|
    case _ => true
  }

  /** References are to globals and functions of the program. */
  ghost predicate Bound(p: Program) {
    && (forall i :: 0 <= i < |p.decls| ==> NodesBound(p, p.decls[i].nodes))
    && (forall k :: 0 <= k < |p.inits| ==> p.inits[k].Some? ==> NodesBound(p, p.inits[k].value))
  }

  /** Body `i` may run because of `node`. */
  predicate Calls(p: Program, view: View, node: Node, i: nat) {
    && i < |p.decls|
    && match node
       case GlobalRef(_) => false
       case FuncRef(f) => i == f
       case TypeRef(t, isObject) =>
         && view != Certain && (view == Typed ==> isObject)
         && p.decls[i].Method? && p.decls[i].isInit && p.decls[i].typeName == t
       case MethodCall(receiver, name) =>
         && view != Certain && p.decls[i].Method? && p.decls[i].name == name
         && (view == Typed ==> receiver == Some(p.decls[i].typeName))
  }

  ghost predicate CallsFrom(p: Program, view: View, nodes: seq<Node>, i: nat) {
    exists k :: 0 <= k < |nodes| && Calls(p, view, nodes[k], i)
  }

  ghost function Called(p: Program, view: View, nodes: seq<Node>): set<nat> {
    set i: nat | i < |p.decls| && CallsFrom(p, view, nodes, i)
  }

  ghost function CallEdges(p: Program, view: View): Edges {
    set i: nat, j: nat | i < |p.decls| && j < |p.decls| && CallsFrom(p, view, p.decls[i].nodes, j) :: (i, j)
  }

  /** The bodies that may run while `nodes` is evaluated. */
  ghost predicate Runs(p: Program, view: View, nodes: seq<Node>, i: nat) {
    Reach(CallEdges(p, view), Called(p, view, nodes), i)
  }

  /** Evaluating `nodes` may read global `g`, directly or through what it calls. */
  ghost predicate Reads(p: Program, view: View, nodes: seq<Node>, g: nat) {
    GlobalRef(g) in nodes || exists i: nat :: i < |p.decls| && Runs(p, view, nodes, i) && GlobalRef(g) in p.decls[i].nodes
  }

  ghost predicate DependsOn(p: Program, view: View, k: nat, g: nat) {
    k < |p.inits| && g < |p.inits| && p.inits[k].Some? && Reads(p, view, p.inits[k].value, g)
  }

  ghost function DepEdges(p: Program, view: View): Edges {
    set k: nat, g: nat | k < |p.inits| && g < |p.inits| && DependsOn(p, view, k, g) :: (k, g)
  }

  /** What `a` resolves, `b` resolves too. */
  ghost predicate Finer(a: View, b: View) { a == b || a == Certain || b == Possible }

  lemma CallsMono(p: Program, a: View, b: View, nodes: seq<Node>, i: nat)
    requires Finer(a, b) && CallsFrom(p, a, nodes, i)
    ensures CallsFrom(p, b, nodes, i)
  {
    var k :| 0 <= k < |nodes| && Calls(p, a, nodes[k], i);
    assert Calls(p, b, nodes[k], i);
  }

  lemma RunsMono(p: Program, a: View, b: View, nodes: seq<Node>, i: nat)
    requires Finer(a, b) && Runs(p, a, nodes, i)
    ensures Runs(p, b, nodes, i)
  {
    forall i, j | (i, j) in CallEdges(p, a)
      ensures (i, j) in CallEdges(p, b)
    {
      CallsMono(p, a, b, p.decls[i].nodes, j);
    }
    forall i | i in Called(p, a, nodes)
      ensures i in Called(p, b, nodes)
    {
      CallsMono(p, a, b, nodes, i);
    }
    ReachMono(CallEdges(p, a), Called(p, a, nodes), CallEdges(p, b), Called(p, b, nodes), i);
  }

  lemma ReadsMono(p: Program, a: View, b: View, nodes: seq<Node>, g: nat)
    requires Finer(a, b) && Reads(p, a, nodes, g)
    ensures Reads(p, b, nodes, g)
  {
    if GlobalRef(g) !in nodes {
      var i: nat :| i < |p.decls| && Runs(p, a, nodes, i) && GlobalRef(g) in p.decls[i].nodes;
      RunsMono(p, a, b, nodes, i);
    }
  }

  /** The dependencies known for certain are dependencies once types are known, and those are among
      the possible ones. */
  lemma ViewsNest(p: Program)
    ensures DepEdges(p, Certain) <= DepEdges(p, Typed) <= DepEdges(p, Possible)
  {
    forall k, g | (k, g) in DepEdges(p, Certain)
      ensures (k, g) in DepEdges(p, Typed)
    {
      ReadsMono(p, Certain, Typed, p.inits[k].value, g);
    }
    forall k, g | (k, g) in DepEdges(p, Typed)
      ensures (k, g) in DepEdges(p, Possible)
    {
      ReadsMono(p, Typed, Possible, p.inits[k].value, g);
    }
  }

  lemma RunsCalled(p: Program, view: View, start: seq<Node>, nodes: seq<Node>, k: nat, j: nat)
    requires k < |nodes| && Calls(p, view, nodes[k], j)
    requires nodes == start || exists i: nat :: i < |p.decls| && nodes == p.decls[i].nodes && Runs(p, view, start, i)
    ensures Runs(p, view, start, j)
  {
    assert CallsFrom(p, view, nodes, j);
    if nodes == start {
      ReachStart(CallEdges(p, view), Called(p, view, start), j);
    } else {
      var i: nat :| i < |p.decls| && nodes == p.decls[i].nodes && Runs(p, view, start, i);
      ReachStep(CallEdges(p, view), Called(p, view, start), i, j);
    }
  }

  /** A set of bodies with every call from it and from `nodes` inside contains all that runs. */
  lemma RunsStays(p: Program, view: View, nodes: seq<Node>, c: set<nat>, i: nat)
    requires forall j :: 0 <= j < |p.decls| && CallsFrom(p, view, nodes, j) ==> j in c
    requires forall u, j :: 0 <= u < |p.decls| && u in c && 0 <= j < |p.decls| && CallsFrom(p, view, p.decls[u].nodes, j) ==> j in c
    requires Runs(p, view, nodes, i)
    ensures i in c
  {
    ReachStays(CallEdges(p, view), Called(p, view, nodes), c, i);
  }
}
