/**
 What evaluating an initializer can do: it enters functions, methods and initializers of objects, and reads
 globals on the way. The dependencies of GlobalDeps are exactly the globals such runs read.
 */
module GlobalRuns {
  import opened Options
  import opened Graph
  import opened GlobalDeps

  /** A run of a body: reads of globals, and bodies entered with their own runs. Branches and loops are free, so
      any nodes may be evaluated, any number of times. */
  datatype Run = Run(steps: seq<Act>)

  datatype Act = ReadOf(g: nat) | Enter(i: nat, body: Run)

  /** The initializers declared for a type. */
  ghost function InitsOf(p: Program, t: string): set<nat> {
    set i: nat | i < |p.decls| && p.decls[i].Method? && p.decls[i].typeName == t && p.decls[i].isInit
  }

  /** The methods of a name declared for a type. */
  ghost function MethodsOf(p: Program, t: string, m: string): set<nat> {
    set i: nat | i < |p.decls| && p.decls[i].Method? && p.decls[i].typeName == t && p.decls[i].name == m
  }

  /** The methods of a name, of whatever type. */
  ghost function AnyMethods(p: Program, m: string): set<nat> {
    set i: nat | i < |p.decls| && p.decls[i].Method? && p.decls[i].name == m
  }

  /** The bodies a node may enter: with receiver types known (Typed), with any receiver possible (Possible), or by
      reference to a named function alone (Certain). */
  ghost function Entered(p: Program, view: View, node: Node): set<nat> {
    match node
    case GlobalRef(_) => {}
    case FuncRef(f) => {f}
    case TypeRef(t, isObject) =>
      (match view
       case Certain => {}
       case Typed => if isObject then InitsOf(p, t) else {}
       case Possible => InitsOf(p, t))
    case MethodCall(receiver, m) =>
      (match view
       case Certain => {}
       case Typed => if receiver.Some? then MethodsOf(p, receiver.value, m) else {}
       case Possible => AnyMethods(p, m))
  }

  ghost predicate IsRun(p: Program, view: View, nodes: seq<Node>, r: Run)
    decreases r
  {
    forall k :: 0 <= k < |r.steps| ==> exists m :: 0 <= m < |nodes| && Performs(p, view, nodes[m], r.steps[k])
  }

  ghost predicate Performs(p: Program, view: View, node: Node, a: Act)
    decreases a
  {
    match a
    case ReadOf(g) => node == GlobalRef(g)
    case Enter(i, body) => i < |p.decls| && i in Entered(p, view, node) && IsRun(p, view, p.decls[i].nodes, body)
  }

  /** The run reads global `g`, at any depth. */
  ghost predicate ReadsIn(r: Run, g: nat)
    decreases r
  {
    exists k :: 0 <= k < |r.steps| && ActReads(r.steps[k], g)
  }

  ghost predicate ActReads(a: Act, g: nat)
    decreases a
  {
    match a
    case ReadOf(h) => h == g
    case Enter(_, body) => ReadsIn(body, g)
  }

  /** Some run of the nodes reads `g`. */
  ghost predicate MayRead(p: Program, view: View, nodes: seq<Node>, g: nat) {
    exists r :: IsRun(p, view, nodes, r) && ReadsIn(r, g)
  }

  // ---- the dependencies are what runs read

  lemma EnteredCalled(p: Program, view: View, node: Node, i: nat)
    ensures Calls(p, view, node, i) <==> i < |p.decls| && i in Entered(p, view, node)
  {
  }

  lemma {:induction false} RunFound(p: Program, view: View, start: seq<Node>, nodes: seq<Node>, r: Run, g: nat)
    requires IsRun(p, view, nodes, r) && ReadsIn(r, g)
    requires nodes == start || exists i: nat :: i < |p.decls| && nodes == p.decls[i].nodes && Runs(p, view, start, i)
    ensures Reads(p, view, start, g)
    decreases r
  {
    var k :| 0 <= k < |r.steps| && ActReads(r.steps[k], g);
    var m :| 0 <= m < |nodes| && Performs(p, view, nodes[m], r.steps[k]);
    match r.steps[k]
    case ReadOf(_) => assert GlobalRef(g) in nodes;
    case Enter(i, body) =>
      EnteredCalled(p, view, nodes[m], i);
      RunsCalled(p, view, start, nodes, m, i);
      RunFound(p, view, start, p.decls[i].nodes, body, g);
  }

  /** Entering `i` through a node, and then doing what `body` does. */
  lemma EnterRun(p: Program, view: View, nodes: seq<Node>, i: nat, body: Run, g: nat) returns (r: Run)
    requires i < |p.decls| && CallsFrom(p, view, nodes, i) && IsRun(p, view, p.decls[i].nodes, body) && ReadsIn(body, g)
    ensures IsRun(p, view, nodes, r) && ReadsIn(r, g)
  {
    var m :| 0 <= m < |nodes| && Calls(p, view, nodes[m], i);
    EnteredCalled(p, view, nodes[m], i);
    r := Run([Enter(i, body)]);
    assert Performs(p, view, nodes[m], r.steps[0]) && ActReads(r.steps[0], g);
  }

  lemma ReadRun(p: Program, view: View, nodes: seq<Node>, g: nat) returns (r: Run)
    requires GlobalRef(g) in nodes
    ensures IsRun(p, view, nodes, r) && ReadsIn(r, g)
  {
    var m :| 0 <= m < |nodes| && nodes[m] == GlobalRef(g);
    r := Run([ReadOf(g)]);
    assert Performs(p, view, nodes[m], r.steps[0]) && ActReads(r.steps[0], g);
  }

  /** Along a path of calls to a body that reads `g`. */
  lemma {:induction false} PathRun(p: Program, view: View, path: seq<nat>, k: nat, g: nat) returns (r: Run)
    requires k < |path| && IsPath(CallEdges(p, view), path) && (forall n :: 0 <= n < |path| ==> path[n] < |p.decls|)
    requires GlobalRef(g) in p.decls[path[|path| - 1]].nodes
    ensures IsRun(p, view, p.decls[path[k]].nodes, r) && ReadsIn(r, g)
    decreases |path| - k
  {
    if k == |path| - 1 {
      r := ReadRun(p, view, p.decls[path[k]].nodes, g);
    } else {
      var body := PathRun(p, view, path, k + 1, g);
      assert (path[k], path[k + 1]) in CallEdges(p, view);
      r := EnterRun(p, view, p.decls[path[k]].nodes, path[k + 1], body, g);
    }
  }

  lemma ReadRuns(p: Program, view: View, nodes: seq<Node>, g: nat) returns (r: Run)
    requires Reads(p, view, nodes, g)
    ensures IsRun(p, view, nodes, r) && ReadsIn(r, g)
  {
    if GlobalRef(g) in nodes {
      r := ReadRun(p, view, nodes, g);
    } else {
      var i: nat :| i < |p.decls| && Runs(p, view, nodes, i) && GlobalRef(g) in p.decls[i].nodes;
      var path :| Leads(CallEdges(p, view), Called(p, view, nodes), i, path);
      forall n | 0 <= n < |path|
        ensures path[n] < |p.decls|
      {
        if n < |path| - 1 { assert (path[n], path[n + 1]) in CallEdges(p, view); }
      }
      var body := PathRun(p, view, path, 0, g);
      r := EnterRun(p, view, nodes, path[0], body, g);
    }
  }

  /** A global is read, directly or through what is called, if and only if some run reads it. */
  lemma ReadsExact(p: Program, view: View, nodes: seq<Node>, g: nat)
    ensures Reads(p, view, nodes, g) <==> MayRead(p, view, nodes, g)
  {
    if Reads(p, view, nodes, g) { var r := ReadRuns(p, view, nodes, g); }
    if r :| IsRun(p, view, nodes, r) && ReadsIn(r, g) { RunFound(p, view, nodes, nodes, r, g); }
  }

  /** Some run of the initializer of `k` reads `g`. */
  ghost predicate InitReads(p: Program, view: View, k: nat, g: nat) {
    k < |p.inits| && g < |p.inits| && p.inits[k].Some? && MayRead(p, view, p.inits[k].value, g)
  }

  lemma DependsExact(p: Program, view: View, k: nat, g: nat)
    ensures (k, g) in DepEdges(p, view) <==> InitReads(p, view, k, g)
  {
    if k < |p.inits| && p.inits[k].Some? { ReadsExact(p, view, p.inits[k].value, g); }
  }
}
