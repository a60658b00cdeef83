/**
 The two dependency walks on their own state: the recursive hard/soft walk of src/analyzer/resolve.c
 and the worklist of src/analyzer/global_order.c. Each is proved to find exactly the globals read.
 */
module GlobalDepWalk {
  import opened Graph
  import opened GlobalDeps
  import opened GlobalRuns

  datatype Found = Found(visited: map<nat, bool>, hard: seq<nat>, soft: seq<nat>)

  /** The body has been walked, in hard mode if `hard`. */
  predicate At(s: Found, i: nat, hard: bool) {
    i in s.visited && (hard ==> s.visited[i])
  }

  ghost predicate Grows(s: Found, s': Found) {
    && (forall i: nat, h :: At(s, i, h) ==> At(s', i, h))
    && (forall g :: g in s.hard ==> g in s'.hard)
    && (forall g :: g in s.soft ==> g in s'.soft)
  }

  /** All that `node` leads to has been recorded. */
  ghost predicate NodeDone(p: Program, s: Found, node: Node, hard: bool) {
    match node
    case GlobalRef(g) => g in s.hard || (!hard && g in s.soft)
    case FuncRef(f) => At(s, f, hard)
    case _ => forall i: nat :: Calls(p, Possible, node, i) ==> At(s, i, false)
  }

  ghost predicate NodesDone(p: Program, s: Found, nodes: seq<Node>, hard: bool) {
    forall k :: 0 <= k < |nodes| ==> NodeDone(p, s, nodes[k], hard)
  }

  ghost predicate BodyDone(p: Program, s: Found, i: nat, hard: bool) {
    i < |p.decls| && NodesDone(p, s, p.decls[i].nodes, hard)
  }

  /** Every body first reached at some level between `s` and `s'` is finished at that level in `s'`. */
  ghost predicate NewDone(p: Program, s: Found, s': Found) {
    forall i: nat, h :: At(s', i, h) && !At(s, i, h) ==> BodyDone(p, s', i, h)
  }

  ghost predicate Step(p: Program, s: Found, s': Found) { Grows(s, s') && NewDone(p, s, s') }

  lemma NodesDoneGrows(p: Program, s: Found, s': Found, nodes: seq<Node>, hard: bool)
    requires NodesDone(p, s, nodes, hard) && Grows(s, s')
    ensures NodesDone(p, s', nodes, hard)
  {
    forall k | 0 <= k < |nodes|
      ensures NodeDone(p, s', nodes[k], hard)
    {
      assert NodeDone(p, s, nodes[k], hard);
    }
  }

  lemma StepTrans(p: Program, a: Found, b: Found, c: Found)
    requires Step(p, a, b) && Step(p, b, c)
    ensures Step(p, a, c)
  {
    forall i: nat, h | At(c, i, h) && !At(a, i, h)
      ensures BodyDone(p, c, i, h)
    {
      if At(b, i, h) {
        assert BodyDone(p, b, i, h);
        NodesDoneGrows(p, b, c, p.decls[i].nodes, h);
      }
    }
  }

  /** Marking `i`, walking its body and coming back. */
  lemma WalkStep(p: Program, s: Found, i: nat, hard: bool, s': Found)
    requires i < |p.decls| && !At(s, i, hard)
    requires Step(p, s.(visited := s.visited[i := hard]), s')
    requires NodesDone(p, s', p.decls[i].nodes, hard)
    ensures Step(p, s, s') && At(s', i, hard)
  {
    var m := s.(visited := s.visited[i := hard]);
    assert Grows(s, m);
    assert At(m, i, hard);
    forall j: nat, h | At(s', j, h) && !At(s, j, h)
      ensures BodyDone(p, s', j, h)
    {
      if At(m, j, h) {
        assert j == i;
        forall k | 0 <= k < |p.decls[i].nodes|
          ensures NodeDone(p, s', p.decls[i].nodes[k], h)
        {
          assert NodeDone(p, s', p.decls[i].nodes[k], hard);
        }
      }
    }
  }

  function ViewOf(hard: bool): View { if hard then Certain else Possible }

  /** Nothing is recorded that evaluating `start` does not lead to. */
  ghost predicate Sound(p: Program, start: seq<Node>, s: Found) {
    && (forall i: nat, h :: At(s, i, h) ==> i < |p.decls| && Runs(p, ViewOf(h), start, i))
    && (forall g :: g in s.hard ==> Reads(p, Certain, start, g))
    && (forall g :: g in s.soft ==> Reads(p, Possible, start, g))
    && NoDup(s.hard) && NoDup(s.soft)
  }

  /** The list being walked is the start or a body that runs. */
  ghost predicate Current(p: Program, start: seq<Node>, nodes: seq<Node>, hard: bool) {
    nodes == start || exists i: nat :: i < |p.decls| && nodes == p.decls[i].nodes && Runs(p, ViewOf(hard), start, i)
  }

  lemma MarkSound(p: Program, start: seq<Node>, s: Found, i: nat, hard: bool)
    requires Sound(p, start, s) && i < |p.decls| && Runs(p, ViewOf(hard), start, i) && !At(s, i, hard)
    ensures Sound(p, start, s.(visited := s.visited[i := hard])) && Current(p, start, p.decls[i].nodes, hard)
  {
    if hard { RunsMono(p, Certain, Possible, start, i); }
    var m := s.(visited := s.visited[i := hard]);
    forall j: nat, h | At(m, j, h)
      ensures j < |p.decls| && Runs(p, ViewOf(h), start, j)
    {
      if j != i { assert At(s, j, h); }
    }
  }

  /** Bodies and levels still open: what the walk shrinks. */
  ghost function Open(p: Program, s: Found): set<(nat, bool)> {
    set i: nat, h: bool | i < |p.decls| && !At(s, i, h) :: (i, h)
  }

  lemma GrowsShrinks(p: Program, s: Found, s': Found)
    requires Grows(s, s')
    ensures Open(p, s') <= Open(p, s)
  {
  }

  lemma MarkShrinks(p: Program, s: Found, i: nat, hard: bool)
    requires i < |p.decls| && !At(s, i, hard)
    ensures Open(p, s.(visited := s.visited[i := hard])) < Open(p, s)
  {
    var m := s.(visited := s.visited[i := hard]);
    assert Grows(s, m);
    assert (i, hard) in Open(p, s) && (i, hard) !in Open(p, m);
  }

  /** GlobalDepCtx for one global. */
  class DepContext {
    const p: Program
    ghost const start: seq<Node>
    var hard: bool
    var visited: map<nat, bool>
    var hardDeps: seq<nat>
    var softDeps: seq<nat>

    ghost function Snap(): Found
      reads this
    {
      Found(visited, hardDeps, softDeps)
    }

    ghost predicate Valid()
      reads this
    {
      Bound(p) && Sound(p, start, Snap())
    }

    constructor (p: Program, start: seq<Node>)
      requires Bound(p)
      ensures this.p == p && this.start == start && Valid() && Snap() == Found(map[], [], []) && hard
    {
      this.p, this.start := p, start;
      hard, visited, hardDeps, softDeps := true, map[], [], [];
    }

    /** gdep_add */
    method Add(g: nat)
      requires Valid() && Reads(p, ViewOf(hard), start, g)
      modifies this
      ensures Valid() && hard == old(hard) && visited == old(visited)
      ensures Grows(old(Snap()), Snap()) && (if hard then g in hardDeps else g in softDeps)
    {
      if hard {
        if g !in hardDeps { hardDeps := hardDeps + [g]; }
      } else {
        if g !in softDeps { softDeps := softDeps + [g]; }
      }
      assert forall i: nat, h :: At(Snap(), i, h) ==> At(old(Snap()), i, h);
    }

    /** gdep_visit on one node of the list being walked */
    method VisitNode(ghost nodes: seq<Node>, ghost k: nat, node: Node)
      requires Valid() && k < |nodes| && nodes[k] == node && Current(p, start, nodes, hard) && NodesBound(p, nodes)
      modifies this
      ensures Valid() && hard == old(hard) && Step(p, old(Snap()), Snap()) && NodeDone(p, Snap(), node, hard)
      decreases Open(p, Snap()), 2
    {
      match node
      case GlobalRef(g) =>
        CurrentReads(p, start, nodes, hard, g);
        Add(g);
      case FuncRef(f) =>
        assert Calls(p, ViewOf(hard), nodes[k], f);
        RunsCalled(p, ViewOf(hard), start, nodes, k, f);
        Walk(f, hard);
      case _ =>
        ghost var s := Snap();
        for i := 0 to |p.decls|
          invariant Valid() && hard == old(hard) && Step(p, s, Snap())
          invariant forall j: nat :: j < i && Calls(p, Possible, node, j) ==> At(Snap(), j, false)
        {
          if Calls(p, Possible, node, i) {
            CurrentPossible(p, start, nodes, hard);
            RunsCalled(p, Possible, start, nodes, k, i);
            ghost var before := Snap();
            GrowsShrinks(p, s, before);
            Walk(i, false);
            StepTrans(p, s, before, Snap());
          }
        }
    }

    /** iron_ast_walk over the nodes of an initializer or a body */
    method VisitAll(nodes: seq<Node>)
      requires Valid() && Current(p, start, nodes, hard) && NodesBound(p, nodes)
      modifies this
      ensures Valid() && hard == old(hard) && Step(p, old(Snap()), Snap()) && NodesDone(p, Snap(), nodes, hard)
      decreases Open(p, Snap()), 3
    {
      ghost var s := Snap();
      for k := 0 to |nodes|
        invariant Valid() && hard == old(hard) && Step(p, s, Snap())
        invariant NodesDone(p, Snap(), nodes[..k], hard)
      {
        ghost var before := Snap();
        GrowsShrinks(p, s, before);
        VisitNode(nodes, k, nodes[k]);
        StepTrans(p, s, before, Snap());
        NodesDoneGrows(p, before, Snap(), nodes[..k], hard);
      }
    }

    /** gdep_walk: a body is walked once per level, and a soft visit does not stop a later hard one. */
    method Walk(i: nat, walkHard: bool)
      requires Valid() && i < |p.decls| && Runs(p, ViewOf(walkHard), start, i)
      modifies this
      ensures Valid() && hard == old(hard) && Step(p, old(Snap()), Snap()) && At(Snap(), i, walkHard)
      decreases Open(p, Snap()), 1
    {
      if i in visited && (visited[i] || !walkHard) { return; }
      ghost var s := Snap();
      MarkSound(p, start, s, i, walkHard);
      MarkShrinks(p, s, i, walkHard);
      visited := visited[i := walkHard];
      var saved := hard;
      hard := walkHard;
      assert Snap() == s.(visited := s.visited[i := walkHard]);
      VisitAll(p.decls[i].nodes);
      hard := saved;
      WalkStep(p, s, i, walkHard, Snap());
    }
  }

  lemma CurrentReads(p: Program, start: seq<Node>, nodes: seq<Node>, hard: bool, g: nat)
    requires Current(p, start, nodes, hard) && GlobalRef(g) in nodes
    ensures Reads(p, ViewOf(hard), start, g)
  {
  }

  lemma CurrentPossible(p: Program, start: seq<Node>, nodes: seq<Node>, hard: bool)
    requires Current(p, start, nodes, hard)
    ensures Current(p, start, nodes, false)
  {
    if nodes != start {
      var i: nat :| i < |p.decls| && nodes == p.decls[i].nodes && Runs(p, ViewOf(hard), start, i);
      RunsMono(p, ViewOf(hard), Possible, start, i);
    }
  }

  /** A finished walk has reached all that runs. */
  lemma WalkCovers(p: Program, start: seq<Node>, s: Found, hard: bool, i: nat)
    requires Step(p, Found(map[], [], []), s) && NodesDone(p, s, start, true) && Sound(p, start, s)
    requires Runs(p, ViewOf(hard), start, i)
    ensures At(s, i, hard)
  {
    var c := set i: nat | i < |p.decls| && At(s, i, hard);
    forall j | 0 <= j < |p.decls| && CallsFrom(p, ViewOf(hard), start, j)
      ensures j in c
    {
      NodesCover(p, s, start, true, hard, j);
    }
    forall u, j | 0 <= u < |p.decls| && u in c && 0 <= j < |p.decls| && CallsFrom(p, ViewOf(hard), p.decls[u].nodes, j)
      ensures j in c
    {
      assert BodyDone(p, s, u, hard);
      NodesCover(p, s, p.decls[u].nodes, hard, hard, j);
    }
    RunsStays(p, ViewOf(hard), start, c, i);
  }

  lemma NodesCover(p: Program, s: Found, nodes: seq<Node>, level: bool, hard: bool, j: nat)
    requires NodesDone(p, s, nodes, level) && (hard ==> level) && CallsFrom(p, ViewOf(hard), nodes, j)
    ensures At(s, j, hard)
  {
    var k :| 0 <= k < |nodes| && Calls(p, ViewOf(hard), nodes[k], j);
    assert NodeDone(p, s, nodes[k], level);
  }

  lemma WalkFinds(p: Program, start: seq<Node>, s: Found, hard: bool, g: nat)
    requires Step(p, Found(map[], [], []), s) && NodesDone(p, s, start, true) && Sound(p, start, s)
    requires Reads(p, ViewOf(hard), start, g)
    ensures g in s.hard || (!hard && g in s.soft)
  {
    if GlobalRef(g) in start {
      assert exists k :: 0 <= k < |start| && start[k] == GlobalRef(g);
      var k :| 0 <= k < |start| && start[k] == GlobalRef(g);
      assert NodeDone(p, s, start[k], true);
    } else {
      var i: nat :| i < |p.decls| && Runs(p, ViewOf(hard), start, i) && GlobalRef(g) in p.decls[i].nodes;
      WalkCovers(p, start, s, hard, i);
      assert BodyDone(p, s, i, hard);
      var k :| 0 <= k < |p.decls[i].nodes| && p.decls[i].nodes[k] == GlobalRef(g);
      assert NodeDone(p, s, p.decls[i].nodes[k], hard);
    }
  }

  /** The walk from one initializer: the hard list holds exactly the globals certainly read, and
      hard and soft together exactly those possibly read: what runs may read that enter named functions
      only, and what runs may read that enter any method of the name called. */
  method HardAndSoft(p: Program, init: seq<Node>) returns (hard: seq<nat>, soft: seq<nat>)
    requires Bound(p) && NodesBound(p, init)
    ensures NoDup(hard) && NoDup(soft)
    ensures forall g: nat :: g in hard <==> Reads(p, Certain, init, g)
    ensures forall g: nat :: g in hard || g in soft <==> Reads(p, Possible, init, g)
    ensures forall g: nat :: g in hard <==> MayRead(p, Certain, init, g)
    ensures forall g: nat :: g in hard || g in soft <==> MayRead(p, Possible, init, g)
  {
    var ctx := new DepContext(p, init);
    ctx.VisitAll(init);
    hard, soft := ctx.hardDeps, ctx.softDeps;
    ghost var s := ctx.Snap();
    forall g: nat
      ensures Reads(p, Certain, init, g) ==> g in s.hard
      ensures Reads(p, Possible, init, g) ==> g in s.hard || g in s.soft
    {
      if Reads(p, Certain, init, g) { WalkFinds(p, init, s, true, g); }
      if Reads(p, Possible, init, g) { WalkFinds(p, init, s, false, g); }
    }
    forall g: nat | g in s.hard
      ensures Reads(p, Possible, init, g)
    {
      ReadsMono(p, Certain, Possible, init, g);
    }
    forall g: nat, view
      ensures Reads(p, view, init, g) <==> MayRead(p, view, init, g)
    {
      ReadsExact(p, view, init, g);
    }
  }

  /** GoWalk: the worklist for one global. */
  class TypedWalk {
    const p: Program
    ghost const start: seq<Node>
    var seen: set<nat>
    var pending: seq<nat>
    const deps: array<bool>

    /** Bodies and globals recorded are ones `start` leads to. */
    ghost predicate Valid()
      reads this, deps
    {
      && Bound(p) && deps.Length == |p.inits|
      && (forall i :: i in seen ==> i < |p.decls| && Runs(p, Typed, start, i))
      && (forall k :: 0 <= k < |pending| ==> pending[k] in seen)
      && (forall g :: 0 <= g < deps.Length && deps[g] ==> Reads(p, Typed, start, g))
    }

    /** All that `node` leads to is recorded or queued. */
    ghost predicate Handled(node: Node)
      requires NodeBound(p, node) && deps.Length == |p.inits|
      reads this, deps
    {
      && (node.GlobalRef? ==> deps[node.g])
      && forall i: nat :: Calls(p, Typed, node, i) ==> i in seen
    }

    ghost predicate AllHandled(nodes: seq<Node>)
      requires NodesBound(p, nodes) && deps.Length == |p.inits|
      reads this, deps
    {
      forall k :: 0 <= k < |nodes| ==> Handled(nodes[k])
    }

    /** Bodies seen and no longer waiting have been walked. */
    ghost predicate Walked()
      requires Valid()
      reads this, deps
    {
      forall i :: i in seen && i !in pending ==> AllHandled(p.decls[i].nodes)
    }

    ghost function Unseen(): set<nat>
      reads this
    {
      set i: nat | i < |p.decls| && i !in seen
    }

    constructor (p: Program, start: seq<Node>)
      requires Bound(p)
      ensures this.p == p && this.start == start && Valid() && Walked() && fresh(deps) && pending == []
    {
      this.p, this.start := p, start;
      seen, pending := {}, [];
      deps := new bool[|p.inits|](_ => false);
    }

    /** queue_body */
    method Queue(i: nat)
      requires Valid() && i < |p.decls| && Runs(p, Typed, start, i)
      modifies this
      ensures Valid() && seen == old(seen) + {i}
      ensures pending == if i in old(seen) then old(pending) else old(pending) + [i]
    {
      if i in seen { return; }
      seen := seen + {i};
      pending := pending + [i];
    }

    /** What one node or a list of nodes may change: more recorded, new bodies queued at the end. */
    twostate predicate Extends()
      reads this, deps
    {
      && old(seen) <= seen && old(pending) <= pending && (seen == old(seen) ==> pending == old(pending))
      && (forall i :: i in seen && i !in old(seen) ==> i in pending)
      && (forall g :: 0 <= g < deps.Length && old(deps[g]) ==> deps[g])
    }

    /** go_visit */
    method VisitNode(ghost nodes: seq<Node>, ghost k: nat, node: Node)
      requires Valid() && k < |nodes| && nodes[k] == node && NodesBound(p, nodes) && Running(p, start, nodes)
      modifies this, deps
      ensures Valid() && Extends() && Handled(node)
    {
      match node
      case GlobalRef(g) =>
        RunningReads(p, start, nodes, g);
        deps[g] := true;
      case FuncRef(f) =>
        assert Calls(p, Typed, nodes[k], f);
        RunsCalled(p, Typed, start, nodes, k, f);
        Queue(f);
      case _ =>
        QueueMethods(nodes, k, node);
    }

    /** queue_methods */
    method QueueMethods(ghost nodes: seq<Node>, ghost k: nat, node: Node)
      requires Valid() && k < |nodes| && nodes[k] == node && NodesBound(p, nodes) && Running(p, start, nodes)
      modifies this
      ensures Valid() && Extends() && forall j: nat :: Calls(p, Typed, node, j) ==> j in seen
    {
      for i := 0 to |p.decls|
        invariant Valid() && Extends()
        invariant forall j: nat :: j < i && Calls(p, Typed, node, j) ==> j in seen
      {
        QueueIfCalled(nodes, k, node, i);
      }
    }

    method QueueIfCalled(ghost nodes: seq<Node>, ghost k: nat, node: Node, i: nat)
      requires Valid() && k < |nodes| && nodes[k] == node && NodesBound(p, nodes) && Running(p, start, nodes) && i < |p.decls|
      modifies this
      ensures Valid() && old(seen) <= seen && (Calls(p, Typed, node, i) ==> i in seen)
      ensures (seen == old(seen) && pending == old(pending)) || (i !in old(seen) && seen == old(seen) + {i} && pending == old(pending) + [i])
    {
      if Calls(p, Typed, node, i) {
        RunsCalled(p, Typed, start, nodes, k, i);
        Queue(i);
      }
    }

    method VisitAll(nodes: seq<Node>)
      requires Valid() && NodesBound(p, nodes) && Running(p, start, nodes)
      modifies this, deps
      ensures Valid() && Extends() && AllHandled(nodes)
    {
      for k := 0 to |nodes|
        invariant Valid() && Extends() && AllHandled(nodes[..k])
      {
        VisitNode(nodes, k, nodes[k]);
      }
      assert nodes[..|nodes|] == nodes;
    }

    /** One round of the loop of global_deps. */
    method DrainOne()
      requires Valid() && Walked() && NodesBound(p, start) && AllHandled(start) && pending != []
      modifies this, deps
      ensures Valid() && Walked() && AllHandled(start)
      ensures Unseen() < old(Unseen()) || (Unseen() == old(Unseen()) && |pending| < old(|pending|))
    {
      var i := pending[|pending| - 1];
      pending := pending[..|pending| - 1];
      assert forall j :: j in old(pending) && j != i ==> j in pending;
      label popped:
      VisitAll(p.decls[i].nodes);
      HandledGrows@popped(start);
      forall j | j in seen && j !in pending
        ensures AllHandled(p.decls[j].nodes)
      {
        if j != i { HandledGrows@popped(p.decls[j].nodes); }
      }
      if seen != old(seen) {
        var n :| n in seen && n !in old(seen);
        assert n in old(Unseen()) && n !in Unseen();
      }
    }

    twostate lemma HandledGrows(nodes: seq<Node>)
      requires NodesBound(p, nodes) && deps.Length == |p.inits| && old(AllHandled(nodes)) && Extends()
      ensures AllHandled(nodes)
    {
      forall k | 0 <= k < |nodes|
        ensures Handled(nodes[k])
      {
        assert old(Handled(nodes[k]));
      }
    }

    /** The loop of global_deps. */
    method Drain()
      requires Valid() && Walked() && NodesBound(p, start) && AllHandled(start)
      modifies this, deps
      ensures Valid() && Walked() && AllHandled(start) && pending == []
    {
      while |pending| > 0
        invariant Valid() && Walked() && AllHandled(start)
        decreases Unseen(), |pending|
      {
        DrainOne();
      }
    }
  }

  ghost predicate Running(p: Program, start: seq<Node>, nodes: seq<Node>) {
    nodes == start || exists i: nat :: i < |p.decls| && nodes == p.decls[i].nodes && Runs(p, Typed, start, i)
  }

  lemma RunningReads(p: Program, start: seq<Node>, nodes: seq<Node>, g: nat)
    requires Running(p, start, nodes) && GlobalRef(g) in nodes
    ensures Reads(p, Typed, start, g)
  {
  }

  /** The row of one global: exactly the globals its initializer reads once receiver types are known. */
  method TypedDeps(p: Program, init: seq<Node>) returns (row: seq<bool>)
    requires Bound(p) && NodesBound(p, init)
    ensures |row| == |p.inits| && forall g: nat :: g < |row| ==> (row[g] <==> Reads(p, Typed, init, g))
    ensures forall g: nat :: g < |row| ==> (row[g] <==> MayRead(p, Typed, init, g))
  {
    var w := new TypedWalk(p, init);
    w.VisitAll(init);
    w.Drain();
    row := w.deps[..];
    forall g: nat | g < |row| && Reads(p, Typed, init, g)
      ensures row[g]
    {
      AllRead(w, g);
    }
    forall g: nat
      ensures Reads(p, Typed, init, g) <==> MayRead(p, Typed, init, g)
    {
      ReadsExact(p, Typed, init, g);
    }
  }

  lemma AllRead(w: TypedWalk, g: nat)
    requires w.Valid() && w.Walked() && NodesBound(w.p, w.start) && w.AllHandled(w.start) && w.pending == []
    requires g < |w.p.inits| && Reads(w.p, Typed, w.start, g)
    ensures w.deps[g]
  {
    if GlobalRef(g) in w.start {
      HandledRead(w, w.start, g);
    } else {
      var i: nat :| i < |w.p.decls| && Runs(w.p, Typed, w.start, i) && GlobalRef(g) in w.p.decls[i].nodes;
      AllSeen(w, i);
      HandledRead(w, w.p.decls[i].nodes, g);
    }
  }

  lemma HandledRead(w: TypedWalk, nodes: seq<Node>, g: nat)
    requires w.deps.Length == |w.p.inits| && NodesBound(w.p, nodes) && w.AllHandled(nodes) && GlobalRef(g) in nodes && g < w.deps.Length
    ensures w.deps[g]
  {
    var k :| 0 <= k < |nodes| && nodes[k] == GlobalRef(g);
    assert w.Handled(nodes[k]);
  }

  lemma AllSeen(w: TypedWalk, i: nat)
    requires w.Valid() && w.Walked() && NodesBound(w.p, w.start) && w.AllHandled(w.start) && w.pending == []
    requires Runs(w.p, Typed, w.start, i)
    ensures i in w.seen
  {
    forall j | 0 <= j < |w.p.decls| && CallsFrom(w.p, Typed, w.start, j)
      ensures j in w.seen
    {
      var k :| 0 <= k < |w.start| && Calls(w.p, Typed, w.start[k], j);
      assert w.Handled(w.start[k]);
    }
    forall u, j | 0 <= u < |w.p.decls| && u in w.seen && 0 <= j < |w.p.decls| && CallsFrom(w.p, Typed, w.p.decls[u].nodes, j)
      ensures j in w.seen
    {
      var nodes := w.p.decls[u].nodes;
      assert w.AllHandled(nodes);
      var k :| 0 <= k < |nodes| && Calls(w.p, Typed, nodes[k], j);
      assert w.Handled(nodes[k]);
    }
    RunsStays(w.p, Typed, w.start, w.seen, i);
  }
}
