/**
 iron_global_init_order's search on its arrays: a bool matrix of dependencies, a state and a resume
 position per global and a stack of n slots.
 */
module DfsSearch {
  import opened Graph
  import opened DfsOrder
  import PostOrder

  const NEW := 0
  const OPEN := 1
  const DONE := 2

  /** dep[i][j]: the initializer of global i reads global j. */
  ghost function EdgesOf(dep: seq<seq<bool>>): Edges
    requires Square(dep)
  {
    set i: nat, j: nat | i < |dep| && j < |dep| && dep[i][j] :: (i, j)
  }

  ghost predicate Square(dep: seq<seq<bool>>) {
    forall i :: 0 <= i < |dep| ==> |dep[i]| == |dep|
  }

  /** The arrays hold the snapshot `s`. */
  ghost predicate Holds(s: Dfs, n: nat, state: seq<int>, stack: seq<nat>, sp: nat, next: seq<nat>, reported: seq<bool>) {
    && |state| == |stack| == |next| == |reported| == n && sp <= n
    && s.stack == stack[..sp] && s.next == next
    && (forall v :: 0 <= v < n ==> NEW <= state[v] <= DONE && (state[v] == OPEN <==> v in s.stack) && (state[v] == DONE <==> v in s.order))
    && (forall v :: 0 <= v < n ==> (reported[v] <==> v in s.reported))
  }

  /** The globals not entered yet. */
  ghost function Unseen(n: nat, s: Dfs): set<nat> {
    set v: nat | v < n && v !in s.stack && v !in s.order
  }

  method FirstDep(row: seq<bool>, from: nat) returns (d: nat)
    requires from <= |row|
    ensures from <= d <= |row| && (d < |row| ==> row[d]) && forall e :: from <= e < d ==> !row[e]
  {
    d := from;
    while d < |row| && !row[d]
      invariant from <= d <= |row| && forall e :: from <= e < d ==> !row[e]
    {
      d := d + 1;
    }
  }

  lemma FirstIsFound(dep: seq<seq<bool>>, s: Dfs, d: nat)
    requires Square(dep) && Shape(|dep|, s) && s.stack != [] && Top(s) < |dep| && s.next[Top(s)] <= d <= |dep|
    requires (d < |dep| ==> dep[Top(s)][d]) && forall e :: s.next[Top(s)] <= e < d ==> !dep[Top(s)][e]
    ensures d < |dep| ==> Found(EdgesOf(dep), |dep|, s, d)
    ensures d == |dep| ==> forall e :: s.next[Top(s)] <= e < |dep| ==> (Top(s), e) !in EdgesOf(dep)
  {
  }

  class Search {
    const dep: seq<seq<bool>>
    const state: array<int>
    const stack: array<nat>
    const next: array<nat>
    const reported: array<bool>
    var sp: nat
    var order: seq<nat>
    var cycles: nat
    ghost var reports: set<nat>
    ghost const r: Edges

    ghost function Snap(): Dfs
      requires sp <= stack.Length
      reads this, stack, next
    {
      Dfs(stack[..sp], next[..], order, reports, cycles)
    }

    /** The arrays agree with each other. */
    ghost predicate Consistent()
      reads this, state, stack, next, reported
    {
      && Square(dep) && r == EdgesOf(dep) && sp <= stack.Length && stack != next
      && Holds(Snap(), |dep|, state[..], stack[..], sp, next[..], reported[..])
    }

    ghost predicate Valid()
      reads this, state, stack, next, reported
    {
      Consistent() && Inv(r, |dep|, Snap())
    }

    constructor (dep: seq<seq<bool>>)
      requires Square(dep)
      ensures this.dep == dep && r == EdgesOf(dep) && Valid() && sp == 0 && order == []
      ensures fresh(state) && fresh(stack) && fresh(next) && fresh(reported)
    {
      this.dep := dep;
      r := EdgesOf(dep);
      var n := |dep|;
      state := new int[n](_ => NEW);
      stack := new nat[n](_ => 0);
      next := new nat[n](_ => 0);
      reported := new bool[n](_ => false);
      sp, order, cycles, reports := 0, [], 0, {};
    }

    method EnterGlobal(d: nat)
      requires Consistent() && d < |dep| && sp < |dep| && d !in stack[..sp] && d !in order
      modifies this`sp, state, stack, next
      ensures Consistent() && Snap() == Enter(old(Snap()), d)
    {
      state[d] := OPEN;
      next[d] := 0;
      stack[sp] := d;
      sp := sp + 1;
      assert stack[..sp] == old(stack[..sp]) + [d];
    }

    method AdvanceTop(d: nat)
      requires Consistent() && sp > 0 && stack[sp - 1] < |dep|
      modifies next
      ensures Consistent() && Snap() == Advance(old(Snap()), d)
    {
      next[stack[sp - 1]] := d + 1;
    }

    method ReportCycle(d: nat)
      requires Consistent() && d < |dep|
      modifies this`cycles, this`reports, reported
      ensures Consistent() && Snap() == Report(old(Snap()), d)
    {
      reported[d] := true;
      reports := reports + {d};
      cycles := cycles + 1;
    }

    method FinishTop()
      requires Consistent() && sp > 0 && stack[sp - 1] < |dep| && NoDup(stack[..sp])
      modifies this`sp, this`order, state
      ensures Consistent() && Snap() == Leave(old(Snap()))
    {
      var g := stack[sp - 1];
      state[g] := DONE;
      order := order + [g];
      sp := sp - 1;
      assert old(stack[..sp]) == stack[..sp] + [g];
    }

    /** The next dependency of the top, or |dep|. */
    method NextDep() returns (d: nat)
      requires Consistent() && Shape(|dep|, Snap()) && sp > 0
      ensures d <= |dep|
      ensures d < |dep| ==> Found(r, |dep|, Snap(), d)
      ensures d == |dep| ==> forall e :: Snap().next[Top(Snap())] <= e < |dep| ==> (Top(Snap()), e) !in r
    {
      var g := stack[sp - 1];
      assert g == Top(Snap()) && g in Snap().stack;
      d := FirstDep(dep[g], next[g]);
      FirstIsFound(dep, Snap(), d);
    }

    /** The top has no dependency left. */
    method Finish()
      requires Valid() && sp > 0
      requires forall e :: Snap().next[Top(Snap())] <= e < |dep| ==> (Top(Snap()), e) !in r
      modifies this`sp, this`order, state
      ensures Valid() && Snap() == Leave(old(Snap()))
    {
      LeaveKeeps(r, |dep|, Snap());
      FinishTop();
    }

    /** The next dependency is new. */
    method Push(d: nat)
      requires Valid() && sp > 0 && Found(r, |dep|, Snap(), d) && d !in order && d !in stack[..sp]
      modifies this`sp, state, stack, next
      ensures Valid() && Snap() == Enter(Advance(old(Snap()), d), d)
    {
      ghost var s := Snap();
      ghost var s' := Enter(Advance(s, d), d);
      assert Below(s.stack, |dep|) && s.stack[sp - 1] == stack[sp - 1];
      assert sp < |dep| && Inv(r, |dep|, s') by { PushKeeps(r, |dep|, s, d); }
      PassAndEnter(d);
      assert Snap() == s';
    }

    method PassAndEnter(d: nat)
      requires Consistent() && d < |dep| && 0 < sp < |dep| && stack[sp - 1] < |dep| && d !in order && d !in stack[..sp]
      modifies this`sp, state, stack, next
      ensures Consistent() && Snap() == Enter(Advance(old(Snap()), d), d)
    {
      AdvanceTop(d);
      EnterGlobal(d);
    }

    /** It is open on the stack. */
    method Meet(d: nat)
      requires Valid() && sp > 0 && Found(r, |dep|, Snap(), d) && d in stack[..sp] && d !in reports
      modifies this`cycles, this`reports, next, reported
      ensures Valid() && Snap() == Report(Advance(old(Snap()), d), d)
    {
      ghost var s := Snap();
      ghost var s' := Report(Advance(s, d), d);
      assert Below(s.stack, |dep|) && s.stack[sp - 1] == stack[sp - 1];
      assert Inv(r, |dep|, s') by { ReportKeeps(r, |dep|, s, d); }
      PassAndReport(d);
      assert Snap() == s';
    }

    method PassAndReport(d: nat)
      requires Consistent() && d < |dep| && sp > 0 && stack[sp - 1] < |dep|
      modifies this`cycles, this`reports, next, reported
      ensures Consistent() && Snap() == Report(Advance(old(Snap()), d), d)
    {
      AdvanceTop(d);
      ReportCycle(d);
    }

    /** It is finished or reported. */
    method Pass(d: nat)
      requires Valid() && sp > 0 && Found(r, |dep|, Snap(), d) && (d in order || d in reports)
      modifies next
      ensures Valid() && Snap() == Advance(old(Snap()), d)
    {
      AdvanceKeeps(r, |dep|, Snap(), d);
      AdvanceTop(d);
    }

    /** One round of the inner loop: the top of the stack meets its next dependency or is finished. */
    method Step()
      requires Valid() && sp > 0
      modifies this, state, stack, next, reported
      ensures Valid() && Stepped(r, |dep|, old(Snap()), Snap())
    {
      var d := NextDep();
      if d == |dep| {
        Finish();
      } else if state[d] == NEW {
        Push(d);
      } else if state[d] == OPEN && !reported[d] {
        Meet(d);
      } else {
        Pass(d);
      }
    }

    /** The stack has grown from `root` on top of `before`, and what is left to do ends with `goal`. */
    ghost predicate Searching(root: nat, before: seq<nat>, goal: PostOrder.Post)
      reads this, state, stack, next, reported
    {
      Valid() && From(root, before, Snap(), Sorted(r)) && PostOrder.Remaining(r, |dep|, Snap()) == goal
    }

    /** The root is entered on the empty stack; its visit is what is left to do. */
    method Begin(root: nat)
      requires Valid() && sp == 0 && root < |dep| && root !in order
      requires Sorted(r) ==> |order| == root
      modifies this`sp, state, stack, next
      ensures Searching(root, old(order), PostOrder.Visit(r, |dep|, root, PostOrder.PostOf(old(Snap()))))
    {
      RootKeeps(r, |dep|, Snap(), root);
      PostOrder.EnterRemains(r, |dep|, Snap(), root);
      EnterGlobal(root);
    }

    /** A step, which brings the search closer to its end. */
    method Advances(root: nat, ghost before: seq<nat>, ghost goal: PostOrder.Post)
      requires Searching(root, before, goal) && sp > 0
      modifies this, state, stack, next, reported
      ensures Searching(root, before, goal) && Progress(|dep|, old(Snap()), Snap())
    {
      ghost var s := Snap();
      Step();
      StepProgress(r, |dep|, s, Snap());
      StepFrom(r, |dep|, s, Snap(), root, before);
      StepRemains(r, |dep|, s, Snap());
    }

    /** The search from one root, until its stack is empty again. */
    method Visit(root: nat)
      requires Valid() && sp == 0 && root < |dep| && root !in order
      requires Sorted(r) ==> |order| == root
      modifies this, state, stack, next, reported
      ensures Valid() && sp == 0 && root in order && old(order) <= order
      ensures Sorted(r) ==> |order| == root + 1
      ensures PostOrder.PostOf(Snap()) == PostOrder.Visit(r, |dep|, root, PostOrder.PostOf(old(Snap())))
    {
      ghost var before := order;
      ghost var goal := PostOrder.Visit(r, |dep|, root, PostOrder.PostOf(Snap()));
      Begin(root);
      while sp > 0
        invariant Searching(root, before, goal)
        decreases Unseen(|dep|, Snap()), sp, Left(|dep|, Snap())
      {
        Advances(root, before, goal);
      }
    }

    /** The first `k` globals have been roots. */
    ghost predicate Searched(k: nat)
      reads this, state, stack, next, reported
    {
      && Valid() && sp == 0 && k <= |dep|
      && (forall v :: 0 <= v < k ==> v in order)
      && (Sorted(r) ==> |order| == k)
      && PostOrder.PostOf(Snap()) == PostOrder.Roots(r, |dep|, k)
    }

    /** Global k as the next root, unless it is finished already. */
    method Root(k: nat)
      requires Searched(k) && k < |dep|
      modifies this, state, stack, next, reported
      ensures Searched(k + 1)
    {
      ghost var p := PostOrder.PostOf(Snap());
      if state[k] == NEW {
        assert k !in p.seen;
        Visit(k);
        assert PostOrder.PostOf(Snap()) == PostOrder.Roots(r, |dep|, k + 1);
        forall v | 0 <= v < k
          ensures v in order
        {
          assert v in old(order);
        }
      } else {
        assert k in order && k in p.seen;
      }
    }
  }

  /** The stack grows from `root` on top of an order that only grows. */
  ghost predicate From(root: nat, order: seq<nat>, s: Dfs, sorted: bool) {
    && order <= s.order
    && (if s.stack == [] then root in s.order else s.stack[0] == root)
    && (sorted ==> |s.order| + |s.stack| == root + 1)
  }

  /** One of the four things a step can do. */
  ghost predicate Stepped(r: Edges, n: nat, s: Dfs, s': Dfs) {
    && Shape(n, s) && s.stack != []
    && (|| (s' == Leave(s) && forall e :: s.next[Top(s)] <= e < n ==> (Top(s), e) !in r)
        || (exists d: nat :: Found(r, n, s, d) && d < n && d !in s.stack && d !in s.order && s' == Enter(Advance(s, d), d))
        || (exists d: nat :: Found(r, n, s, d) && d in s.stack && s' == Report(Advance(s, d), d))
        || (exists d: nat :: Found(r, n, s, d) && (d in s.stack || d in s.order) && s' == Advance(s, d)))
  }

  ghost function Left(n: nat, s: Dfs): int {
    if s.stack != [] && Top(s) < |s.next| then n - s.next[Top(s)] else 0
  }

  /** What each step brings closer to the end. */
  ghost predicate Progress(n: nat, s: Dfs, s': Dfs) {
    var a, b := Unseen(n, s), Unseen(n, s');
    || b < a
    || (b == a && |s'.stack| < |s.stack|)
    || (b == a && |s'.stack| == |s.stack| && Left(n, s') < Left(n, s))
  }

  lemma PushProgress(n: nat, s: Dfs, d: nat)
    requires Shape(n, s) && s.stack != [] && d < n && d !in s.stack && d !in s.order
    ensures Unseen(n, Enter(Advance(s, d), d)) < Unseen(n, s)
  {
    assert Top(s) in s.stack;
    assert d in Unseen(n, s);
  }

  lemma LeaveProgress(n: nat, s: Dfs)
    requires Shape(n, s) && s.stack != []
    ensures Unseen(n, Leave(s)) == Unseen(n, s)
  {
  }

  lemma StepProgress(r: Edges, n: nat, s: Dfs, s': Dfs)
    requires Stepped(r, n, s, s')
    ensures Progress(n, s, s')
  {
    if s' == Leave(s) {
      LeaveProgress(n, s);
    } else if d: nat :| Found(r, n, s, d) && d < n && d !in s.stack && d !in s.order && s' == Enter(Advance(s, d), d) {
      PushProgress(n, s, d);
    } else {
      assert Unseen(n, s') == Unseen(n, s);
    }
  }

  lemma StepFrom(r: Edges, n: nat, s: Dfs, s': Dfs, root: nat, order: seq<nat>)
    requires Stepped(r, n, s, s') && From(root, order, s, Sorted(r)) && Inv(r, n, s) && Inv(r, n, s')
    ensures From(root, order, s', Sorted(r))
  {
  }

  /** No step changes what the search ends with. */
  lemma StepRemains(r: Edges, n: nat, s: Dfs, s': Dfs)
    requires Stepped(r, n, s, s') && Inv(r, n, s) && Inv(r, n, s')
    ensures PostOrder.Remaining(r, n, s') == PostOrder.Remaining(r, n, s)
  {
    if s' == Leave(s) && forall e :: s.next[Top(s)] <= e < n ==> (Top(s), e) !in r {
      PostOrder.LeaveRemains(r, n, s);
    } else if d: nat :| Found(r, n, s, d) && d < n && d !in s.stack && d !in s.order && s' == Enter(Advance(s, d), d) {
      PostOrder.PushRemains(r, n, s, d);
    } else if d: nat :| Found(r, n, s, d) && d in s.stack && s' == Report(Advance(s, d), d) {
      PostOrder.AdvanceRemains(r, n, s, d);
    } else {
      var d: nat :| Found(r, n, s, d) && (d in s.stack || d in s.order) && s' == Advance(s, d);
      PostOrder.AdvanceRemains(r, n, s, d);
    }
  }

  /** The initialization order: every global exactly once, as the plain recursion places them, and declaration
      order kept otherwise; counted are the globals on which one depends that does not come after them. No cycle
      is counted exactly when the dependency relation is acyclic, and then each global follows all it depends on.
      A list that is in dependency order already comes back unchanged. */
  method GlobalInitOrder(dep: seq<seq<bool>>) returns (order: seq<nat>, cycles: nat)
    requires Square(dep)
    ensures IsOrder(order, |dep|)
    ensures order == PostOrder.Roots(EdgesOf(dep), |dep|, |dep|).order && PostOrder.Kept(EdgesOf(dep), order)
    ensures cycles == |LateTargets(EdgesOf(dep), |dep|, order)|
    ensures cycles == 0 <==> Acyclic(EdgesOf(dep))
    ensures Acyclic(EdgesOf(dep)) ==> Respects(EdgesOf(dep), order)
    ensures Sorted(EdgesOf(dep)) ==> cycles == 0 && Counts(order)
  {
    var search := new Search(dep);
    for root := 0 to |dep|
      invariant search.Searched(root) && search.dep == dep
      invariant fresh(search) && fresh(search.state) && fresh(search.stack) && fresh(search.next) && fresh(search.reported)
    {
      search.Root(root);
    }
    order, cycles := search.order, search.cycles;
    FullOrder(order, |dep|);
    SearchResult(search.r, |dep|, search.Snap());
    PostOrder.RootsKept(search.r, |dep|, |dep|);
  }

  lemma FullOrder(order: seq<nat>, n: nat)
    requires NoDup(order) && Below(order, n) && forall v :: 0 <= v < n ==> v in order
    ensures IsOrder(order, n)
  {
    Pigeonhole(order, n);
    Covering(order, n);
  }
}
