/**
 The initialization order of globals by iterative depth-first search (src/analyzer/global_order.c):
 an explicit stack, a state and a resume position per global, and an order that grows as globals
 are finished. A dependency on a global still open on the stack is a cycle.

 The steps of the search are functions on snapshots; what every step keeps is proved here, and the
 method of module DfsSearch performs them on arrays.
 */
module DfsOrder {
  import opened Graph

  /** A snapshot: the open globals from the root inwards, where each resumes its dependency list,
      the finished globals in order, the globals reported, and the count of reports. */
  datatype Dfs = Dfs(stack: seq<nat>, next: seq<nat>, order: seq<nat>, reported: set<nat>, cycles: nat)

  /** The list is already in dependency order. */
  ghost predicate Sorted(r: Edges) {
    forall e :: e in r ==> e.1 < e.0
  }

  /** The dependencies of `v` before `upTo` are finished, reported, or `child`. */
  ghost predicate Looked(r: Edges, v: nat, upTo: nat, order: seq<nat>, reported: set<nat>, child: nat) {
    forall d :: (v, d) in r && d < upTo ==> d in order || d in reported || d == child
  }

  /** Respects, except where a dependency was reported. */
  ghost predicate RespectsBut(r: Edges, order: seq<nat>, reported: set<nat>) {
    forall k, j :: 0 <= k < |order| && (order[k], j) in r ==> j in order[..k] || j in reported
  }

  /** `d` is not finished before `k`. */
  ghost predicate Trails(order: seq<nat>, k: nat, d: nat) {
    exists i :: 0 <= i < |order| && order[i] == k && d !in order[..i]
  }

  /** `d` is open on the stack at or below `k`. */
  ghost predicate Beneath(stack: seq<nat>, k: nat, d: nat) {
    exists i, j :: 0 <= i <= j < |stack| && stack[i] == d && stack[j] == k
  }

  /** A global reported is a dependency of one that is not finished after it. */
  ghost predicate Witnessed(r: Edges, s: Dfs, d: nat) {
    exists k :: (k, d) in r && (Trails(s.order, k, d) || Beneath(s.stack, k, d))
  }

  /** The globals on which something depends that does not come after them. */
  ghost function LateTargets(r: Edges, n: nat, order: seq<nat>): set<nat> {
    set d: nat | d < n && Late(r, order, d)
  }

  ghost predicate Late(r: Edges, order: seq<nat>, d: nat) {
    exists k :: (k, d) in r && Trails(order, k, d)
  }

  /** The global entered from position k of the stack (n if none). */
  function Child(stack: seq<nat>, k: nat, n: nat): nat {
    if k + 1 < |stack| then stack[k + 1] else n
  }

  ghost predicate Shape(n: nat, s: Dfs) {
    && |s.next| == n
    && NoDup(s.stack) && Below(s.stack, n) && NoDup(s.order) && Below(s.order, n)
    && forall v :: v in s.stack ==> v !in s.order && s.next[v] <= n
  }

  ghost predicate StackLooked(r: Edges, n: nat, s: Dfs)
    requires Shape(n, s)
  {
    forall k :: 0 <= k < |s.stack| ==> Looked(r, s.stack[k], s.next[s.stack[k]], s.order, s.reported, Child(s.stack, k, n))
  }

  ghost predicate Counts(order: seq<nat>) {
    forall k :: 0 <= k < |order| ==> order[k] == k
  }

  /** What every step keeps. */
  ghost predicate Inv(r: Edges, n: nat, s: Dfs) {
    && Within(r, n) && Shape(n, s) && IsPath(r, s.stack)
    && s.cycles == |s.reported| && StackLooked(r, n, s) && RespectsBut(r, s.order, s.reported)
    && (forall d :: d in s.reported ==> d < n && Witnessed(r, s, d))
    && (s.cycles > 0 ==> !Acyclic(r))
    && (Sorted(r) ==> s.cycles == 0 && |s.stack| <= 1 && Counts(s.order) && (s.stack != [] ==> s.stack[0] == |s.order|))
  }

  function Top(s: Dfs): nat
    requires s.stack != []
  {
    s.stack[|s.stack| - 1]
  }

  function Enter(s: Dfs, d: nat): Dfs
    requires d < |s.next|
  {
    s.(next := s.next[d := 0], stack := s.stack + [d])
  }

  function Advance(s: Dfs, d: nat): Dfs
    requires s.stack != [] && Top(s) < |s.next|
  {
    s.(next := s.next[Top(s) := d + 1])
  }

  function Report(s: Dfs, d: nat): Dfs {
    s.(reported := s.reported + {d}, cycles := s.cycles + 1)
  }

  function Leave(s: Dfs): Dfs
    requires s.stack != []
  {
    s.(order := s.order + [Top(s)], stack := s.stack[..|s.stack| - 1])
  }

  /** `d` is the first dependency of the top from its resume position on. */
  ghost predicate Found(r: Edges, n: nat, s: Dfs, d: nat)
    requires Shape(n, s) && s.stack != []
  {
    (Top(s), d) in r && s.next[Top(s)] <= d < n && forall e :: s.next[Top(s)] <= e < d ==> (Top(s), e) !in r
  }

  /** Reports stay witnessed while the order grows and open globals stay or are finished from the top. */
  lemma WitnessStays(r: Edges, s: Dfs, s': Dfs, d: nat)
    requires Witnessed(r, s, d) && s.order <= s'.order && s.stack <= s'.stack
    ensures Witnessed(r, s', d)
  {
    var k :| (k, d) in r && (Trails(s.order, k, d) || Beneath(s.stack, k, d));
    if Trails(s.order, k, d) {
      var i :| 0 <= i < |s.order| && s.order[i] == k && d !in s.order[..i];
      assert s'.order[i] == k && s'.order[..i] == s.order[..i];
    } else {
      var i, j :| 0 <= i <= j < |s.stack| && s.stack[i] == d && s.stack[j] == k;
      assert s'.stack[i] == d && s'.stack[j] == k;
    }
  }

  lemma WitnessLeaves(r: Edges, n: nat, s: Dfs, d: nat)
    requires Shape(n, s) && s.stack != [] && Witnessed(r, s, d)
    ensures Witnessed(r, Leave(s), d)
  {
    var s' := Leave(s);
    var k :| (k, d) in r && (Trails(s.order, k, d) || Beneath(s.stack, k, d));
    if Trails(s.order, k, d) {
      var i :| 0 <= i < |s.order| && s.order[i] == k && d !in s.order[..i];
      assert s'.order[i] == k && s'.order[..i] == s.order[..i];
    } else {
      var i, j :| 0 <= i <= j < |s.stack| && s.stack[i] == d && s.stack[j] == k;
      if j < |s.stack| - 1 {
        assert s'.stack[i] == d && s'.stack[j] == k;
      } else {
        assert d in s.stack;
        assert s'.order[|s.order|] == k && s'.order[..|s.order|] == s.order;
      }
    }
  }

  lemma RootKeeps(r: Edges, n: nat, s: Dfs, root: nat)
    requires Inv(r, n, s) && s.stack == [] && root < n && root !in s.order
    requires Sorted(r) ==> |s.order| == root
    ensures Inv(r, n, Enter(s, root))
  {
    var s' := Enter(s, root);
    assert s'.stack == [root];
    forall d | d in s.reported
      ensures Witnessed(r, s', d)
    {
      WitnessStays(r, s, s', d);
    }
  }

  /** A dependency that is open closes a cycle with the stack above it. */
  lemma OpenIsCycle(r: Edges, n: nat, s: Dfs, d: nat)
    requires Shape(n, s) && IsPath(r, s.stack) && s.stack != [] && (Top(s), d) in r && d in s.stack
    ensures !Acyclic(r)
  {
    var k :| 0 <= k < |s.stack| && s.stack[k] == d;
    var p := s.stack[k..] + [d];
    forall i | 0 <= i < |p| - 1
      ensures (p[i], p[i + 1]) in r
    {
      var m := k + i;
      if m + 1 < |s.stack| { assert (s.stack[m], s.stack[m + 1]) in r; }
    }
    assert IsCycle(r, p);
  }

  /** The resume position moves past `d`, which is finished, reported, or the child about to be entered. */
  lemma AdvanceLooked(r: Edges, n: nat, s: Dfs, d: nat, k: nat, child: nat, reported: set<nat>)
    requires Shape(n, s) && StackLooked(r, n, s) && s.stack != [] && Found(r, n, s, d) && k < |s.stack|
    requires if k == |s.stack| - 1 then d in s.order || d in reported || child == d else child == Child(s.stack, k, n)
    requires Within(r, n) && s.reported <= reported
    ensures Looked(r, s.stack[k], Advance(s, d).next[s.stack[k]], s.order, reported, child)
  {
    assert Looked(r, s.stack[k], s.next[s.stack[k]], s.order, s.reported, Child(s.stack, k, n));
  }

  lemma AdvanceKeeps(r: Edges, n: nat, s: Dfs, d: nat)
    requires Inv(r, n, s) && s.stack != [] && Found(r, n, s, d) && (d in s.order || d in s.reported)
    ensures Inv(r, n, Advance(s, d))
  {
    var s' := Advance(s, d);
    forall k | 0 <= k < |s.stack|
      ensures Looked(r, s.stack[k], s'.next[s.stack[k]], s.order, s.reported, Child(s.stack, k, n))
    {
      AdvanceLooked(r, n, s, d, k, Child(s.stack, k, n), s.reported);
    }
    forall e | e in s.reported
      ensures Witnessed(r, s', e)
    {
      WitnessStays(r, s, s', e);
    }
  }

  /** A sorted list never meets a dependency that is not finished. */
  lemma SortedMeetsFinished(r: Edges, n: nat, s: Dfs, d: nat)
    requires Inv(r, n, s) && s.stack != [] && Found(r, n, s, d) && Sorted(r)
    ensures d in s.order
  {
    assert d < s.stack[0] == |s.order|;
    assert s.order[d] == d;
  }

  lemma ReportKeeps(r: Edges, n: nat, s: Dfs, d: nat)
    requires Inv(r, n, s) && s.stack != [] && Found(r, n, s, d) && d in s.stack && d !in s.reported
    ensures Inv(r, n, Report(Advance(s, d), d))
  {
    OpenIsCycle(r, n, s, d);
    if Sorted(r) { SortedMeetsFinished(r, n, s, d); }
    ReportLooked(r, n, s, d);
    ReportWitnessed(r, n, s, d);
  }

  lemma ReportLooked(r: Edges, n: nat, s: Dfs, d: nat)
    requires Within(r, n) && Shape(n, s) && StackLooked(r, n, s) && s.stack != [] && Found(r, n, s, d)
    ensures var s' := Report(Advance(s, d), d); Shape(n, s') && StackLooked(r, n, s')
  {
    var s' := Report(Advance(s, d), d);
    forall k | 0 <= k < |s.stack|
      ensures Looked(r, s.stack[k], s'.next[s.stack[k]], s.order, s'.reported, Child(s.stack, k, n))
    {
      AdvanceLooked(r, n, s, d, k, Child(s.stack, k, n), s'.reported);
    }
  }

  lemma ReportWitnessed(r: Edges, n: nat, s: Dfs, d: nat)
    requires Shape(n, s) && s.stack != [] && (Top(s), d) in r && d in s.stack && forall e :: e in s.reported ==> Witnessed(r, s, e)
    ensures forall e :: e in s.reported + {d} ==> Witnessed(r, Report(Advance(s, d), d), e)
  {
    var s' := Report(Advance(s, d), d);
    forall e | e in s.reported + {d}
      ensures Witnessed(r, s', e)
    {
      if e in s.reported {
        WitnessStays(r, s, s', e);
      } else {
        var i :| 0 <= i < |s.stack| && s.stack[i] == d;
        assert s'.stack[i] == d && s'.stack[|s.stack| - 1] == Top(s);
      }
    }
  }

  /** A new dependency is entered; the stack has room for it. */
  lemma PushKeeps(r: Edges, n: nat, s: Dfs, d: nat)
    requires Inv(r, n, s) && s.stack != [] && Found(r, n, s, d) && d !in s.order && d !in s.stack
    ensures |s.stack| < n && Inv(r, n, Enter(Advance(s, d), d))
  {
    if Sorted(r) { SortedMeetsFinished(r, n, s, d); }
    Pigeonhole(s.stack + [d], n);
    var s' := Enter(Advance(s, d), d);
    forall k | 0 <= k < |s'.stack| - 1
      ensures (s'.stack[k], s'.stack[k + 1]) in r
    {
      if k + 1 < |s.stack| { assert (s.stack[k], s.stack[k + 1]) in r; }
    }
    PushLooked(r, n, s, d);
    forall e | e in s.reported
      ensures Witnessed(r, s', e)
    {
      WitnessStays(r, s, s', e);
    }
  }

  lemma PushLooked(r: Edges, n: nat, s: Dfs, d: nat)
    requires Within(r, n) && Shape(n, s) && StackLooked(r, n, s) && s.stack != [] && Found(r, n, s, d) && d !in s.order && d !in s.stack
    ensures var s' := Enter(Advance(s, d), d); Shape(n, s') && StackLooked(r, n, s')
  {
    var s' := Enter(Advance(s, d), d);
    forall k | 0 <= k < |s'.stack|
      ensures Looked(r, s'.stack[k], s'.next[s'.stack[k]], s.order, s.reported, Child(s'.stack, k, n))
    {
      if k < |s.stack| {
        assert s'.stack[k] == s.stack[k] && s.stack[k] in s.stack && s.stack[k] != d;
        AdvanceLooked(r, n, s, d, k, Child(s'.stack, k, n), s.reported);
      }
    }
  }

  lemma LeaveShape(r: Edges, n: nat, s: Dfs)
    requires Shape(n, s) && s.stack != [] && IsPath(r, s.stack)
    ensures Shape(n, Leave(s)) && IsPath(r, Leave(s).stack)
  {
    var top := |s.stack| - 1;
    var rest := s.stack[..top];
    assert s.stack[top] in s.stack;
    forall v | v in rest
      ensures v !in s.order + [s.stack[top]]
    {
      var k :| 0 <= k < |rest| && rest[k] == v;
      assert s.stack[k] == v && v in s.stack;
    }
    forall k | 0 <= k < |rest| - 1
      ensures (rest[k], rest[k + 1]) in r
    {
      assert (s.stack[k], s.stack[k + 1]) in r;
    }
  }

  /** A global whose child finishes has that dependency finished. */
  lemma LeaveLooked(r: Edges, n: nat, s: Dfs, k: nat)
    requires Shape(n, s) && s.stack != [] && k < |s.stack| - 1 && Below(s.stack, n)
    requires Looked(r, s.stack[k], s.next[s.stack[k]], s.order, s.reported, Child(s.stack, k, n))
    ensures Looked(r, s.stack[k], s.next[s.stack[k]], Leave(s).order, s.reported, Child(Leave(s).stack, k, n))
  {
  }

  /** The top has no dependency left: it is finished and joins the order. */
  lemma LeaveKeeps(r: Edges, n: nat, s: Dfs)
    requires Inv(r, n, s) && s.stack != [] && forall e :: s.next[Top(s)] <= e < n ==> (Top(s), e) !in r
    ensures Inv(r, n, Leave(s))
  {
    var top := |s.stack| - 1;
    var s' := Leave(s);
    LeaveShape(r, n, s);
    assert Looked(r, s.stack[top], s.next[s.stack[top]], s.order, s.reported, Child(s.stack, top, n));
    LeaveRespects(r, n, s, s.stack[top]);
    forall k | 0 <= k < |s'.stack|
      ensures Looked(r, s'.stack[k], s'.next[s'.stack[k]], s'.order, s.reported, Child(s'.stack, k, n))
    {
      LeaveLooked(r, n, s, k);
    }
    forall d | d in s.reported
      ensures Witnessed(r, s', d)
    {
      WitnessLeaves(r, n, s, d);
    }
  }

  lemma LeaveRespects(r: Edges, n: nat, s: Dfs, g: nat)
    requires Within(r, n) && RespectsBut(r, s.order, s.reported) && forall d :: (g, d) in r ==> d in s.order || d in s.reported
    ensures RespectsBut(r, s.order + [g], s.reported)
  {
    var o := s.order + [g];
    forall k, j | 0 <= k < |o| && (o[k], j) in r
      ensures j in o[..k] || j in s.reported
    {
      if k < |s.order| { assert o[..k] == s.order[..k]; } else { assert o[..k] == s.order; }
    }
  }

  /** What the finished search has established. A report was made for exactly the globals on which something
      depends that does not come after them, each once. */
  lemma SearchResult(r: Edges, n: nat, s: Dfs)
    requires Inv(r, n, s) && s.stack == [] && |s.order| == n
    ensures IsOrder(s.order, n)
    ensures s.cycles == |LateTargets(r, n, s.order)|
    ensures s.cycles == 0 <==> Acyclic(r)
    ensures Acyclic(r) ==> Respects(r, s.order)
    ensures Sorted(r) ==> s.cycles == 0 && Counts(s.order)
  {
    assert s.reported == LateTargets(r, n, s.order) by {
      forall d | d in s.reported
        ensures d in LateTargets(r, n, s.order)
      {
        var k :| (k, d) in r && (Trails(s.order, k, d) || Beneath(s.stack, k, d));
      }
      forall d | d in LateTargets(r, n, s.order)
        ensures d in s.reported
      {
        var k :| (k, d) in r && Trails(s.order, k, d);
        var i :| 0 <= i < |s.order| && s.order[i] == k && d !in s.order[..i];
      }
    }
    if s.cycles == 0 {
      assert |s.reported| == 0;
      forall k, j | 0 <= k < |s.order| && (s.order[k], j) in r
        ensures j in s.order[..k]
      {
        assert j !in s.reported;
      }
      OrderedIsAcyclic(r, s.order, n);
    }
  }
}
