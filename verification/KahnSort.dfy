/**
 Ordering globals when names are resolved (src/analyzer/resolve.c): Kahn's algorithm over hard and
 soft edges, taking the earliest declared ready global each step, and the reordering of the
 declaration list that follows it.
 */
module KahnSort {
  import opened Graph

  ghost predicate Lists(n: nat, deps: seq<seq<nat>>) {
    |deps| == n && forall i :: 0 <= i < n ==> Below(deps[i], n)
  }

  /** The edges the sort respects: a soft self-edge is ignored. */
  ghost predicate Needs(hard: seq<seq<nat>>, soft: seq<seq<nat>>, useSoft: bool, i: nat, j: nat) {
    && i < |hard| == |soft|
    && (j in hard[i] || (useSoft && j in soft[i] && j != i))
  }

  ghost function EdgesOf(n: nat, hard: seq<seq<nat>>, soft: seq<seq<nat>>, useSoft: bool): Edges
    requires Lists(n, hard) && Lists(n, soft)
  {
    set i: nat, j: nat | i < n && j < n && Needs(hard, soft, useSoft, i, j) :: (i, j)
  }

  /** All that `i` needs has been placed. */
  ghost predicate Ready(r: Edges, i: nat, placed: seq<nat>) {
    forall j :: (i, j) in r ==> j in placed
  }

  /** Each element was the earliest ready one when it was placed. */
  ghost predicate Greedy(r: Edges, order: seq<nat>) {
    forall k, i :: 0 <= k < |order| && 0 <= i < order[k] ==> i in order[..k] || !Ready(r, i, order[..k])
  }

  /** Lexicographic order by declaration index. */
  ghost predicate LexAtMost(a: seq<nat>, b: seq<nat>) {
    a == b || exists k :: 0 <= k < |a| && k < |b| && a[..k] == b[..k] && a[k] < b[k]
  }

  method ListReady(deps: seq<nat>, self: nat, skipSelf: bool, done: array<bool>) returns (ready: bool)
    requires Below(deps, done.Length)
    ensures ready <==> forall k :: 0 <= k < |deps| ==> done[deps[k]] || (skipSelf && deps[k] == self)
  {
    for k := 0 to |deps|
      invariant forall m :: 0 <= m < k ==> done[deps[m]] || (skipSelf && deps[m] == self)
    {
      if !done[deps[k]] && !(skipSelf && deps[k] == self) { return false; }
    }
    return true;
  }

  /** The inner search: the earliest global that is not placed and ready, or n. */
  method Pick(n: nat, hard: seq<seq<nat>>, soft: seq<seq<nat>>, useSoft: bool, done: array<bool>, ghost order: seq<nat>)
    returns (pick: nat)
    requires Lists(n, hard) && Lists(n, soft) && done.Length == n
    requires forall v :: 0 <= v < n ==> (done[v] <==> v in order)
    ensures pick <= n
    ensures pick < n ==> pick !in order && Ready(EdgesOf(n, hard, soft, useSoft), pick, order)
    ensures forall i :: 0 <= i < pick ==> i in order || !Ready(EdgesOf(n, hard, soft, useSoft), i, order)
  {
    ghost var r := EdgesOf(n, hard, soft, useSoft);
    for i := 0 to n
      invariant forall m :: 0 <= m < i ==> m in order || !Ready(r, m, order)
    {
      if !done[i] {
        var ready := ListReady(hard[i], i, false, done);
        if ready && useSoft { ready := ListReady(soft[i], i, true, done); }
        if ready {
          return i;
        } else {
          assert exists j: nat :: (i, j) in r && j !in order;
        }
      }
    }
    return n;
  }

  /** gdep_sort: Kahn's algorithm. */
  method Sort(n: nat, hard: seq<seq<nat>>, soft: seq<seq<nat>>, useSoft: bool) returns (order: seq<nat>)
    requires Lists(n, hard) && Lists(n, soft)
    ensures |order| <= n && NoDup(order) && Below(order, n) && Respects(EdgesOf(n, hard, soft, useSoft), order)
    ensures |order| == n <==> Acyclic(EdgesOf(n, hard, soft, useSoft))
    ensures |order| == n ==> forall p :: IsOrder(p, n) && Respects(EdgesOf(n, hard, soft, useSoft), p) ==> LexAtMost(order, p)
  {
    ghost var r := EdgesOf(n, hard, soft, useSoft);
    var done := new bool[n](_ => false);
    order := [];
    Pigeonhole(order, n);
    while |order| < n
      invariant NoDup(order) && Below(order, n) && |order| <= n && Respects(r, order) && Greedy(r, order)
      invariant forall v :: 0 <= v < n ==> (done[v] <==> v in order)
      decreases n - |order|
    {
      var pick := Pick(n, hard, soft, useSoft, done, order);
      if pick == n {
        Stuck(r, n, order);
        break;
      }
      PlaceKeeps(r, order, pick);
      done[pick] := true;
      order := order + [pick];
    }
    if |order| == n {
      OrderedIsAcyclic(r, order, n);
      forall p | IsOrder(p, n) && Respects(r, p)
        ensures LexAtMost(order, p)
      {
        GreedyIsLeast(r, n, order, p);
      }
    }
  }

  lemma PlaceKeeps(r: Edges, order: seq<nat>, pick: nat)
    requires Respects(r, order) && Greedy(r, order) && Ready(r, pick, order)
    requires forall i :: 0 <= i < pick ==> i in order || !Ready(r, i, order)
    ensures Respects(r, order + [pick]) && Greedy(r, order + [pick])
  {
    var o := order + [pick];
    forall k | 0 <= k < |o|
      ensures o[..k] == if k < |order| then order[..k] else order
    {
    }
  }

  /** Nothing is ready although something is left: the rest contains a cycle. */
  lemma Stuck(r: Edges, n: nat, order: seq<nat>)
    requires Within(r, n) && NoDup(order) && Below(order, n) && |order| < n
    requires forall i :: 0 <= i < n ==> i in order || !Ready(r, i, order)
    ensures !Acyclic(r)
  {
    var rest := set v: nat | v < n && v !in order;
    if forall v :: 0 <= v < n ==> v in order { Covering(order, n); }
    var w :| 0 <= w < n && w !in order;
    assert w in rest;
    forall v | v in rest
      ensures HasNext(r, rest, v)
    {
      var j :| (v, j) in r && j !in order;
      assert j in rest;
    }
    StuckIsCyclic(r, rest, n);
  }

  /** No order that respects the edges comes lexicographically before the greedy one. */
  lemma GreedyIsLeast(r: Edges, n: nat, order: seq<nat>, p: seq<nat>)
    requires IsOrder(order, n) && Greedy(r, order) && IsOrder(p, n) && Respects(r, p)
    ensures LexAtMost(order, p)
  {
    if order != p {
      var k := FirstDifference(order, p);
      assert Ready(r, p[k], p[..k]);
    }
  }

  lemma {:induction false} FirstDifference(a: seq<nat>, b: seq<nat>) returns (k: nat)
    requires |a| == |b| && a != b
    ensures k < |a| && a[k] != b[k] && a[..k] == b[..k]
  {
    k := 0;
    while a[k] == b[k]
      invariant k < |a| && a[..k] == b[..k]
      decreases |a| - k
    {
      k := k + 1;
    }
  }
}
