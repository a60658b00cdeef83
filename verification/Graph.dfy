/** Dependency relations over 0..n-1, cycles, and orders. */
module Graph {

  /** edge (i, j): i depends on j. */
  type Edges = set<(nat, nat)>

  ghost predicate IsPath(r: Edges, p: seq<nat>) {
    forall k :: 0 <= k < |p| - 1 ==> (p[k], p[k + 1]) in r
  }

  ghost predicate IsCycle(r: Edges, p: seq<nat>) {
    |p| >= 2 && p[0] == p[|p| - 1] && IsPath(r, p)
  }

  ghost predicate Acyclic(r: Edges) {
    forall p :: !IsCycle(r, p)
  }

  ghost predicate NoDup(s: seq<nat>) {
    forall i, j :: 0 <= i < j < |s| ==> s[i] != s[j]
  }

  ghost predicate Below(s: seq<nat>, n: nat) {
    forall i :: 0 <= i < |s| ==> s[i] < n
  }

  /** Every vertex below n exactly once. */
  ghost predicate IsOrder(s: seq<nat>, n: nat) {
    |s| == n && NoDup(s) && Below(s, n)
  }

  /** Whatever an element of the order depends on stands before it. */
  ghost predicate Respects(r: Edges, s: seq<nat>) {
    forall k, j :: 0 <= k < |s| && (s[k], j) in r ==> j in s[..k]
  }

  ghost predicate Within(r: Edges, n: nat) {
    forall e :: e in r ==> e.0 < n && e.1 < n
  }

  lemma {:induction false} Pigeonhole(s: seq<nat>, n: nat)
    requires NoDup(s) && Below(s, n)
    ensures |s| <= n
    decreases n
  {
    if n == 0 {
    } else if n - 1 in s {
      var i :| 0 <= i < |s| && s[i] == n - 1;
      var s' := s[..i] + s[i + 1..];
      Pigeonhole(s', n - 1);
    } else {
      Pigeonhole(s, n - 1);
    }
  }

  lemma {:induction false} Covering(s: seq<nat>, n: nat)
    requires forall v :: 0 <= v < n ==> v in s
    ensures |s| >= n
    decreases n
  {
    if n > 0 {
      var last := n - 1;
      assert last in s;
      var i :| 0 <= i < |s| && s[i] == last;
      var s' := s[..i] + s[i + 1..];
      forall v | 0 <= v < n - 1
        ensures v in s'
      {
        assert v in s;
        var k :| 0 <= k < |s| && s[k] == v;
        assert s'[if k < i then k else k - 1] == v;
      }
      Covering(s', n - 1);
    }
  }

  /** A full duplicate-free list contains every vertex. */
  lemma OrderContains(s: seq<nat>, n: nat, v: nat)
    requires IsOrder(s, n) && v < n
    ensures v in s
  {
    if v !in s { Pigeonhole(s + [v], n); }
  }

  /** Along a path inside an order that respects the relation, positions go down. */
  lemma {:induction false} PathDescends(r: Edges, s: seq<nat>, p: seq<nat>, k: nat)
    requires Respects(r, s) && NoDup(s) && IsPath(r, p) && |p| >= 2 && k < |s| && s[k] == p[0]
    ensures exists m :: 0 <= m < k && s[m] == p[|p| - 1]
    decreases |p|
  {
    assert (p[0], p[1]) in r;
    var m :| 0 <= m < k && s[m] == p[1];
    if |p| > 2 {
      var q := p[1..];
      assert IsPath(r, q);
      PathDescends(r, s, q, m);
    }
  }

  /** A relation with an order that respects it has no cycle. */
  lemma OrderedIsAcyclic(r: Edges, s: seq<nat>, n: nat)
    requires IsOrder(s, n) && Respects(r, s) && Within(r, n)
    ensures Acyclic(r)
  {
    forall p | IsCycle(r, p)
      ensures false
    {
      assert (p[0], p[1]) in r;
      OrderContains(s, n, p[0]);
      var k :| 0 <= k < |s| && s[k] == p[0];
      PathDescends(r, s, p, k);
    }
  }

  lemma AcyclicSubset(r: Edges, r': Edges)
    requires r <= r' && Acyclic(r')
    ensures Acyclic(r)
  {
    forall p | IsCycle(r, p)
      ensures false
    {
      assert IsCycle(r', p);
    }
  }

  ghost predicate HasNext(r: Edges, s: set<nat>, v: nat) {
    exists w :: w in s && (v, w) in r
  }

  /** Walking on within `s` for `m` steps, each vertex of `s` having a successor in `s`. */
  lemma {:induction false} Walk(r: Edges, s: set<nat>, m: nat) returns (p: seq<nat>)
    requires s != {} && forall v :: v in s ==> HasNext(r, s, v)
    ensures |p| == m + 1 && IsPath(r, p) && forall k :: 0 <= k < |p| ==> p[k] in s
    decreases m
  {
    if m == 0 {
      var v :| v in s;
      p := [v];
    } else {
      var q := Walk(r, s, m - 1);
      var v := q[|q| - 1];
      assert HasNext(r, s, v);
      var w :| w in s && (v, w) in r;
      p := q + [w];
      forall k | 0 <= k < |p| - 1
        ensures (p[k], p[k + 1]) in r
      {
        if k < |q| - 1 { assert (q[k], q[k + 1]) in r; }
      }
    }
  }

  /** If every vertex of a nonempty set below n has a successor in the set, there is a cycle. */
  lemma StuckIsCyclic(r: Edges, s: set<nat>, n: nat)
    requires s != {} && (forall v :: v in s ==> v < n) && forall v :: v in s ==> HasNext(r, s, v)
    ensures !Acyclic(r)
  {
    var p := Walk(r, s, n);
    if NoDup(p) { Pigeonhole(p, n); }
    var i, j :| 0 <= i < j < |p| && p[i] == p[j];
    var c := p[i..j + 1];
    assert IsPath(r, c);
    assert IsCycle(r, c);
  }

  /** `v` is reached from a start by a path, possibly of one vertex. */
  ghost predicate Reach(r: Edges, starts: set<nat>, v: nat) {
    exists p :: Leads(r, starts, v, p)
  }

  ghost predicate Leads(r: Edges, starts: set<nat>, v: nat, p: seq<nat>) {
    |p| > 0 && p[0] in starts && p[|p| - 1] == v && IsPath(r, p)
  }

  lemma ReachStart(r: Edges, starts: set<nat>, v: nat)
    requires v in starts
    ensures Reach(r, starts, v)
  {
    assert Leads(r, starts, v, [v]);
  }

  lemma ReachStep(r: Edges, starts: set<nat>, u: nat, v: nat)
    requires Reach(r, starts, u) && (u, v) in r
    ensures Reach(r, starts, v)
  {
    var p :| Leads(r, starts, u, p);
    var q := p + [v];
    forall k | 0 <= k < |q| - 1
      ensures (q[k], q[k + 1]) in r
    {
      if k < |p| - 1 { assert (p[k], p[k + 1]) in r; }
    }
    assert Leads(r, starts, v, q);
  }

  lemma ReachMono(r: Edges, starts: set<nat>, r': Edges, starts': set<nat>, v: nat)
    requires r <= r' && starts <= starts' && Reach(r, starts, v)
    ensures Reach(r', starts', v)
  {
    var p :| Leads(r, starts, v, p);
    assert Leads(r', starts', v, p);
  }

  ghost predicate Closed(r: Edges, c: set<nat>) {
    forall u, v :: (u, v) in r && u in c ==> v in c
  }

  lemma {:induction false} PathStays(r: Edges, c: set<nat>, p: seq<nat>, k: nat)
    requires Closed(r, c) && IsPath(r, p) && k < |p| && p[0] in c
    ensures p[k] in c
  {
    if k > 0 {
      PathStays(r, c, p, k - 1);
      assert (p[k - 1], p[k - 1 + 1]) in r;
    }
  }

  /** A closed set with the starts in it contains all that is reached. */
  lemma ReachStays(r: Edges, starts: set<nat>, c: set<nat>, v: nat)
    requires Closed(r, c) && starts <= c && Reach(r, starts, v)
    ensures v in c
  {
    var p :| Leads(r, starts, v, p);
    PathStays(r, c, p, |p| - 1);
  }
}
