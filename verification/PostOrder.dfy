/**
 The order the search of module DfsSearch gives, by plain recursion: a global is visited by visiting its
 dependencies in declaration order and then placing it; the roots are all globals in declaration order. The
 stack of the search is what this recursion has left to do.
 */
module PostOrder {
  import opened Graph
  import opened DfsOrder

  /** The globals visited, finished or not, and the finished ones in order. */
  datatype Post = Post(seen: set<nat>, order: seq<nat>)

  ghost function Unseen(n: nat, s: Post): set<nat> {
    set v: nat | v < n && v !in s.seen
  }

  ghost function Opened(n: nat, g: nat, s: Post): (s': Post)
    requires g < n && g !in s.seen
    ensures Unseen(n, s') < Unseen(n, s)
  {
    assert g in Unseen(n, s);
    s.(seen := s.seen + {g})
  }

  /** Visits what `g` depends on, from `d` on. */
  ghost function Scan(r: Edges, n: nat, g: nat, d: nat, s: Post): (s': Post)
    requires d <= n
    ensures s.seen <= s'.seen && s.order <= s'.order
    decreases Unseen(n, s), n - d
  {
    if d == n then s
    else if (g, d) in r && d !in s.seen then Scan(r, n, g, d + 1, Visit(r, n, d, s))
    else Scan(r, n, g, d + 1, s)
  }

  ghost function Visit(r: Edges, n: nat, g: nat, s: Post): (s': Post)
    requires g < n && g !in s.seen
    ensures s.seen + {g} <= s'.seen && s.order <= s'.order && g in s'.order
    decreases Unseen(n, s), 0
  {
    var inner := Scan(r, n, g, 0, Opened(n, g, s));
    inner.(order := inner.order + [g])
  }

  /** The first `k` globals as roots. */
  ghost function Roots(r: Edges, n: nat, k: nat): (s: Post)
    requires k <= n
  {
    if k == 0 then Post({}, [])
    else
      var s := Roots(r, n, k - 1);
      if k - 1 in s.seen then s else Visit(r, n, k - 1, s)
  }

  /** What is left to do when globals are open on the stack: the rest of the dependencies of each, from the
      top down, and its place in the order. */
  ghost function Rest(r: Edges, n: nat, stack: seq<nat>, next: seq<nat>, s: Post): Post
    requires forall k :: 0 <= k < |stack| ==> stack[k] < |next| && next[stack[k]] <= n
    decreases |stack|
  {
    if stack == [] then s
    else
      var top := |stack| - 1;
      var g := stack[top];
      var inner := Scan(r, n, g, next[g], s);
      Rest(r, n, stack[..top], next, inner.(order := inner.order + [g]))
  }

  ghost function PostOf(s: Dfs): Post {
    Post((set v | v in s.stack) + (set v | v in s.order), s.order)
  }

  ghost function Remaining(r: Edges, n: nat, s: Dfs): Post
    requires Shape(n, s)
  {
    assert forall k :: 0 <= k < |s.stack| ==> s.stack[k] in s.stack;
    Rest(r, n, s.stack, s.next, PostOf(s))
  }

  // ---------------------------------------------------------------- every step of the search leaves the same to do

  lemma {:induction false} ScanSkips(r: Edges, n: nat, g: nat, d: nat, e: nat, s: Post)
    requires d <= e <= n && forall m :: d <= m < e ==> (g, m) !in r
    ensures Scan(r, n, g, d, s) == Scan(r, n, g, e, s)
    decreases e - d
  {
    if d < e { ScanSkips(r, n, g, d + 1, e, s); }
  }

  lemma {:induction false} RestFrame(r: Edges, n: nat, stack: seq<nat>, next: seq<nat>, next': seq<nat>, s: Post)
    requires |next| == |next'| && forall k :: 0 <= k < |stack| ==> stack[k] < |next| && next[stack[k]] == next'[stack[k]] <= n
    ensures Rest(r, n, stack, next, s) == Rest(r, n, stack, next', s)
    decreases |stack|
  {
    if stack != [] {
      var top := |stack| - 1;
      var inner := Scan(r, n, stack[top], next[stack[top]], s);
      RestFrame(r, n, stack[..top], next, next', inner.(order := inner.order + [stack[top]]));
    }
  }

  /** The top has no dependency left. */
  lemma LeaveRemains(r: Edges, n: nat, s: Dfs)
    requires Shape(n, s) && s.stack != [] && Shape(n, Leave(s))
    requires forall e :: s.next[Top(s)] <= e < n ==> (Top(s), e) !in r
    ensures Remaining(r, n, Leave(s)) == Remaining(r, n, s)
  {
    var g := Top(s);
    assert g in s.stack;
    ScanSkips(r, n, g, s.next[g], n, PostOf(s));
    assert s.stack == Leave(s).stack + [g];
    assert PostOf(Leave(s)).seen == PostOf(s).seen;
  }

  /** The part of the stack below the top does not see where the top resumes. */
  lemma TopMoves(r: Edges, n: nat, s: Dfs, d: nat, p: Post)
    requires Shape(n, s) && s.stack != [] && d < n
    ensures Shape(n, Advance(s, d))
    ensures var top := |s.stack| - 1;
            Rest(r, n, s.stack[..top], Advance(s, d).next, p) == Rest(r, n, s.stack[..top], s.next, p)
  {
    var top := |s.stack| - 1;
    assert forall k :: 0 <= k < top ==> s.stack[k] in s.stack && s.stack[k] != Top(s);
    RestFrame(r, n, s.stack[..top], s.next, Advance(s, d).next, p);
  }

  /** The next dependency has been visited before. */
  lemma AdvanceRemains(r: Edges, n: nat, s: Dfs, d: nat)
    requires Shape(n, s) && s.stack != [] && Found(r, n, s, d) && (d in s.stack || d in s.order)
    ensures Shape(n, Advance(s, d)) && Remaining(r, n, Advance(s, d)) == Remaining(r, n, s)
  {
    var g := Top(s);
    assert g in s.stack;
    ScanSkips(r, n, g, s.next[g], d, PostOf(s));
    var inner := Scan(r, n, g, d + 1, PostOf(s));
    TopMoves(r, n, s, d, inner.(order := inner.order + [g]));
  }

  /** The next dependency is new: visiting it is what is left to do above the stack. */
  lemma PushRemains(r: Edges, n: nat, s: Dfs, d: nat)
    requires Shape(n, s) && s.stack != [] && Found(r, n, s, d) && d !in s.stack && d !in s.order
    ensures var s' := Enter(Advance(s, d), d); Shape(n, s') && Remaining(r, n, s') == Remaining(r, n, s)
  {
    var g, p := Top(s), PostOf(s);
    assert g in s.stack;
    ScanSkips(r, n, g, s.next[g], d, p);
    var there := Visit(r, n, d, p);
    var inner := Scan(r, n, g, d + 1, there);
    TopMoves(r, n, s, d, inner.(order := inner.order + [g]));
    var a := Advance(s, d);
    EnterRemains(r, n, a, d);
  }

  /** Entering a global leaves its visit to be done before the rest. */
  lemma EnterRemains(r: Edges, n: nat, s: Dfs, d: nat)
    requires Shape(n, s) && d < n && d !in s.stack && d !in s.order
    ensures Shape(n, Enter(s, d)) && Remaining(r, n, Enter(s, d)) == Rest(r, n, s.stack, s.next, Visit(r, n, d, PostOf(s)))
  {
    var s' := Enter(s, d);
    assert s'.stack[..|s.stack|] == s.stack;
    assert PostOf(s').seen == PostOf(s).seen + {d};
    RestFrame(r, n, s.stack, s.next, s'.next, Visit(r, n, d, PostOf(s)));
  }

  // ---------------------------------------------------------------- what the order keeps

  /** A path from a dependency of `g` is a path from `g`. */
  lemma ReachBefore(r: Edges, g: nat, d: nat, x: nat)
    requires (g, d) in r && Reach(r, {d}, x)
    ensures Reach(r, {g}, x)
  {
    var p :| Leads(r, {d}, x, p);
    var q := [g] + p;
    forall k | 0 <= k < |q| - 1
      ensures (q[k], q[k + 1]) in r
    {
      if k > 0 { assert (p[k - 1], p[k]) in r; }
    }
    assert Leads(r, {g}, x, q);
  }

  /** Only what `g` needs is placed while its dependencies are visited. */
  lemma {:induction false} ScanReach(r: Edges, n: nat, g: nat, d: nat, s: Post, x: nat)
    requires d <= n && x in Scan(r, n, g, d, s).order && x !in s.order
    ensures Reach(r, {g}, x)
    decreases Unseen(n, s), n - d
  {
    if (g, d) in r && d !in s.seen {
      var there := Visit(r, n, d, s);
      if x in there.order {
        VisitReach(r, n, d, s, x);
        ReachBefore(r, g, d, x);
      } else {
        ScanReach(r, n, g, d + 1, there, x);
      }
    } else {
      ScanReach(r, n, g, d + 1, s, x);
    }
  }

  lemma {:induction false} VisitReach(r: Edges, n: nat, g: nat, s: Post, x: nat)
    requires g < n && g !in s.seen && x in Visit(r, n, g, s).order && x !in s.order
    ensures Reach(r, {g}, x)
    decreases Unseen(n, s), 0
  {
    if x == g {
      ReachStart(r, {g}, g);
    } else {
      ScanReach(r, n, g, 0, Opened(n, g, s), x);
    }
  }

  /** Whatever is left open by a visit was open before. */
  lemma {:induction false} ScanFinishes(r: Edges, n: nat, g: nat, d: nat, s: Post, v: nat)
    requires d <= n && v in Scan(r, n, g, d, s).seen && v !in Scan(r, n, g, d, s).order
    ensures v in s.seen && v !in s.order
    decreases Unseen(n, s), n - d
  {
    if d < n {
      if (g, d) in r && d !in s.seen {
        ScanFinishes(r, n, g, d + 1, Visit(r, n, d, s), v);
        VisitFinishes(r, n, d, s, v);
      } else {
        ScanFinishes(r, n, g, d + 1, s, v);
      }
    }
  }

  lemma {:induction false} VisitFinishes(r: Edges, n: nat, g: nat, s: Post, v: nat)
    requires g < n && g !in s.seen && v in Visit(r, n, g, s).seen && v !in Visit(r, n, g, s).order
    ensures v in s.seen && v !in s.order
    decreases Unseen(n, s), 0
  {
    ScanFinishes(r, n, g, 0, Opened(n, g, s), v);
  }

  /** Behind the first `k` roots all of them are placed, and nothing but what one of them needs. */
  lemma {:induction false} RootsPlaced(r: Edges, n: nat, k: nat)
    requires k <= n
    ensures forall v :: v in Roots(r, n, k).seen ==> v in Roots(r, n, k).order
    ensures forall v :: 0 <= v < k ==> v in Roots(r, n, k).order
    ensures forall x :: x in Roots(r, n, k).order ==> Needed(r, x, k)
  {
    if k > 0 {
      RootsPlaced(r, n, k - 1);
      var s, s' := Roots(r, n, k - 1), Roots(r, n, k);
      assert s.order <= s'.order && k - 1 in s'.order;
      forall v | 0 <= v < k
        ensures v in s'.order
      {
        if v < k - 1 { assert v in s.order; }
      }
      forall v | v in s'.seen
        ensures v in s'.order
      {
        if k - 1 !in s.seen && v !in s'.order { VisitFinishes(r, n, k - 1, s, v); }
      }
      forall x | x in s'.order
        ensures Needed(r, x, k)
      {
        if x in s.order {
          var root: nat :| root < k - 1 && Reach(r, {root}, x);
        } else {
          VisitReach(r, n, k - 1, s, x);
        }
      }
    }
  }

  /** `x` is one of the first `k` globals or needed by one of them. */
  ghost predicate Needed(r: Edges, x: nat, k: nat) {
    exists root: nat :: root < k && Reach(r, {root}, x)
  }

  /** Declaration order is kept otherwise: what stands before a global is declared earlier, or needed by it or by
      one declared earlier. */
  ghost predicate Kept(r: Edges, order: seq<nat>) {
    forall i, j :: 0 <= i <= j < |order| ==> Needed(r, order[i], order[j] + 1)
  }

  lemma PlacedOnce(before: seq<nat>, order: seq<nat>, j: nat)
    requires before <= order && NoDup(order) && |before| <= j < |order|
    ensures order[j] !in before
  {
    assert forall m :: 0 <= m < |before| ==> before[m] == order[m];
  }

  /** What root k - 1 places is declared no earlier than it. */
  lemma LaterPlaced(r: Edges, n: nat, k: nat, i: nat, j: nat)
    requires 0 < k <= n && NoDup(Roots(r, n, k).order) && i <= j < |Roots(r, n, k).order| && |Roots(r, n, k - 1).order| <= j
    ensures Needed(r, Roots(r, n, k).order[i], Roots(r, n, k).order[j] + 1)
  {
    RootsPlaced(r, n, k - 1);
    RootsPlaced(r, n, k);
    var before, order := Roots(r, n, k - 1).order, Roots(r, n, k).order;
    PlacedOnce(before, order, j);
    assert order[i] in order;
    var root: nat :| root < k && Reach(r, {root}, order[i]);
  }

  lemma {:induction false} RootsKept(r: Edges, n: nat, k: nat)
    requires k <= n && NoDup(Roots(r, n, k).order)
    ensures Kept(r, Roots(r, n, k).order)
  {
    if k > 0 {
      var before, order := Roots(r, n, k - 1).order, Roots(r, n, k).order;
      assert before <= order;
      assert NoDup(before) by {
        assert forall i :: 0 <= i < |before| ==> before[i] == order[i];
      }
      RootsKept(r, n, k - 1);
      forall i, j | 0 <= i <= j < |order|
        ensures Needed(r, order[i], order[j] + 1)
      {
        if j < |before| {
          assert order[i] == before[i] && order[j] == before[j];
        } else {
          LaterPlaced(r, n, k, i, j);
        }
      }
    }
  }
}
