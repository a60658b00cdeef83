/**
 The two orderings of the globals in sequence: order_global_inits rewrites the declaration list when
 names are resolved (src/analyzer/resolve.c), and iron_global_init_order searches the rewritten list
 once types are known (src/analyzer/global_order.c).
 */
module InitOrder {
  import opened Options
  import opened Graph
  import opened GlobalDeps
  import opened GlobalRuns
  import DfsOrder
  import DfsSearch
  import KahnSort
  import PostOrder
  import GlobalDepWalk

  /** What the first ordering respects: every possible dependency, except that a global may possibly
      read itself. */
  ghost function Expected(p: Program): Edges {
    set e | e in DepEdges(p, Possible) && (e.0 != e.1 || e in DepEdges(p, Certain))
  }

  ghost predicate ReadsItself(p: Program, view: View) {
    exists k: nat :: (k, k) in DepEdges(p, view)
  }

  ghost predicate Least(r: Edges, n: nat, order: seq<nat>) {
    forall q :: IsOrder(q, n) && Respects(r, q) ==> KahnSort.LexAtMost(order, q)
  }

  method Dependencies(p: Program) returns (hard: seq<seq<nat>>, soft: seq<seq<nat>>)
    requires Bound(p)
    ensures KahnSort.Lists(|p.inits|, hard) && KahnSort.Lists(|p.inits|, soft)
    ensures KahnSort.EdgesOf(|p.inits|, hard, soft, true) == Expected(p)
    ensures KahnSort.EdgesOf(|p.inits|, hard, soft, false) == DepEdges(p, Certain)
  {
    hard, soft := [], [];
    for k := 0 to |p.inits|
      invariant |hard| == |soft| == k
      invariant forall i :: 0 <= i < k ==> Below(hard[i], |p.inits|) && Below(soft[i], |p.inits|)
      invariant forall i, g: nat :: 0 <= i < k ==> (g in hard[i] <==> DependsOn(p, Certain, i, g))
      invariant forall i, g: nat :: 0 <= i < k ==> (g in hard[i] || g in soft[i] <==> DependsOn(p, Possible, i, g))
    {
      var h, s := [], [];
      if p.inits[k].Some? {
        h, s := GlobalDepWalk.HardAndSoft(p, p.inits[k].value);
        ReadsBelow(p, p.inits[k].value);
        assert forall j :: 0 <= j < |h| ==> h[j] in h;
        assert forall j :: 0 <= j < |s| ==> s[j] in s;
      }
      hard, soft := hard + [h], soft + [s];
    }
    ViewsNest(p);
  }

  lemma ReadsBelow(p: Program, nodes: seq<Node>)
    requires Bound(p) && NodesBound(p, nodes)
    ensures forall g: nat :: Reads(p, Possible, nodes, g) ==> g < |p.inits|
    ensures forall g: nat :: Reads(p, Certain, nodes, g) ==> g < |p.inits|
  {
  }

  /** order_global_inits: hard and soft edges if they can be met together, else the hard ones, else
      declaration order. */
  method OrderGlobals(p: Program) returns (order: seq<nat>)
    requires Bound(p)
    ensures IsOrder(order, |p.inits|)
    ensures Acyclic(Expected(p)) ==> Respects(Expected(p), order) && Least(Expected(p), |p.inits|, order)
    ensures !Acyclic(Expected(p)) && Acyclic(DepEdges(p, Certain)) ==>
              Respects(DepEdges(p, Certain), order) && Least(DepEdges(p, Certain), |p.inits|, order)
    ensures !Acyclic(DepEdges(p, Certain)) ==> DfsOrder.Counts(order)
  {
    var n := |p.inits|;
    var hard, soft := Dependencies(p);
    HardIsExpected(p);
    order := KahnSort.Sort(n, hard, soft, true);
    if |order| < n {
      order := KahnSort.Sort(n, hard, soft, false);
      if |order| < n { order := seq(n, i requires 0 <= i < n => i); }
   }
  }

  lemma HardIsExpected(p: Program)
    ensures Acyclic(Expected(p)) ==> Acyclic(DepEdges(p, Certain))
  {
    ViewsNest(p);
    if Acyclic(Expected(p)) { AcyclicSubset(DepEdges(p, Certain), Expected(p)); }
  }

  /** The declaration list: the globals, numbered as first declared, among other declarations. */
  datatype TopDecl = Global(index: nat) | Other(id: nat)

  /** The positions of the globals, in list order. */
  ghost predicate IsSlots(decls: seq<TopDecl>, slots: seq<nat>) {
    && Below(slots, |decls|) && (forall a, b :: 0 <= a < b < |slots| ==> slots[a] < slots[b])
    && (forall i :: 0 <= i < |decls| ==> (i in slots <==> decls[i].Global?))
  }

  method Slots(decls: array<TopDecl>) returns (slots: seq<nat>)
    ensures IsSlots(decls[..], slots)
  {
    slots := [];
    for i := 0 to decls.Length
      invariant Below(slots, i) && (forall a, b :: 0 <= a < b < |slots| ==> slots[a] < slots[b])
      invariant forall j :: 0 <= j < i ==> (j in slots <==> decls[j].Global?)
    {
      if decls[i].Global? { slots := slots + [i]; }
    }
  }

  /** The rewriting at the end of order_global_inits: the globals move among their own slots, every
      other declaration stays. */
  method Rewrite(decls: array<TopDecl>, slots: seq<nat>, order: seq<nat>)
    requires IsSlots(decls[..], slots) && IsOrder(order, |slots|)
    modifies decls
    ensures forall k :: 0 <= k < |slots| ==> decls[slots[k]] == old(decls[slots[order[k]]])
    ensures forall i :: 0 <= i < decls.Length && i !in slots ==> decls[i] == old(decls[i])
    ensures IsSlots(decls[..], slots)
  {
    ghost var before := decls[..];
    var sorted := Gather(before, decls, slots, order);
    for k := 0 to |slots|
      invariant Placed(before, slots, sorted, k, decls[..])
    {
      SlotIsGlobal(before, slots, k);
      PlaceNext(before, slots, sorted, k, decls[..]);
      decls[slots[k]] := sorted[k];
    }
  }

  /** The first `k` slots have been rewritten. */
  ghost predicate Placed(before: seq<TopDecl>, slots: seq<nat>, sorted: seq<TopDecl>, k: nat, now: seq<TopDecl>) {
    && |now| == |before| && k <= |slots| == |sorted| && IsSlots(before, slots) && IsSlots(now, slots)
    && (forall m :: 0 <= m < k ==> now[slots[m]] == sorted[m])
    && (forall i :: 0 <= i < |now| && i !in slots ==> now[i] == before[i])
  }

  lemma PlaceNext(before: seq<TopDecl>, slots: seq<nat>, sorted: seq<TopDecl>, k: nat, now: seq<TopDecl>)
    requires Placed(before, slots, sorted, k, now) && k < |slots| && sorted[k].Global? && slots[k] in slots
    ensures Placed(before, slots, sorted, k + 1, now[slots[k] := sorted[k]])
  {
    forall m | 0 <= m < k
      ensures slots[m] < slots[k]
    {
    }
  }

  lemma SlotIsGlobal(decls: seq<TopDecl>, slots: seq<nat>, k: nat)
    requires IsSlots(decls, slots) && k < |slots|
    ensures slots[k] in slots && slots[k] < |decls| && decls[slots[k]].Global?
  {
  }

  method Gather(ghost before: seq<TopDecl>, decls: array<TopDecl>, slots: seq<nat>, order: seq<nat>) returns (sorted: seq<TopDecl>)
    requires before == decls[..] && IsSlots(before, slots) && IsOrder(order, |slots|)
    ensures |sorted| == |slots|
    ensures forall m :: 0 <= m < |slots| ==> sorted[m] == before[slots[order[m]]] && sorted[m].Global?
  {
    sorted := [];
    for k := 0 to |slots|
      invariant |sorted| == k && forall m :: 0 <= m < k ==> sorted[m] == before[slots[order[m]]] && sorted[m].Global?
    {
      SlotIsGlobal(before, slots, order[k]);
      sorted := sorted + [decls[slots[order[k]]]];
    }
  }

  /** The globals stand in the list in the order of their numbers. */
  ghost predicate Declared(decls: seq<TopDecl>, slots: seq<nat>, n: nat) {
    IsSlots(decls, slots) && |slots| == n && forall k :: 0 <= k < n ==> decls[slots[k]] == Global(k)
  }

  /** order_global_inits on the declaration list: the ordered globals in the slots of the globals, every
      other declaration where it was, and no change at all when hard dependencies form a cycle. */
  method OrderGlobalInits(p: Program, decls: array<TopDecl>, ghost at: seq<nat>) returns (order: seq<nat>)
    requires Bound(p) && Declared(decls[..], at, |p.inits|)
    modifies decls
    ensures IsOrder(order, |p.inits|)
    ensures Acyclic(Expected(p)) ==> Respects(Expected(p), order) && Least(Expected(p), |p.inits|, order)
    ensures forall k :: 0 <= k < |at| ==> decls[at[k]] == Global(order[k])
    ensures forall i :: 0 <= i < decls.Length && i !in at ==> decls[i] == old(decls[i])
    ensures !Acyclic(DepEdges(p, Certain)) ==> decls[..] == old(decls[..])
  {
    ghost var before := decls[..];
    var slots := Slots(decls);
    SlotsUnique(before, slots, at);
    order := OrderGlobals(p);
    Rewrite(decls, slots, order);
    InSlots(before, at, order, decls[..]);
    if DfsOrder.Counts(order) { Unmoved(before, at, order, decls[..]); }
  }

  /** The globals stand in the slots as the order says. */
  lemma InSlots(before: seq<TopDecl>, slots: seq<nat>, order: seq<nat>, after: seq<TopDecl>)
    requires Declared(before, slots, |slots|) && IsOrder(order, |slots|) && IsSlots(after, slots)
    requires forall k :: 0 <= k < |slots| ==> after[slots[k]] == before[slots[order[k]]]
    ensures forall k :: 0 <= k < |slots| ==> after[slots[k]] == Global(order[k])
  {
  }

  /** Rewriting the list in the order it has changes nothing. */
  lemma Unmoved(before: seq<TopDecl>, slots: seq<nat>, order: seq<nat>, after: seq<TopDecl>)
    requires IsSlots(before, slots) && IsOrder(order, |slots|) && DfsOrder.Counts(order) && |after| == |before|
    requires forall k :: 0 <= k < |slots| ==> after[slots[k]] == before[slots[order[k]]]
    requires forall i :: 0 <= i < |after| && i !in slots ==> after[i] == before[i]
    ensures after == before
  {
    forall i | 0 <= i < |after|
      ensures after[i] == before[i]
    {
      if i in slots {
        var k :| 0 <= k < |slots| && slots[k] == i;
        assert order[k] == k;
      }
    }
  }

  lemma {:induction false} SlotsUnique(decls: seq<TopDecl>, a: seq<nat>, b: seq<nat>)
    requires IsSlots(decls, a) && IsSlots(decls, b)
    ensures a == b
  {
    if |a| <= |b| {
      SlotsAgree(decls, a, b, |a|);
      SlotsEnd(decls, a, b);
    } else {
      SlotsAgree(decls, b, a, |b|);
      SlotsEnd(decls, b, a);
    }
  }

  lemma SlotsEnd(decls: seq<TopDecl>, a: seq<nat>, b: seq<nat>)
    requires IsSlots(decls, a) && IsSlots(decls, b) && |a| <= |b| && a == b[..|a|]
    ensures a == b
  {
    if |a| < |b| { NextSlot(decls, a, b); }
  }

  lemma NextSlot(decls: seq<TopDecl>, a: seq<nat>, b: seq<nat>)
    requires IsSlots(decls, b) && |a| < |b| && a == b[..|a|]
    ensures b[|a|] in b && b[|a|] !in a
  {
    assert forall m :: 0 <= m < |a| ==> a[m] == b[m];
  }

  lemma {:induction false} SlotsAgree(decls: seq<TopDecl>, a: seq<nat>, b: seq<nat>, k: nat)
    requires IsSlots(decls, a) && IsSlots(decls, b) && k <= |a| <= |b|
    ensures a[..k] == b[..k]
  {
    if k > 0 {
      SlotsAgree(decls, a, b, k - 1);
      assert a[k - 1] in b && b[k - 1] in a;
      var i :| 0 <= i < |b| && b[i] == a[k - 1];
      var j :| 0 <= j < |a| && a[j] == b[k - 1];
      assert forall m :: 0 <= m < k - 1 ==> a[m] == a[..k - 1][m] && b[m] == b[..k - 1][m];
    }
  }

  /** The dependencies among the reordered globals, by their new positions. */
  ghost function Renumbered(r: Edges, order: seq<nat>): Edges {
    set a: nat, b: nat | a < |order| && b < |order| && (order[a], order[b]) in r :: (a, b)
  }

  function Rename(order: seq<nat>, s: seq<nat>): (t: seq<nat>)
    requires Below(s, |order|)
    ensures |t| == |s| && forall k :: 0 <= k < |s| ==> t[k] == order[s[k]]
  {
    if s == [] then [] else [order[s[0]]] + Rename(order, s[1..])
  }

  ghost function Unname(order: seq<nat>, n: nat, s: seq<nat>): (t: seq<nat>)
    requires IsOrder(order, n) && Below(s, n)
    ensures |t| == |s| && Below(t, n) && forall k :: 0 <= k < |s| ==> order[t[k]] == s[k]
  {
    if s == [] then [] else
      OrderContains(order, n, s[0]);
      var i: nat :| i < n && order[i] == s[0];
      [i] + Unname(order, n, s[1..])
  }

  /** Renumbering keeps acyclicity. */
  lemma RenumberedAcyclic(r: Edges, order: seq<nat>, n: nat)
    requires IsOrder(order, n) && Graph.Within(r, n)
    ensures Acyclic(Renumbered(r, order)) <==> Acyclic(r)
  {
    var r' := Renumbered(r, order);
    forall p | IsCycle(r', p) && Acyclic(r)
      ensures false
    {
      PathBelow(r', n, p);
      RenamedCycle(r, order, p);
    }
    forall p | IsCycle(r, p) && Acyclic(r')
      ensures false
    {
      PathBelow(r, n, p);
      UnnamedCycle(r, order, n, p);
    }
  }

  lemma PathBelow(r: Edges, n: nat, p: seq<nat>)
    requires Graph.Within(r, n) && IsPath(r, p) && |p| >= 2
    ensures Below(p, n)
  {
    forall k | 0 <= k < |p|
      ensures p[k] < n
    {
      var j := if k == 0 then 0 else k - 1;
      assert (p[j], p[j + 1]) in r;
    }
  }

  lemma RenamedCycle(r: Edges, order: seq<nat>, p: seq<nat>)
    requires Below(p, |order|) && IsCycle(Renumbered(r, order), p)
    ensures IsCycle(r, Rename(order, p))
  {
    var q := Rename(order, p);
    forall k | 0 <= k < |q| - 1
      ensures (q[k], q[k + 1]) in r
    {
      assert (p[k], p[k + 1]) in Renumbered(r, order);
    }
  }

  lemma UnnamedCycle(r: Edges, order: seq<nat>, n: nat, p: seq<nat>)
    requires IsOrder(order, n) && Below(p, n) && IsCycle(r, p)
    ensures IsCycle(Renumbered(r, order), Unname(order, n, p))
  {
    var q := Unname(order, n, p);
    forall k | 0 <= k < |q| - 1
      ensures (q[k], q[k + 1]) in Renumbered(r, order)
    {
      assert (p[k], p[k + 1]) in r;
    }
    assert order[q[0]] == order[q[|q| - 1]];
  }

  lemma RenamedOrder(order: seq<nat>, n: nat, s: seq<nat>)
    requires IsOrder(order, n) && IsOrder(s, n)
    ensures IsOrder(Rename(order, s), n)
  {
  }

  lemma RenamedRespects(r: Edges, order: seq<nat>, n: nat, s: seq<nat>)
    requires IsOrder(order, n) && IsOrder(s, n) && Graph.Within(r, n) && Respects(Renumbered(r, order), s)
    ensures Respects(r, Rename(order, s))
  {
    var t := Rename(order, s);
    forall k, j | 0 <= k < |t| && (t[k], j) in r
      ensures j in t[..k]
    {
      OrderContains(order, n, j);
      var b: nat :| b < n && order[b] == j;
      assert (s[k], b) in Renumbered(r, order);
      var m :| 0 <= m < k && s[m] == b;
      assert t[..k][m] == j;
    }
  }

  /** A list that respects the relation is sorted once renumbered by position. */
  lemma RespectedIsSorted(r: Edges, order: seq<nat>)
    requires Respects(r, order) && NoDup(order)
    ensures DfsOrder.Sorted(Renumbered(r, order))
  {
    forall e | e in Renumbered(r, order)
      ensures e.1 < e.0
    {
      var m :| 0 <= m < e.0 && order[m] == order[e.1];
    }
  }

  /** With no global reading itself, whatever respects the expected edges respects the later ones. */
  lemma ExpectedCoversTyped(p: Program, order: seq<nat>)
    requires Respects(Expected(p), order) && !ReadsItself(p, Typed)
    ensures Respects(DepEdges(p, Typed), order)
  {
    ViewsNest(p);
    forall e | e in DepEdges(p, Typed)
      ensures e in Expected(p)
    {
      assert (e.0, e.1) in DepEdges(p, Typed);
    }
  }

  /** The matrix of iron_global_init_order, over the rewritten list. */
  method TypedMatrix(p: Program, order: seq<nat>) returns (dep: seq<seq<bool>>)
    requires Bound(p) && IsOrder(order, |p.inits|)
    ensures |dep| == |order| && DfsSearch.Square(dep)
    ensures DfsSearch.EdgesOf(dep) == Renumbered(DepEdges(p, Typed), order)
  {
    var n := |order|;
    dep := [];
    for a := 0 to n
      invariant |dep| == a && forall i :: 0 <= i < a ==> |dep[i]| == n
      invariant forall i, b :: 0 <= i < a && 0 <= b < n ==> (dep[i][b] <==> DependsOn(p, Typed, order[i], order[b]))
    {
      var row := seq(n, _ => false);
      if p.inits[order[a]].Some? {
        var byDecl := GlobalDepWalk.TypedDeps(p, p.inits[order[a]].value);
        row := seq(n, b requires 0 <= b < n => byDecl[order[b]]);
      }
      dep := dep + [row];
    }
    ghost var r := DepEdges(p, Typed);
    forall a: nat, b: nat | a < n && b < n
      ensures dep[a][b] <==> (order[a], order[b]) in r
    {
      assert order[a] < n && order[b] < n;
    }
    MatrixEdges(r, order, dep);
  }

  lemma MatrixEdges(r: Edges, order: seq<nat>, dep: seq<seq<bool>>)
    requires |dep| == |order| && DfsSearch.Square(dep)
    requires forall a: nat, b: nat :: a < |order| && b < |order| ==> (dep[a][b] <==> (order[a], order[b]) in r)
    ensures DfsSearch.EdgesOf(dep) == Renumbered(r, order)
  {
    forall e | e in DfsSearch.EdgesOf(dep)
      ensures e in Renumbered(r, order)
    {
      assert dep[e.0][e.1];
      assert (order[e.0], order[e.1]) in r;
    }
    forall e | e in Renumbered(r, order)
      ensures e in DfsSearch.EdgesOf(dep)
    {
      assert dep[e.0][e.1];
    }
  }

  /** No run of an initializer reads a global that is initialized later, or its own. */
  ghost predicate NoEarlyRead(p: Program, final: seq<nat>) {
    forall k, g: nat :: 0 <= k < |final| && InitReads(p, Typed, final[k], g) ==> g in final[..k]
  }

  /** Each of these globals has a run of its initializer that reads the next, back to the first. */
  ghost predicate ReadCycle(p: Program, q: seq<nat>) {
    |q| >= 2 && q[0] == q[|q| - 1] && forall k :: 0 <= k < |q| - 1 ==> InitReads(p, Typed, q[k], q[k + 1])
  }

  lemma OrderedReads(p: Program, final: seq<nat>)
    requires Respects(DepEdges(p, Typed), final)
    ensures NoEarlyRead(p, final)
  {
    forall k, g: nat | 0 <= k < |final| && InitReads(p, Typed, final[k], g)
      ensures g in final[..k]
    {
      DependsExact(p, Typed, final[k], g);
      assert (final[k], g) in DepEdges(p, Typed);
    }
  }

  lemma CyclicReads(p: Program) returns (q: seq<nat>)
    requires !Acyclic(DepEdges(p, Typed))
    ensures ReadCycle(p, q)
  {
    q :| IsCycle(DepEdges(p, Typed), q);
    forall k | 0 <= k < |q| - 1
      ensures InitReads(p, Typed, q[k], q[k + 1])
    {
      assert (q[k], q[k + 1]) in DepEdges(p, Typed);
      DependsExact(p, Typed, q[k], q[k + 1]);
    }
  }

  /** The recursion of PostOrder over the list `order` gives `final`. */
  ghost predicate SearchOf(p: Program, order: seq<nat>, final: seq<nat>) {
    var post := PostOrder.Roots(Renumbered(DepEdges(p, Typed), order), |order|, |order|).order;
    Below(post, |order|) && final == Rename(order, post)
  }

  /** Both orderings in sequence. `order` is the rewritten declaration list, `final` the order in which
      globals are initialized. */
  method InitializationOrder(p: Program) returns (order: seq<nat>, final: seq<nat>, cycles: nat)
    requires Bound(p)
    ensures IsOrder(order, |p.inits|) && IsOrder(final, |p.inits|) && SearchOf(p, order, final)
    ensures cycles == 0 ==> NoEarlyRead(p, final)
    ensures cycles > 0 ==> exists q :: ReadCycle(p, q)
    ensures cycles == 0 <==> Acyclic(DepEdges(p, Typed))
    ensures cycles == 0 ==> Respects(DepEdges(p, Typed), final)
    ensures Acyclic(Expected(p)) ==> (cycles == 0 <==> !ReadsItself(p, Typed))
    ensures Acyclic(Expected(p)) && cycles == 0 ==> final == order && Least(Expected(p), |p.inits|, final)
    ensures !Acyclic(Expected(p)) && Acyclic(DepEdges(p, Certain)) ==> Least(DepEdges(p, Certain), |p.inits|, order)
    ensures !Acyclic(DepEdges(p, Certain)) ==> cycles > 0 && DfsOrder.Counts(order)
  {
    var n := |p.inits|;
    ghost var r := DepEdges(p, Typed);
    order := OrderGlobals(p);
    var dep := TypedMatrix(p, order);
    var found;
    found, cycles := DfsSearch.GlobalInitOrder(dep);
    final := Rename(order, found);
    RenumberedAcyclic(r, order, n);
    RenamedOrder(order, n, found);
    if cycles == 0 { RenamedRespects(r, order, n, found); }
    Composition(p, order);
    if DfsOrder.Sorted(Renumbered(r, order)) { assert final == order; }
    if cycles == 0 { OrderedReads(p, final); } else { var q := CyclicReads(p); }
  }

  lemma Composition(p: Program, order: seq<nat>)
    requires IsOrder(order, |p.inits|) && (Acyclic(Expected(p)) ==> Respects(Expected(p), order))
    ensures Acyclic(Expected(p)) && !ReadsItself(p, Typed) ==> DfsOrder.Sorted(Renumbered(DepEdges(p, Typed), order))
    ensures ReadsItself(p, Typed) ==> !Acyclic(DepEdges(p, Typed))
    ensures !Acyclic(DepEdges(p, Certain)) ==> !Acyclic(DepEdges(p, Typed))
  {
    if Acyclic(Expected(p)) && !ReadsItself(p, Typed) {
      ExpectedCoversTyped(p, order);
      RespectedIsSorted(DepEdges(p, Typed), order);
    }
    if k: nat :| (k, k) in DepEdges(p, Typed) {
      assert IsCycle(DepEdges(p, Typed), [k, k]);
    }
    ViewsNest(p);
    if Acyclic(DepEdges(p, Typed)) { AcyclicSubset(DepEdges(p, Certain), DepEdges(p, Typed)); }
  }

  /** `val a = x.m()` where m reads `a`: the first ordering ignores the possible self-read and places
      every global, and the search then reports a cycle. */
  lemma SoftSelfRead() returns (p: Program)
    ensures Bound(p) && Acyclic(Expected(p)) && !Acyclic(DepEdges(p, Typed))
  {
    var init := [MethodCall(Some("X"), "m")];
    p := Program([Some(init)], [Method("X", "m", false, [GlobalRef(0)])]);
    assert Calls(p, Typed, init[0], 0);
    ReachStart(CallEdges(p, Typed), Called(p, Typed, init), 0);
    assert Reads(p, Typed, init, 0);
    assert (0, 0) in DepEdges(p, Typed);
    assert IsCycle(DepEdges(p, Typed), [0, 0]);
    forall i: nat | Runs(p, Certain, init, i)
      ensures false
    {
      ReachStays(CallEdges(p, Certain), Called(p, Certain, init), {}, i);
    }
    assert Expected(p) == {};
    assert forall q :: IsCycle(Expected(p), q) ==> (q[0], q[0 + 1]) in Expected(p);
  }
}
