/** The derivation reader of scripts/spec_coverage.py, over the recognizer's tables. */
module Deriver {
  import opened Grammar
  import opened Derivation
  import R = Recognizer

  /** A question: how `node` derives the tokens from one position to another. */
  type Key = (Node, nat, nat)

  /** The units of some derivation for the key have all been recorded. */
  ghost predicate Finished(g: Rules, toks: seq<Token>, key: Key, used: set<Unit>) {
    exists t :: Spells(g, toks, key.0, key.1, key.2, t) && Units(g, key.0, t) <= used
  }

  /** Every open question starts no later, and one that starts here is above `node`. */
  ghost predicate Above(g: Rules, open: set<Key>, node: Node, pos: nat) {
    forall key :: key in open ==> key.1 <= pos && (key.1 == pos ==> Under(g, key.0, node))
  }

  ghost predicate AboveOrAt(g: Rules, open: set<Key>, node: Node, pos: nat) {
    forall key :: key in open ==> key.1 <= pos && (key.1 == pos ==> key.0 == node || Under(g, key.0, node))
  }

  lemma AboveChild(g: Rules, open: set<Key>, node: Node, pos: nat, child: Node, p: nat)
    requires AboveOrAt(g, open, node, pos) && pos <= p && (p == pos ==> LeftChild(g, node, child))
    ensures Above(g, open, child, p)
  {
    forall key | key in open && key.1 == p
      ensures Under(g, key.0, child)
    {
      UnderChild(g, key.0, node, child);
    }
  }

  lemma AboveRule(g: Rules, open: set<Key>, node: Node, pos: nat)
    requires AboveOrAt(g, open, node, pos) && node.Nt? && node.name in g.bodies && node.name !in TOKEN_SYMBOLS
    ensures Above(g, open, g.bodies[node.name], pos)
  {
    forall key | key in open && key.1 == pos
      ensures Under(g, key.0, g.bodies[node.name])
    {
      UnderRule(g, key.0, node);
    }
  }

  lemma NotOpen(g: Rules, open: set<Key>, node: Node, pos: nat, end: nat)
    requires NoLeftRecursion(g) && Above(g, open, node, pos)
    ensures (node, pos, end) !in open
  {
    NotUnderItself(g, node);
  }

  /** The exact set of ends, for a grammar without left recursion. */
  ghost predicate Exact(g: Rules, toks: seq<Token>, node: Node, i: nat, r: set<nat>) {
    forall j: nat :: j in r <==> Derives(g, toks, node, i, j)
  }

  /** Positions between the parts of a sequence, from part `k` to its end. */
  ghost predicate SplitFrom(g: Rules, toks: seq<Token>, node: Node, pos: nat, k: nat, cuts: seq<nat>) {
    && node.Seq? && k <= |node.kids| && |cuts| == |node.kids| - k + 1
    && (forall m :: 0 <= m < |cuts| - 1 ==> Derives(g, toks, node.kids[k + m], cuts[m], cuts[m + 1]))
    && (forall m :: 0 <= m < |cuts| ==> Derives(g, toks, Front(node, k + m), pos, cuts[m]))
  }

  /** The predecessor map of the breadth-first search over iterations. */
  ghost predicate PrevRight(g: Rules, toks: seq<Token>, sub: Node, pos: nat, prev: map<nat, nat>) {
    pos in prev && forall q :: q in prev && q != pos ==> prev[q] in prev && prev[q] < q && Derives(g, toks, sub, prev[q], q) && pos <= prev[q]
  }

  class Deriver {
    const rec: R.Recognizer
    var used: set<Unit>
    var done: set<Key>

    ghost predicate Usable()
      reads this, rec
    {
      rec.Valid() && rec.active == {} && NoLeftRecursion(rec.g)
    }

    /** Every question asked is open or finished. */
    ghost predicate Valid(open: set<Key>)
      reads this, rec
    {
      Usable() && forall key :: key in done && key !in open ==> Finished(rec.g, rec.toks, key, used)
    }

    /** The question may be asked: it has an answer, and no open question is the same. */
    ghost predicate Askable(open: set<Key>, node: Node, pos: nat, end: nat)
      reads this, rec
    {
      && Valid(open) && pos < |rec.toks| && node in AllNodes(rec.g)
      && Derives(rec.g, rec.toks, node, pos, end) && Above(rec.g, open, node, pos)
    }

    /** The question is being answered. */
    ghost predicate Asked(open: set<Key>, node: Node, pos: nat, end: nat)
      reads this, rec
    {
      && Valid(open) && pos < |rec.toks| && node in AllNodes(rec.g)
      && Derives(rec.g, rec.toks, node, pos, end) && AboveOrAt(rec.g, open, node, pos)
    }

    /** `t` is a derivation, and exactly its units have been added. */
    twostate predicate Answer(open: set<Key>, node: Node, pos: nat, end: nat, t: Tree)
      reads this, rec
    {
      && Valid(open) && rec.toks == old(rec.toks) && old(done) <= done
      && Spells(rec.g, rec.toks, node, pos, end, t) && used == old(used) + Units(rec.g, node, t)
    }

    ghost function Todo(): set<Key>
      reads this, rec
    {
      (set n, p, e | n in AllNodes(rec.g) && p in R.Rest(|rec.toks|, {}) && e in R.Rest(|rec.toks|, {}) :: (n, p, e)) - done
    }

    constructor (rec: R.Recognizer)
      ensures this.rec == rec && used == {} && done == {}
    {
      this.rec := rec;
      used, done := {}, {};
    }

    /** The ends of a node, from the recognizer. */
    method EndsOf(ghost open: set<Key>, node: Node, pos: nat) returns (r: set<nat>)
      requires Valid(open) && pos < |rec.toks| && node in AllNodes(rec.g)
      modifies rec
      ensures Valid(open) && rec.toks == old(rec.toks) && Exact(rec.g, rec.toks, node, pos, r)
    {
      AllNodesRefs(rec.g, node);
      r := rec.NodeEnds(node, pos);
    }

    /** derive */
    method Derive(ghost open: set<Key>, node: Node, pos: nat, end: nat) returns (ghost t: Tree)
      requires Askable(open, node, pos, end)
      modifies this, rec
      ensures Answer(open, node, pos, end, t)
      decreases Todo(), 0
    {
      var key := (node, pos, end);
      NotOpen(rec.g, open, node, pos, end);
      if key in done {
        t :| Spells(rec.g, rec.toks, key.0, key.1, key.2, t) && Units(rec.g, key.0, t) <= used;
        return;
      }
      DerivesBounds(rec.g, rec.toks, node, pos, end);
      assert key in Todo();
      done := done + {key};
      t := DeriveNew(open + {key}, node, pos, end);
      assert Finished(rec.g, rec.toks, key, used);
    }

    method DeriveNew(ghost open: set<Key>, node: Node, pos: nat, end: nat) returns (ghost t: Tree)
      requires Asked(open, node, pos, end)
      modifies this, rec
      ensures Answer(open, node, pos, end, t)
      decreases Todo(), 4
    {
      match node
      case Term(_, _) =>
        t := Tok;
      case Nt(_, name) =>
        t := DeriveName(open, node, pos, end);
      case Alt(_, _) =>
        t := DeriveAlt(open, node, pos, end);
      case Opt(id, sub) =>
        t := DeriveOpt(open, node, pos, end);
      case Rep(_, _) =>
        t := DeriveRep(open, node, pos, end);
      case Seq(_, _) =>
        t := DeriveSeq(open, node, pos, end);
    }

    method DeriveName(ghost open: set<Key>, node: Node, pos: nat, end: nat) returns (ghost t: Tree)
      requires Asked(open, node, pos, end) && node.Nt?
      modifies this, rec
      ensures Answer(open, node, pos, end, t)
      decreases Todo(), 2
    {
      NtDerives(rec.g, rec.toks, node, pos, end);
      if node.name in TOKEN_SYMBOLS {
        t := Tok;
        return;
      }
      AllNodesRefs(rec.g, node);
      RuleDerives(rec.g, rec.toks, node.name, pos, end);
      BodyIsNode(rec.g, node.name);
      AboveRule(rec.g, open, node, pos);
      used := used + {RuleUnit(node.name)};
      var body := rec.g.bodies[node.name];
      ghost var b := Derive(open, body, pos, end);
      t := Rule(b);
    }

    method DeriveAlt(ghost open: set<Key>, node: Node, pos: nat, end: nat) returns (ghost t: Tree)
      requires Asked(open, node, pos, end) && node.Alt?
      modifies this, rec
      ensures Answer(open, node, pos, end, t)
      decreases Todo(), 2
    {
      AltAny(rec.g, rec.toks, node, pos, end);
      for k := 0 to |node.kids|
        invariant Valid(open) && rec.toks == old(rec.toks) && used == old(used) && done == old(done)
        invariant forall m :: 0 <= m < k ==> !Derives(rec.g, rec.toks, node.kids[m], pos, end)
      {
        var child := node.kids[k];
        AllNodesClosed(rec.g, node, child);
        var ends := EndsOf(open, child, pos);
        if end in ends {
          used := used + {NodeUnit(child.id)};
          AboveChild(rec.g, open, node, pos, child, pos);
          ghost var b := Derive(open, child, pos, end);
          t := Pick(k, b);
          return;
        }
      }
    }

    method DeriveOpt(ghost open: set<Key>, node: Node, pos: nat, end: nat) returns (ghost t: Tree)
      requires Asked(open, node, pos, end) && node.Opt?
      modifies this, rec
      ensures Answer(open, node, pos, end, t)
      decreases Todo(), 2
    {
      OptEither(rec.g, rec.toks, node, pos, end);
      AllNodesClosed(rec.g, node, node.sub);
      if end == pos {
        t := Skip;
        return;
      }
      var ends := EndsOf(open, node.sub, pos);
      if end in ends {
        used := used + {NodeUnit(node.id)};
        AboveChild(rec.g, open, node, pos, node.sub, pos);
        ghost var b := Derive(open, node.sub, pos, end);
        t := Take(b);
      }
    }

    // ---- sequences

    /** The positions each front of the sequence can end at. */
    method Reachable(ghost open: set<Key>, node: Node, pos: nat) returns (reach: seq<set<nat>>)
      requires Valid(open) && pos < |rec.toks| && node in AllNodes(rec.g) && node.Seq?
      modifies rec
      ensures Valid(open) && rec.toks == old(rec.toks) && |reach| == |node.kids| + 1
      ensures forall k :: 0 <= k <= |node.kids| ==> Exact(rec.g, rec.toks, Front(node, k), pos, reach[k])
    {
      reach := [{pos}];
      forall j: nat { SeqNone(rec.g, rec.toks, node, pos, j); }
      for k := 0 to |node.kids|
        invariant Valid(open) && rec.toks == old(rec.toks) && |reach| == k + 1
        invariant forall m :: 0 <= m <= k ==> Exact(rec.g, rec.toks, Front(node, m), pos, reach[m])
      {
        var nxt := NextReach(open, node, pos, k, reach[k]);
        reach := reach + [nxt];
      }
    }

    method NextReach(ghost open: set<Key>, node: Node, ghost pos: nat, k: nat, from: set<nat>) returns (nxt: set<nat>)
      requires Valid(open) && pos < |rec.toks| && node in AllNodes(rec.g) && node.Seq? && k < |node.kids|
      requires Exact(rec.g, rec.toks, Front(node, k), pos, from)
      modifies rec
      ensures Valid(open) && rec.toks == old(rec.toks) && Exact(rec.g, rec.toks, Front(node, k + 1), pos, nxt)
    {
      var kid := node.kids[k];
      AllNodesClosed(rec.g, node, kid);
      nxt := {};
      var todo := from;
      while todo != {}
        invariant Valid(open) && rec.toks == old(rec.toks) && todo <= from
        invariant R.Image(rec.g, rec.toks, kid, from - todo, nxt)
        decreases todo
      {
        var p :| p in todo;
        DerivesBounds(rec.g, rec.toks, Front(node, k), pos, p);
        var r := EndsOf(open, kid, p);
        R.ImageMore(rec.g, rec.toks, kid, from - todo, nxt, p, r);
        todo := todo - {p};
        assert from - todo == (from - (todo + {p})) + {p};
        nxt := nxt + r;
      }
      assert from - todo == from;
      R.SeqAdvance(rec.g, rec.toks, node, pos, k, from, nxt);
    }

    /** The earliest position of `from` from which part `k` ends at `cur`: there is one. */
    method SplitAt(ghost open: set<Key>, node: Node, ghost pos: nat, k: nat, from: set<nat>, cur: nat) returns (p: nat)
      requires Valid(open) && pos < |rec.toks| && node in AllNodes(rec.g) && node.Seq? && k < |node.kids|
      requires Exact(rec.g, rec.toks, Front(node, k), pos, from) && Derives(rec.g, rec.toks, Front(node, k + 1), pos, cur)
      modifies rec
      ensures Valid(open) && rec.toks == old(rec.toks) && p in from && Derives(rec.g, rec.toks, node.kids[k], p, cur)
      ensures forall m :: m in from && Derives(rec.g, rec.toks, node.kids[k], m, cur) ==> p <= m
    {
      AllNodesClosed(rec.g, node, node.kids[k]);
      ghost var some := SeqSplit(rec.g, rec.toks, node, k, pos, cur);
      var todo := from;
      while todo != {}
        invariant Valid(open) && rec.toks == old(rec.toks) && todo <= from && some in todo
        invariant forall m :: m in from && Derives(rec.g, rec.toks, node.kids[k], m, cur) ==> m in todo
        decreases todo
      {
        p := Least(todo);
        DerivesBounds(rec.g, rec.toks, Front(node, k), pos, p);
        var ends := EndsOf(open, node.kids[k], p);
        if cur in ends { return; }
        todo := todo - {p};
      }
    }

    /** The backward split: it always succeeds, and starts at `pos`. */
    method SplitBack(ghost open: set<Key>, node: Node, pos: nat, end: nat) returns (cuts: seq<nat>)
      requires Valid(open) && pos < |rec.toks| && node in AllNodes(rec.g) && node.Seq?
      requires Derives(rec.g, rec.toks, node, pos, end)
      modifies rec
      ensures Valid(open) && rec.toks == old(rec.toks)
      ensures SplitFrom(rec.g, rec.toks, node, pos, 0, cuts) && cuts[0] == pos && cuts[|node.kids|] == end
    {
      var reach := Reachable(open, node, pos);
      var n := |node.kids|;
      assert Front(node, n) == node;
      cuts := [end];
      var k := n;
      while k > 0
        invariant 0 <= k <= n && Valid(open) && rec.toks == old(rec.toks)
        invariant SplitFrom(rec.g, rec.toks, node, pos, k, cuts) && cuts[n - k] == end
      {
        k := k - 1;
        ghost var was := cuts;
        var p := SplitAt(open, node, pos, k, reach[k], cuts[0]);
        cuts := [p] + cuts;
        SplitGrows(rec.g, rec.toks, node, pos, k, p, was);
      }
      SeqNone(rec.g, rec.toks, node, pos, cuts[0]);
    }

    method DeriveSeq(ghost open: set<Key>, node: Node, pos: nat, end: nat) returns (ghost t: Tree)
      requires Asked(open, node, pos, end) && node.Seq?
      modifies this, rec
      ensures Answer(open, node, pos, end, t)
      decreases Todo(), 3
    {
      var cuts := SplitBack(open, node, pos, end);
      ghost var items := DeriveParts(open, node, pos, end, cuts);
      t := Row(cuts, items);
      assert SeqUnits(rec.g, node.kids, items) == Units(rec.g, node, t);
    }

    /** The parts derived so far, and exactly their units added. */
    twostate predicate Partly(open: set<Key>, node: Node, cuts: seq<nat>, items: seq<Tree>)
      requires node.Seq? && |items| <= |node.kids|
      reads this, rec
    {
      && Valid(open) && rec.toks == old(rec.toks) && old(done) <= done
      && used == old(used) + SeqUnits(rec.g, node.kids, items) && Parts(rec.g, rec.toks, node.kids, cuts, items)
    }

    method DerivePart(ghost open: set<Key>, node: Node, ghost pos: nat, ghost end: nat, cuts: seq<nat>, k: nat) returns (ghost t: Tree)
      requires Asked(open, node, pos, end) && SplitFrom(rec.g, rec.toks, node, pos, 0, cuts) && k < |node.kids|
      modifies this, rec
      ensures Answer(open, node.kids[k], cuts[k], cuts[k + 1], t)
      decreases Todo(), 1
    {
      PartAskable(rec.g, rec.toks, open, node, pos, cuts, k);
      AllNodesClosed(rec.g, node, node.kids[k]);
      t := Derive(open, node.kids[k], cuts[k], cuts[k + 1]);
    }

    method DeriveParts(ghost open: set<Key>, node: Node, pos: nat, end: nat, cuts: seq<nat>) returns (ghost items: seq<Tree>)
      requires Asked(open, node, pos, end) && SplitFrom(rec.g, rec.toks, node, pos, 0, cuts) && cuts[0] == pos
      modifies this, rec
      ensures |items| == |node.kids| && Partly(open, node, cuts, items)
      decreases Todo(), 2
    {
      items := [];
      for k := 0 to |node.kids|
        invariant |items| == k && Partly(open, node, cuts, items)
      {
        ghost var t := DerivePart(open, node, pos, end, cuts, k);
        SeqUnitsMore(rec.g, node.kids, items, t);
        items := items + [t];
      }
    }

    // ---- repetitions

    /** One level of the breadth-first search over iterations. */
    method NextLevel(ghost open: set<Key>, sub: Node, ghost pos: nat, frontier: seq<nat>, from: map<nat, nat>)
      returns (prev: map<nat, nat>, nxt: seq<nat>)
      requires Valid(open) && sub in AllNodes(rec.g) && PrevRight(rec.g, rec.toks, sub, pos, from)
      requires forall k :: 0 <= k < |frontier| ==> Waits(rec.toks, pos, from, frontier[k])
      modifies rec
      ensures Valid(open) && rec.toks == old(rec.toks) && Level(rec.g, rec.toks, sub, pos, from.Keys, prev, nxt)
      ensures forall p :: p in frontier ==> Advances(rec.g, rec.toks, sub, p, prev.Keys)
    {
      prev, nxt := from, [];
      for k := 0 to |frontier|
        invariant Valid(open) && rec.toks == old(rec.toks) && Level(rec.g, rec.toks, sub, pos, from.Keys, prev, nxt)
        invariant AllAdvance(rec.g, rec.toks, sub, frontier, k, prev.Keys)
      {
        ghost var was := prev.Keys;
        prev, nxt := Expand(open, sub, pos, frontier[k], prev, nxt, from);
        AllAdvanceMore(rec.g, rec.toks, sub, frontier, k, was, prev.Keys);
      }
      assert forall k :: 0 <= k < |frontier| ==> Advances(rec.g, rec.toks, sub, frontier[k], prev.Keys);
    }

    method Expand(ghost open: set<Key>, sub: Node, ghost pos: nat, p: nat, before: map<nat, nat>, waiting: seq<nat>, ghost from: map<nat, nat>)
      returns (prev: map<nat, nat>, nxt: seq<nat>)
      requires Valid(open) && sub in AllNodes(rec.g) && Waits(rec.toks, pos, from, p)
      requires Level(rec.g, rec.toks, sub, pos, from.Keys, before, waiting)
      modifies rec
      ensures Valid(open) && rec.toks == old(rec.toks) && Level(rec.g, rec.toks, sub, pos, from.Keys, prev, nxt)
      ensures before.Keys <= prev.Keys && Advances(rec.g, rec.toks, sub, p, prev.Keys)
    {
      assert p in from.Keys;
      var ends := EndsOf(open, sub, p);
      prev, nxt := AddEnds(rec.g, rec.toks, sub, pos, p, ends, before, waiting, from.Keys);
    }

    /** The chain of iterations the breadth-first search finds for `end`, as predecessors. */
    method Chains(ghost open: set<Key>, node: Node, pos: nat, end: nat) returns (prev: map<nat, nat>)
      requires Asked(open, node, pos, end) && node.Rep?
      modifies rec
      ensures Valid(open) && rec.toks == old(rec.toks) && PrevRight(rec.g, rec.toks, node.sub, pos, prev) && end in prev
    {
      AllNodesClosed(rec.g, node, node.sub);
      prev := map[pos := pos];
      var frontier := [pos];
      while frontier != [] && end !in prev
        invariant Valid(open) && rec.toks == old(rec.toks) && PrevRight(rec.g, rec.toks, node.sub, pos, prev)
        invariant forall k :: 0 <= k < |frontier| ==> Waits(rec.toks, pos, prev, frontier[k])
        invariant forall p :: p in prev && p !in frontier ==> Advances(rec.g, rec.toks, node.sub, p, prev.Keys)
        decreases R.Rest(|rec.toks|, prev.Keys), |frontier|
      {
        ghost var was := prev.Keys;
        var more, nxt := NextLevel(open, node.sub, pos, frontier, prev);
        LevelDone(rec.g, rec.toks, node.sub, was, frontier, more.Keys, nxt);
        LevelShrinks(rec.g, rec.toks, node.sub, pos, was, more, nxt);
        prev, frontier := more, nxt;
      }
      if end !in prev { RepClosed(rec.g, rec.toks, node, prev.Keys, pos, end); }
    }

    method DeriveRep(ghost open: set<Key>, node: Node, pos: nat, end: nat) returns (ghost t: Tree)
      requires Asked(open, node, pos, end) && node.Rep?
      modifies this, rec
      ensures Answer(open, node, pos, end, t)
      decreases Todo(), 2
    {
      if end == pos {
        t := Row([pos], []);
        return;
      }
      var prev := Chains(open, node, pos, end);
      used := used + {NodeUnit(node.id)};
      ghost var cuts, items := DeriveChain(open, node, pos, end, prev);
      t := Row(cuts, items);
      assert RepUnits(rec.g, node.sub, items) + {NodeUnit(node.id)} == Units(rec.g, node, t);
    }

    /** The iterations, last one first. */
    method DeriveChain(ghost open: set<Key>, node: Node, pos: nat, end: nat, prev: map<nat, nat>)
      returns (ghost cuts: seq<nat>, ghost items: seq<Tree>)
      requires Asked(open, node, pos, end) && node.Rep? && PrevRight(rec.g, rec.toks, node.sub, pos, prev)
      requires end in prev && end != pos
      modifies this, rec
      ensures Valid(open) && rec.toks == old(rec.toks) && old(done) <= done && items != []
      ensures used == old(used) + RepUnits(rec.g, node.sub, items)
      ensures Spells(rec.g, rec.toks, node, pos, end, Row(cuts, items))
      decreases Todo(), 1
    {
      AllNodesClosed(rec.g, node, node.sub);
      DerivesBounds(rec.g, rec.toks, node, pos, end);
      var q := end;
      cuts, items := [end], [];
      while q != pos
        invariant q in prev && q <= end && Valid(open) && rec.toks == old(rec.toks) && old(done) <= done
        invariant items == [] ==> q == end
        invariant used == old(used) + RepUnits(rec.g, node.sub, items)
        invariant Spells(rec.g, rec.toks, node, q, end, Row(cuts, items))
        decreases q
      {
        var p := prev[q];
        AboveChild(rec.g, open, node, pos, node.sub, p);
        ghost var b := Derive(open, node.sub, p, q);
        RepUnitsMore(rec.g, node.sub, b, items);
        RepFirst(rec.g, rec.toks, node, p, q, end, b, cuts, items);
        cuts, items := [p] + cuts, [b] + items;
        q := p;
      }
    }
  }

  lemma RepFirst(g: Rules, toks: seq<Token>, node: Node, p: nat, q: nat, end: nat, b: Tree, cuts: seq<nat>, items: seq<Tree>)
    requires node.Rep? && Spells(g, toks, node.sub, p, q, b) && Spells(g, toks, node, q, end, Row(cuts, items))
    ensures Spells(g, toks, node, p, end, Row([p] + cuts, [b] + items))
  {
  }

  ghost predicate Parts(g: Rules, toks: seq<Token>, kids: seq<Node>, cuts: seq<nat>, items: seq<Tree>) {
    && |items| <= |kids| && |cuts| == |kids| + 1
    && forall k :: 0 <= k < |items| ==> Spells(g, toks, kids[k], cuts[k], cuts[k + 1], items[k])
  }

  lemma PartAskable(g: Rules, toks: seq<Token>, open: set<Key>, node: Node, pos: nat, cuts: seq<nat>, k: nat)
    requires SplitFrom(g, toks, node, pos, 0, cuts) && k < |node.kids| && AboveOrAt(g, open, node, pos)
    requires Ended(toks) && pos < |toks|
    ensures cuts[k] < |toks| && Derives(g, toks, node.kids[k], cuts[k], cuts[k + 1]) && Above(g, open, node.kids[k], cuts[k])
  {
    assert Derives(g, toks, node.kids[0 + k], cuts[k], cuts[k + 1]);
    assert Derives(g, toks, Front(node, 0 + k), pos, cuts[k]);
    DerivesBounds(g, toks, Front(node, k), pos, cuts[k]);
    if cuts[k] == pos { assert Nullable(g, Front(node, k)); }
    AboveChild(g, open, node, pos, node.kids[k], cuts[k]);
  }

  lemma SplitGrows(g: Rules, toks: seq<Token>, node: Node, pos: nat, k: nat, p: nat, cuts: seq<nat>)
    requires SplitFrom(g, toks, node, pos, k + 1, cuts)
    requires Derives(g, toks, node.kids[k], p, cuts[0]) && Derives(g, toks, Front(node, k), pos, p)
    ensures SplitFrom(g, toks, node, pos, k, [p] + cuts)
  {
    var c := [p] + cuts;
    forall m | 0 <= m < |c| - 1
      ensures Derives(g, toks, node.kids[k + m], c[m], c[m + 1])
    {
      if m > 0 { assert Derives(g, toks, node.kids[k + 1 + (m - 1)], cuts[m - 1], cuts[m - 1 + 1]); }
    }
    forall m | 0 <= m < |c|
      ensures Derives(g, toks, Front(node, k + m), pos, c[m])
    {
      if m > 0 { assert Derives(g, toks, Front(node, k + 1 + (m - 1)), pos, cuts[m - 1]); }
    }
  }

  lemma LevelDone(g: Rules, toks: seq<Token>, sub: Node, was: set<nat>, frontier: seq<nat>, now: set<nat>, nxt: seq<nat>)
    requires was <= now && (forall q :: q in now && q !in was ==> q in nxt)
    requires forall p :: p in was && p !in frontier ==> Advances(g, toks, sub, p, was)
    requires forall p :: p in frontier ==> Advances(g, toks, sub, p, now)
    ensures forall p :: p in now && p !in nxt ==> Advances(g, toks, sub, p, now)
  {
  }

  lemma LevelShrinks(g: Rules, toks: seq<Token>, sub: Node, pos: nat, was: set<nat>, now: map<nat, nat>, nxt: seq<nat>)
    requires Level(g, toks, sub, pos, was, now, nxt)
    ensures if nxt == [] then R.Rest(|toks|, now.Keys) == R.Rest(|toks|, was) else R.Rest(|toks|, now.Keys) < R.Rest(|toks|, was)
  {
    if nxt != [] {
      assert Waits(toks, pos, now, nxt[0]);
      assert nxt[0] in R.Rest(|toks|, was) && nxt[0] !in R.Rest(|toks|, now.Keys);
    }
  }

  ghost predicate AllAdvance(g: Rules, toks: seq<Token>, sub: Node, ps: seq<nat>, k: nat, s: set<nat>) {
    k <= |ps| && forall m :: 0 <= m < k ==> Advances(g, toks, sub, ps[m], s)
  }

  lemma AllAdvanceMore(g: Rules, toks: seq<Token>, sub: Node, ps: seq<nat>, k: nat, s: set<nat>, s': set<nat>)
    requires AllAdvance(g, toks, sub, ps, k, s) && k < |ps| && s <= s' && Advances(g, toks, sub, ps[k], s')
    ensures AllAdvance(g, toks, sub, ps, k + 1, s')
  {
  }

  ghost predicate Waits(toks: seq<Token>, pos: nat, prev: map<nat, nat>, q: nat) {
    q < |toks| && q in prev && pos <= q
  }

  /** The search has grown from `base`; what is new waits in `nxt`. */
  ghost predicate Level(g: Rules, toks: seq<Token>, sub: Node, pos: nat, base: set<nat>, prev: map<nat, nat>, nxt: seq<nat>) {
    && PrevRight(g, toks, sub, pos, prev) && base <= prev.Keys && (nxt == [] ==> prev.Keys == base)
    && (forall q :: q in prev && q !in base ==> q in nxt)
    && (forall m :: 0 <= m < |nxt| ==> Waits(toks, pos, prev, nxt[m]) && nxt[m] !in base)
  }

  lemma LevelMore(g: Rules, toks: seq<Token>, sub: Node, pos: nat, base: set<nat>, prev: map<nat, nat>, nxt: seq<nat>, p: nat, q: nat)
    requires Level(g, toks, sub, pos, base, prev, nxt) && Waits(toks, pos, prev, p) && p < q && q !in prev
    requires Derives(g, toks, sub, p, q) && Ended(toks)
    ensures Level(g, toks, sub, pos, base, prev[q := p], nxt + [q])
  {
    DerivesBounds(g, toks, sub, p, q);
    var now, all := prev[q := p], nxt + [q];
    forall m | 0 <= m < |all|
      ensures Waits(toks, pos, now, all[m]) && all[m] !in base
    {
      if m < |nxt| { assert Waits(toks, pos, prev, nxt[m]); }
    }
  }

  /** The ends that advance and are new get `p` as predecessor and wait in the next level. */
  method AddEnds(ghost g: Rules, ghost toks: seq<Token>, ghost sub: Node, ghost pos: nat, p: nat, ends: set<nat>,
                 from: map<nat, nat>, waiting: seq<nat>, ghost base: set<nat>)
    returns (prev: map<nat, nat>, nxt: seq<nat>)
    requires Level(g, toks, sub, pos, base, from, waiting) && Exact(g, toks, sub, p, ends) && Waits(toks, pos, from, p) && Ended(toks)
    ensures Level(g, toks, sub, pos, base, prev, nxt) && from.Keys <= prev.Keys && Advances(g, toks, sub, p, prev.Keys)
  {
    prev, nxt := from, waiting;
    var todo := ends;
    while todo != {}
      invariant todo <= ends && Level(g, toks, sub, pos, base, prev, nxt) && from.Keys <= prev.Keys
      invariant forall q :: q in ends && q !in todo && p < q ==> q in prev
      decreases todo
    {
      var q :| q in todo;
      todo := todo - {q};
      if q > p && q !in prev {
        LevelMore(g, toks, sub, pos, base, prev, nxt, p, q);
        prev := prev[q := p];
        nxt := nxt + [q];
      }
    }
  }

  method Least(s: set<nat>) returns (m: nat)
    requires s != {}
    ensures m in s && forall q :: q in s ==> m <= q
  {
    m :| m in s;
    var todo := s - {m};
    while todo != {}
      invariant m in s && todo <= s && forall q :: q in s && q !in todo ==> m <= q
      decreases todo
    {
      var q :| q in todo;
      if q < m { m := q; }
      todo := todo - {q};
    }
  }

  /** Recognizing a token list and reading one derivation back: the units recorded are exactly those
      of a derivation of the whole list. */
  method Cover(g: Rules, toks: seq<Token>, start: string) returns (ok: bool, used: set<Unit>)
    requires AllRefs(g) && Ended(toks) && start in g.bodies && start !in TOKEN_SYMBOLS && NoLeftRecursion(g)
    ensures ok <==> NameDerives(g, toks, start, 0, |toks| - 1)
    ensures ok ==> exists t :: SpellsName(g, toks, start, 0, |toks| - 1, t) && used == Units(g, Nt(0, start), t)
    ensures !ok ==> used == {}
  {
    var rec := new R.Recognizer(g);
    var far;
    ok, far := rec.Run(toks, start);
    used := {};
    if ok {
      var d := new Deriver(rec);
      d.used := {RuleUnit(start)};
      RuleDerives(g, toks, start, 0, |toks| - 1);
      BodyIsNode(g, start);
      ghost var t := d.Derive({}, g.bodies[start], 0, |toks| - 1);
      used := d.used;
      assert SpellsName(g, toks, start, 0, |toks| - 1, Rule(t));
      assert used == Units(g, Nt(0, start), Rule(t));
    }
  }
}
