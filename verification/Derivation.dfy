/**
 The grammar units a derivation uses, and why reading one derivation back never meets a question that
 is still open when the grammar has no left recursion.
 */
module Derivation {
  import opened Grammar

  /** A rule, or a labelled node: a branch of an alternative, an optional part, a repetition. */
  datatype Unit = RuleUnit(name: string) | NodeUnit(id: nat)

  /** The units of a derivation; an optional part or repetition counts when it is used. */
  ghost function Units(g: Rules, node: Node, t: Tree): set<Unit>
    decreases t
  {
    match node
    case Term(_, _) => {}
    case Nt(_, name) =>
      if t.Rule? && name in g.bodies then {RuleUnit(name)} + Units(g, g.bodies[name], t.body) else {}
    case Seq(_, kids) =>
      if t.Row? && |t.items| == |kids| then set k, u | 0 <= k < |kids| && u in Units(g, kids[k], t.items[k]) :: u else {}
    case Alt(_, kids) =>
      if t.Pick? && t.branch < |kids| then {NodeUnit(kids[t.branch].id)} + Units(g, kids[t.branch], t.sub) else {}
    case Opt(id, sub) =>
      if t.Take? then {NodeUnit(id)} + Units(g, sub, t.sub) else {}
    case Rep(id, sub) =>
      if t.Row? && t.items != [] then {NodeUnit(id)} + set k, u | 0 <= k < |t.items| && u in Units(g, sub, t.items[k]) :: u else {}
  }

  ghost function SeqUnits(g: Rules, kids: seq<Node>, items: seq<Tree>): set<Unit>
    requires |items| <= |kids|
  {
    set k, u | 0 <= k < |items| && u in Units(g, kids[k], items[k]) :: u
  }

  ghost function RepUnits(g: Rules, sub: Node, items: seq<Tree>): set<Unit> {
    set k, u | 0 <= k < |items| && u in Units(g, sub, items[k]) :: u
  }

  lemma SeqUnitsMore(g: Rules, kids: seq<Node>, items: seq<Tree>, t: Tree)
    requires |items| < |kids|
    ensures SeqUnits(g, kids, items + [t]) == SeqUnits(g, kids, items) + Units(g, kids[|items|], t)
  {
    var more := items + [t];
    forall u | u in SeqUnits(g, kids, items)
      ensures u in SeqUnits(g, kids, more)
    {
      var k :| 0 <= k < |items| && u in Units(g, kids[k], items[k]);
      assert u in Units(g, kids[k], more[k]);
    }
    forall u | u in Units(g, kids[|items|], t)
      ensures u in SeqUnits(g, kids, more)
    {
      assert u in Units(g, kids[|items|], more[|items|]);
    }
  }

  lemma RepUnitsMore(g: Rules, sub: Node, t: Tree, items: seq<Tree>)
    ensures RepUnits(g, sub, [t] + items) == Units(g, sub, t) + RepUnits(g, sub, items)
  {
    var more := [t] + items;
    forall u | u in RepUnits(g, sub, items)
      ensures u in RepUnits(g, sub, more)
    {
      var k :| 0 <= k < |items| && u in Units(g, sub, items[k]);
      assert u in Units(g, sub, more[k + 1]);
    }
    forall u | u in Units(g, sub, t)
      ensures u in RepUnits(g, sub, more)
    {
      assert u in Units(g, sub, more[0]);
    }
  }

  // ---- the nodes of a grammar

  function Size(node: Node): nat {
    match node
    case Term(_, _) => 1
    case Nt(_, _) => 1
    case Seq(_, kids) => 1 + SizeAll(kids)
    case Alt(_, kids) => 1 + SizeAll(kids)
    case Opt(_, sub) => 1 + Size(sub)
    case Rep(_, sub) => 1 + Size(sub)
  }

  function SizeAll(kids: seq<Node>): nat {
    if kids == [] then 0 else Size(kids[0]) + SizeAll(kids[1..])
  }

  lemma {:induction false} KidSize(kids: seq<Node>, k: nat)
    requires k < |kids|
    ensures Size(kids[k]) <= SizeAll(kids)
  {
    if k > 0 { KidSize(kids[1..], k - 1); }
  }

  ghost function Nodes(node: Node): set<Node> {
    {node} +
    match node
    case Term(_, _) => {}
    case Nt(_, _) => {}
    case Seq(_, kids) => (set k, n | 0 <= k < |kids| && n in Nodes(kids[k]) :: n)
    case Alt(_, kids) => (set k, n | 0 <= k < |kids| && n in Nodes(kids[k]) :: n)
    case Opt(_, sub) => Nodes(sub)
    case Rep(_, sub) => Nodes(sub)
  }

  ghost function AllNodes(g: Rules): set<Node> {
    set name, n | name in g.bodies && n in Nodes(g.bodies[name]) :: n
  }

  /** `child` stands directly below `node`. */
  ghost predicate Below(node: Node, child: Node) {
    match node
    case Term(_, _) => false
    case Nt(_, _) => false
    case Seq(_, kids) => child in kids
    case Alt(_, kids) => child in kids
    case Opt(_, sub) => child == sub
    case Rep(_, sub) => child == sub
  }

  lemma {:induction false} NodesClosed(root: Node, node: Node, child: Node)
    requires node in Nodes(root) && Below(node, child)
    ensures child in Nodes(root)
  {
    assert child in Nodes(child);
    if node == root {
      if root.Seq? || root.Alt? {
        var k :| 0 <= k < |root.kids| && root.kids[k] == child;
        assert child in Nodes(root.kids[k]);
      }
    } else if root.Seq? || root.Alt? {
      var k :| 0 <= k < |root.kids| && node in Nodes(root.kids[k]);
      NodesClosed(root.kids[k], node, child);
    } else if root.Opt? || root.Rep? {
      NodesClosed(root.sub, node, child);
    }
  }

  lemma AllNodesClosed(g: Rules, node: Node, child: Node)
    requires node in AllNodes(g) && Below(node, child)
    ensures child in AllNodes(g)
  {
    var name :| name in g.bodies && node in Nodes(g.bodies[name]);
    NodesClosed(g.bodies[name], node, child);
  }

  lemma BodyIsNode(g: Rules, name: string)
    requires name in g.bodies
    ensures g.bodies[name] in AllNodes(g)
  {
    assert g.bodies[name] in Nodes(g.bodies[name]);
  }

  lemma {:induction false} NodesRefs(g: Rules, root: Node, node: Node)
    requires Refs(g, root) && node in Nodes(root)
    ensures Refs(g, node)
  {
    if node != root {
      if root.Seq? || root.Alt? {
        var k :| 0 <= k < |root.kids| && node in Nodes(root.kids[k]);
        NodesRefs(g, root.kids[k], node);
      } else if root.Opt? || root.Rep? {
        NodesRefs(g, root.sub, node);
      }
    }
  }

  lemma AllNodesRefs(g: Rules, node: Node)
    requires AllRefs(g) && node in AllNodes(g)
    ensures Refs(g, node)
  {
    var name :| name in g.bodies && node in Nodes(g.bodies[name]);
    NodesRefs(g, g.bodies[name], node);
  }

  // ---- open questions

  /** `child` is where a derivation of `node` may begin, one step down. */
  ghost predicate LeftChild(g: Rules, node: Node, child: Node) {
    match node
    case Term(_, _) => false
    case Nt(_, _) => false
    case Seq(_, kids) => exists k :: 0 <= k < |kids| && kids[k] == child && Nullable(g, Front(node, k))
    case Alt(_, kids) => child in kids
    case Opt(_, sub) => child == sub
    case Rep(_, sub) => child == sub
  }

  /** Any number of such steps, without entering a rule. */
  ghost predicate LeftIn(g: Rules, root: Node, node: Node) {
    || root == node
    || match root
       case Term(_, _) => false
       case Nt(_, _) => false
       case Seq(_, kids) => exists k :: 0 <= k < |kids| && Nullable(g, Front(root, k)) && LeftIn(g, kids[k], node)
       case Alt(_, kids) => exists k :: 0 <= k < |kids| && LeftIn(g, kids[k], node)
       case Opt(_, sub) => LeftIn(g, sub, node)
       case Rep(_, sub) => LeftIn(g, sub, node)
  }

  lemma LeftChildSmaller(g: Rules, node: Node, child: Node)
    requires LeftChild(g, node, child)
    ensures Size(child) < Size(node) && Below(node, child)
  {
    if node.Seq? || node.Alt? {
      var k :| 0 <= k < |node.kids| && node.kids[k] == child;
      KidSize(node.kids, k);
    }
  }

  lemma {:induction false} LeftInStep(g: Rules, root: Node, node: Node, child: Node)
    requires LeftIn(g, root, node) && LeftChild(g, node, child)
    ensures LeftIn(g, root, child)
    decreases root
  {
    if root == node {
      if root.Seq? {
        var k :| 0 <= k < |root.kids| && root.kids[k] == child && Nullable(g, Front(root, k));
        assert LeftIn(g, root.kids[k], child);
      } else if root.Alt? {
        var k :| 0 <= k < |root.kids| && root.kids[k] == child;
        assert LeftIn(g, root.kids[k], child);
      }
    } else if root.Seq? {
      var k :| 0 <= k < |root.kids| && Nullable(g, Front(root, k)) && LeftIn(g, root.kids[k], node);
      LeftInStep(g, root.kids[k], node, child);
    } else if root.Alt? {
      var k :| 0 <= k < |root.kids| && LeftIn(g, root.kids[k], node);
      LeftInStep(g, root.kids[k], node, child);
    } else {
      LeftInStep(g, root.sub, node, child);
    }
  }

  lemma {:induction false} LeftInCorner(g: Rules, root: Node, node: Node, name: string)
    requires LeftIn(g, root, node) && LeftCorner(g, node, name)
    ensures LeftCorner(g, root, name)
    decreases root
  {
    if root != node {
      if root.Seq? {
        var k :| 0 <= k < |root.kids| && Nullable(g, Front(root, k)) && LeftIn(g, root.kids[k], node);
        LeftInCorner(g, root.kids[k], node, name);
      } else if root.Alt? {
        var k :| 0 <= k < |root.kids| && LeftIn(g, root.kids[k], node);
        LeftInCorner(g, root.kids[k], node, name);
      } else {
        LeftInCorner(g, root.sub, node, name);
      }
    }
  }

  /** A derivation of `node` may begin with one of rule `name`, directly or through other rules. */
  ghost predicate EntersRule(g: Rules, node: Node, name: string) {
    LeftCorner(g, node, name) || exists b :: LeftCorner(g, node, b) && LeadsTo(g, b, name)
  }

  ghost predicate InsideRule(g: Rules, outer: Node, node: Node, name: string) {
    name in g.bodies && name !in TOKEN_SYMBOLS && EntersRule(g, outer, name) && LeftIn(g, g.bodies[name], node)
  }

  /** A derivation of `outer` may begin with one of `node`, at least one step down. */
  ghost predicate Under(g: Rules, outer: Node, node: Node) {
    (Size(node) < Size(outer) && LeftIn(g, outer, node)) || exists name :: InsideRule(g, outer, node, name)
  }

  lemma UnderChild(g: Rules, outer: Node, node: Node, child: Node)
    requires outer == node || Under(g, outer, node)
    requires LeftChild(g, node, child)
    ensures Under(g, outer, child)
  {
    LeftChildSmaller(g, node, child);
    if outer == node || (Size(node) < Size(outer) && LeftIn(g, outer, node)) {
      LeftInStep(g, outer, node, child);
    } else {
      var name :| InsideRule(g, outer, node, name);
      LeftInStep(g, g.bodies[name], node, child);
      assert InsideRule(g, outer, child, name);
    }
  }

  lemma UnderRule(g: Rules, outer: Node, node: Node)
    requires outer == node || Under(g, outer, node)
    requires node.Nt? && node.name in g.bodies && node.name !in TOKEN_SYMBOLS
    ensures Under(g, outer, g.bodies[node.name])
  {
    assert LeftCorner(g, node, node.name);
    if LeftIn(g, outer, node) {
      LeftInCorner(g, outer, node, node.name);
    } else {
      var name :| InsideRule(g, outer, node, name);
      LeftInCorner(g, g.bodies[name], node, node.name);
      assert Begins(g, name, node.name);
      if LeftCorner(g, outer, name) {
        LeadsOne(g, name, node.name);
      } else {
        var b :| LeftCorner(g, outer, b) && LeadsTo(g, b, name);
        LeadsMore(g, b, name, node.name);
      }
    }
    assert InsideRule(g, outer, g.bodies[node.name], node.name);
  }

  /** Nothing is under itself. */
  lemma NotUnderItself(g: Rules, node: Node)
    requires NoLeftRecursion(g)
    ensures !Under(g, node, node)
  {
    forall name | InsideRule(g, node, node, name)
      ensures false
    {
      if LeftCorner(g, node, name) {
        LeftInCorner(g, g.bodies[name], node, name);
        LeadsOne(g, name, name);
      } else {
        var b :| LeftCorner(g, node, b) && LeadsTo(g, b, name);
        LeftInCorner(g, g.bodies[name], node, b);
        LeadsMore(g, b, name, b);
      }
    }
  }
}
