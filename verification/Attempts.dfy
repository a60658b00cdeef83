/**
 How far an attempt to read a node gets: the positions behind the tokens that some beginning of a derivation
 matches.
 */
module Attempts {
  import opened Grammar

  /** Where an attempt matches its last token. `from` is where the part of a row begins that does. */
  datatype Attempt =
    | AtToken
    | InRule(body: Attempt)
    | InBranch(k: nat, sub: Attempt)
    | InPart(sub: Attempt)
    | InRow(k: nat, from: nat, sub: Attempt)

  ghost predicate TouchesBy(g: Rules, toks: seq<Token>, node: Node, i: nat, j: nat, a: Attempt)
    decreases a, 1
  {
    match node
    case Term(_, _) => a.AtToken? && Derives(g, toks, node, i, j)
    case Nt(_, name) => NameTouchesBy(g, toks, name, i, j, a)
    case Seq(_, kids) =>
      a.InRow? && a.k < |kids| && Derives(g, toks, Front(node, a.k), i, a.from) && TouchesBy(g, toks, kids[a.k], a.from, j, a.sub)
    case Alt(_, kids) => a.InBranch? && a.k < |kids| && TouchesBy(g, toks, kids[a.k], i, j, a.sub)
    case Opt(_, sub) => a.InPart? && TouchesBy(g, toks, sub, i, j, a.sub)
    case Rep(_, sub) => a.InRow? && Derives(g, toks, node, i, a.from) && TouchesBy(g, toks, sub, a.from, j, a.sub)
  }

  ghost predicate NameTouchesBy(g: Rules, toks: seq<Token>, name: string, i: nat, j: nat, a: Attempt)
    decreases a, 0
  {
    if IsTokenName(name) then a.AtToken? && NameDerives(g, toks, name, i, j)
    else a.InRule? && name in g.bodies && TouchesBy(g, toks, g.bodies[name], i, j, a.body)
  }

  /** Some attempt to read `node` from `i` matches a token that ends at `j`. */
  ghost predicate Touches(g: Rules, toks: seq<Token>, node: Node, i: nat, j: nat) {
    exists a :: TouchesBy(g, toks, node, i, j, a)
  }

  ghost predicate NameTouches(g: Rules, toks: seq<Token>, name: string, i: nat, j: nat) {
    exists a :: NameTouchesBy(g, toks, name, i, j, a)
  }

  /** No attempt gets beyond `f`. */
  ghost predicate Covers(g: Rules, toks: seq<Token>, node: Node, i: nat, f: nat) {
    forall j: nat :: Touches(g, toks, node, i, j) ==> j <= f
  }

  ghost predicate NameCovers(g: Rules, toks: seq<Token>, name: string, i: nat, f: nat) {
    forall j: nat :: NameTouches(g, toks, name, i, j) ==> j <= f
  }

  /** The position noted was noted before, is where the reading of `node` began, or was reached by an attempt. */
  ghost predicate Explained(g: Rules, toks: seq<Token>, node: Node, i: nat, before: nat, f: nat) {
    f == before || f == i || Touches(g, toks, node, i, f)
  }

  // ---- attempts of the parts are attempts of the whole

  lemma NtTouches(g: Rules, toks: seq<Token>, node: Node, i: nat, j: nat)
    requires node.Nt?
    ensures Touches(g, toks, node, i, j) <==> NameTouches(g, toks, node.name, i, j)
  {
    if a :| TouchesBy(g, toks, node, i, j, a) { assert NameTouchesBy(g, toks, node.name, i, j, a); }
    if a :| NameTouchesBy(g, toks, node.name, i, j, a) { assert TouchesBy(g, toks, node, i, j, a); }
  }

  lemma RuleTouches(g: Rules, toks: seq<Token>, name: string, i: nat, j: nat)
    requires name in g.bodies && !IsTokenName(name)
    ensures NameTouches(g, toks, name, i, j) <==> Touches(g, toks, g.bodies[name], i, j)
  {
    if a :| NameTouchesBy(g, toks, name, i, j, a) { assert TouchesBy(g, toks, g.bodies[name], i, j, a.body); }
    if a :| TouchesBy(g, toks, g.bodies[name], i, j, a) { assert NameTouchesBy(g, toks, name, i, j, InRule(a)); }
  }

  lemma SymbolTouches(g: Rules, toks: seq<Token>, name: string, i: nat, j: nat)
    requires IsTokenName(name)
    ensures NameTouches(g, toks, name, i, j) <==> NameDerives(g, toks, name, i, j)
  {
    if NameDerives(g, toks, name, i, j) { assert NameTouchesBy(g, toks, name, i, j, AtToken); }
  }

  lemma TermTouches(g: Rules, toks: seq<Token>, node: Node, i: nat, j: nat)
    requires node.Term?
    ensures Touches(g, toks, node, i, j) <==> Derives(g, toks, node, i, j)
  {
    if Derives(g, toks, node, i, j) { assert TouchesBy(g, toks, node, i, j, AtToken); }
  }

  lemma SeqTouches(g: Rules, toks: seq<Token>, node: Node, k: nat, i: nat, p: nat, j: nat)
    requires node.Seq? && k < |node.kids| && Derives(g, toks, Front(node, k), i, p) && Touches(g, toks, node.kids[k], p, j)
    ensures Touches(g, toks, node, i, j)
  {
    var a :| TouchesBy(g, toks, node.kids[k], p, j, a);
    assert TouchesBy(g, toks, node, i, j, InRow(k, p, a));
  }

  lemma AltTouches(g: Rules, toks: seq<Token>, node: Node, i: nat, j: nat)
    requires node.Alt?
    ensures Touches(g, toks, node, i, j) <==> exists k :: 0 <= k < |node.kids| && Touches(g, toks, node.kids[k], i, j)
  {
    if a :| TouchesBy(g, toks, node, i, j, a) { assert TouchesBy(g, toks, node.kids[a.k], i, j, a.sub); }
    if k :| 0 <= k < |node.kids| && Touches(g, toks, node.kids[k], i, j) {
      var a :| TouchesBy(g, toks, node.kids[k], i, j, a);
      assert TouchesBy(g, toks, node, i, j, InBranch(k, a));
    }
  }

  lemma OptTouches(g: Rules, toks: seq<Token>, node: Node, i: nat, j: nat)
    requires node.Opt?
    ensures Touches(g, toks, node, i, j) <==> Touches(g, toks, node.sub, i, j)
  {
    if a :| TouchesBy(g, toks, node, i, j, a) { assert TouchesBy(g, toks, node.sub, i, j, a.sub); }
    if a :| TouchesBy(g, toks, node.sub, i, j, a) { assert TouchesBy(g, toks, node, i, j, InPart(a)); }
  }

  lemma RepTouches(g: Rules, toks: seq<Token>, node: Node, i: nat, p: nat, j: nat)
    requires node.Rep? && Derives(g, toks, node, i, p) && Touches(g, toks, node.sub, p, j)
    ensures Touches(g, toks, node, i, j)
  {
    var a :| TouchesBy(g, toks, node.sub, p, j, a);
    assert TouchesBy(g, toks, node, i, j, InRow(0, p, a));
  }

  // ---- a derivation that reads a token ends with one

  lemma {:induction false} SpellsTouches(g: Rules, toks: seq<Token>, node: Node, i: nat, j: nat, t: Tree)
    requires Spells(g, toks, node, i, j, t) && Ended(toks) && i < j
    ensures Touches(g, toks, node, i, j)
    decreases t, 1
  {
    match node
    case Term(_, _) => TermTouches(g, toks, node, i, j);
    case Nt(_, name) =>
      NtTouches(g, toks, node, i, j);
      if IsTokenName(name) {
        SymbolTouches(g, toks, name, i, j);
        NtDerives(g, toks, node, i, j);
      } else {
        SpellsTouches(g, toks, g.bodies[name], i, j, t.body);
        RuleTouches(g, toks, name, i, j);
      }
    case Seq(_, kids) => RowTouches(g, toks, node, i, t, |kids|);
    case Alt(_, kids) =>
      SpellsTouches(g, toks, kids[t.branch], i, j, t.sub);
      AltTouches(g, toks, node, i, j);
    case Opt(_, sub) =>
      SpellsTouches(g, toks, sub, i, j, t.sub);
      OptTouches(g, toks, node, i, j);
    case Rep(_, sub) => IterationsTouch(g, toks, node, i, j, t, |t.items|);
  }

  /** The last part that reads anything. */
  lemma {:induction false} RowTouches(g: Rules, toks: seq<Token>, node: Node, i: nat, t: Tree, n: nat)
    requires node.Seq? && Ended(toks) && t.Row? && |t.items| == |node.kids| == |t.cuts| - 1 && n <= |node.kids|
    requires forall k :: 0 <= k < |node.kids| ==> Spells(g, toks, node.kids[k], t.cuts[k], t.cuts[k + 1], t.items[k])
    requires t.cuts[0] == i < t.cuts[n]
    ensures Touches(g, toks, node, i, t.cuts[n])
    decreases t, 0, n
  {
    var k := n - 1;
    SpellsBounds(g, toks, node.kids[k], t.cuts[k], t.cuts[k + 1], t.items[k]);
    if t.cuts[k] == t.cuts[n] {
      RowTouches(g, toks, node, i, t, k);
    } else {
      SpellsTouches(g, toks, node.kids[k], t.cuts[k], t.cuts[n], t.items[k]);
      assert Spells(g, toks, Front(node, k), i, t.cuts[k], Row(t.cuts[..k + 1], t.items[..k]));
      SeqTouches(g, toks, node, k, i, t.cuts[k], t.cuts[n]);
    }
  }

  lemma {:induction false} IterationsTouch(g: Rules, toks: seq<Token>, node: Node, i: nat, j: nat, t: Tree, n: nat)
    requires node.Rep? && Ended(toks) && Spells(g, toks, node, i, j, t) && n <= |t.items| && i < t.cuts[n]
    ensures Touches(g, toks, node, i, t.cuts[n])
    decreases t, 0, n
  {
    var k := n - 1;
    assert Spells(g, toks, node.sub, t.cuts[k], t.cuts[k + 1], t.items[k]);
    SpellsBounds(g, toks, node.sub, t.cuts[k], t.cuts[k + 1], t.items[k]);
    if t.cuts[k] == t.cuts[n] {
      IterationsTouch(g, toks, node, i, j, t, k);
    } else {
      SpellsTouches(g, toks, node.sub, t.cuts[k], t.cuts[n], t.items[k]);
      assert Spells(g, toks, node, i, t.cuts[k], Row(t.cuts[..k + 1], t.items[..k]));
      RepTouches(g, toks, node, i, t.cuts[k], t.cuts[n]);
    }
  }

  lemma DerivesTouches(g: Rules, toks: seq<Token>, node: Node, i: nat, j: nat)
    requires Derives(g, toks, node, i, j) && Ended(toks) && i < j
    ensures Touches(g, toks, node, i, j)
  {
    var t :| Spells(g, toks, node, i, j, t);
    SpellsTouches(g, toks, node, i, j, t);
  }

  /** What the first parts of a sequence derive, an attempt at the whole reaches. */
  lemma FrontTouches(g: Rules, toks: seq<Token>, node: Node, k: nat, i: nat, p: nat)
    requires node.Seq? && k <= |node.kids| && Derives(g, toks, Front(node, k), i, p) && Ended(toks) && i < p
    ensures Touches(g, toks, node, i, p)
  {
    DerivesTouches(g, toks, Front(node, k), i, p);
    var a :| TouchesBy(g, toks, Front(node, k), i, p, a);
    assert Front(Front(node, k), a.k) == Front(node, a.k);
    assert TouchesBy(g, toks, node, i, p, a);
  }

  // ---- explained positions

  lemma SeqExplained(g: Rules, toks: seq<Token>, node: Node, k: nat, i: nat, p: nat, f0: nat, f1: nat, f2: nat)
    requires node.Seq? && k < |node.kids| && Derives(g, toks, Front(node, k), i, p) && Ended(toks)
    requires Explained(g, toks, node, i, f0, f1) && Explained(g, toks, node.kids[k], p, f1, f2)
    ensures Explained(g, toks, node, i, f0, f2)
  {
    DerivesBounds(g, toks, Front(node, k), i, p);
    if f2 == p && p > i { FrontTouches(g, toks, node, k, i, p); }
    if Touches(g, toks, node.kids[k], p, f2) { SeqTouches(g, toks, node, k, i, p, f2); }
  }

  lemma RepExplained(g: Rules, toks: seq<Token>, node: Node, i: nat, p: nat, f0: nat, f1: nat, f2: nat)
    requires node.Rep? && Derives(g, toks, node, i, p) && Ended(toks)
    requires Explained(g, toks, node, i, f0, f1) && Explained(g, toks, node.sub, p, f1, f2)
    ensures Explained(g, toks, node, i, f0, f2)
  {
    DerivesBounds(g, toks, node, i, p);
    if f2 == p && p > i { DerivesTouches(g, toks, node, i, p); }
    if Touches(g, toks, node.sub, p, f2) { RepTouches(g, toks, node, i, p, f2); }
  }

  /** A sequence is covered when each part is, from all positions its front leads to. */
  lemma SeqCovered(g: Rules, toks: seq<Token>, node: Node, i: nat, f: nat)
    requires node.Seq?
    requires forall k, p: nat :: 0 <= k < |node.kids| && Derives(g, toks, Front(node, k), i, p) ==> Covers(g, toks, node.kids[k], p, f)
    ensures Covers(g, toks, node, i, f)
  {
    forall j: nat | Touches(g, toks, node, i, j)
      ensures j <= f
    {
      var a :| TouchesBy(g, toks, node, i, j, a);
      assert TouchesBy(g, toks, node.kids[a.k], a.from, j, a.sub);
      assert Touches(g, toks, node.kids[a.k], a.from, j) && Covers(g, toks, node.kids[a.k], a.from, f);
    }
  }

  lemma RepCovered(g: Rules, toks: seq<Token>, node: Node, i: nat, f: nat)
    requires node.Rep? && forall p: nat :: Derives(g, toks, node, i, p) ==> Covers(g, toks, node.sub, p, f)
    ensures Covers(g, toks, node, i, f)
  {
    forall j: nat | Touches(g, toks, node, i, j)
      ensures j <= f
    {
      var a :| TouchesBy(g, toks, node, i, j, a);
      assert TouchesBy(g, toks, node.sub, a.from, j, a.sub);
      assert Touches(g, toks, node.sub, a.from, j) && Covers(g, toks, node.sub, a.from, f);
    }
  }
}
