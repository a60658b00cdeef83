/**
 EBNF grammars as scripts/grammar_check.py reads them, derivations of token spans, and left recursion.
 */
module Grammar {
  /** `id` is the identity of the node within its grammar. */
  datatype Node =
    | Term(id: nat, text: string)
    | Nt(id: nat, name: string)
    | Seq(id: nat, kids: seq<Node>)
    | Alt(id: nat, kids: seq<Node>)
    | Opt(id: nat, sub: Node)
    | Rep(id: nat, sub: Node)

  datatype Token = Token(kind: string, text: string)

  datatype Rules = Rules(bodies: map<string, Node>, keywords: set<string>)

  const TOKEN_SYMBOLS: set<string> := {"IDENT", "INT", "FLOAT", "STRING"}

  /** A derivation; a row keeps the positions between its items. */
  datatype Tree =
    | Tok
    | Rule(body: Tree)
    | Pick(branch: nat, sub: Tree)
    | Skip
    | Take(sub: Tree)
    | Row(cuts: seq<nat>, items: seq<Tree>)

  predicate TermAt(g: Rules, toks: seq<Token>, text: string, i: nat) {
    && i < |toks| && toks[i].kind != "EOF" && toks[i].text == text
    && (toks[i].kind != "IDENT" || text !in g.keywords)
  }

  /** A terminal is written by a token with its text that is not the end of file and no identifier, if the text is a
      keyword. */
  predicate Writes(g: Rules, tok: Token, text: string) {
    tok.text == text && tok.kind != "EOF" && (text in g.keywords ==> tok.kind != "IDENT")
  }

  /** The names that stand for any token of a kind. */
  predicate IsTokenName(name: string) { name == "IDENT" || name == "INT" || name == "FLOAT" || name == "STRING" }

  /** `t` derives the tokens from `i` up to `j` from `node`. */
  ghost predicate Spells(g: Rules, toks: seq<Token>, node: Node, i: nat, j: nat, t: Tree)
    decreases t, 1
  {
    match node
    case Term(_, text) => t.Tok? && i < |toks| && Writes(g, toks[i], text) && j == i + 1
    case Nt(_, name) => SpellsName(g, toks, name, i, j, t)
    case Seq(_, kids) =>
      && t.Row? && |t.items| == |kids| && Cuts(t.cuts, |kids|, i, j)
      && forall k :: 0 <= k < |kids| ==> Spells(g, toks, kids[k], t.cuts[k], t.cuts[k + 1], t.items[k])
    case Alt(_, kids) => t.Pick? && t.branch < |kids| && Spells(g, toks, kids[t.branch], i, j, t.sub)
    case Opt(_, sub) => (t.Skip? && i == j) || (t.Take? && Spells(g, toks, sub, i, j, t.sub))
    case Rep(_, sub) =>
      && t.Row? && Cuts(t.cuts, |t.items|, i, j)
      && forall k :: 0 <= k < |t.items| ==> Spells(g, toks, sub, t.cuts[k], t.cuts[k + 1], t.items[k])
  }

  ghost predicate SpellsName(g: Rules, toks: seq<Token>, name: string, i: nat, j: nat, t: Tree)
    decreases t, 0
  {
    if IsTokenName(name) then t.Tok? && i < |toks| && toks[i].kind == name && j == i + 1
    else t.Rule? && name in g.bodies && Spells(g, toks, g.bodies[name], i, j, t.body)
  }

  ghost predicate Cuts(cuts: seq<nat>, n: nat, i: nat, j: nat) {
    |cuts| == n + 1 && cuts[0] == i && cuts[n] == j
  }

  ghost predicate Derives(g: Rules, toks: seq<Token>, node: Node, i: nat, j: nat) {
    exists t :: Spells(g, toks, node, i, j, t)
  }

  ghost predicate NameDerives(g: Rules, toks: seq<Token>, name: string, i: nat, j: nat) {
    exists t :: SpellsName(g, toks, name, i, j, t)
  }

  /** Every name used is a rule or a token symbol (_check_refs). */
  predicate Refs(g: Rules, node: Node) {
    match node
    case Term(_, _) => true
    case Nt(_, name) => name in g.bodies || name in TOKEN_SYMBOLS
    case Seq(_, kids) => forall k :: 0 <= k < |kids| ==> Refs(g, kids[k])
    case Alt(_, kids) => forall k :: 0 <= k < |kids| ==> Refs(g, kids[k])
    case Opt(_, sub) => Refs(g, sub)
    case Rep(_, sub) => Refs(g, sub)
  }

  predicate AllRefs(g: Rules) { forall name :: name in g.bodies ==> Refs(g, g.bodies[name]) }

  /** The token list ends with the end-of-file token. */
  predicate Ended(toks: seq<Token>) { |toks| > 0 && toks[|toks| - 1].kind == "EOF" }

  /** A derivation never goes back and never past the end-of-file token. */
  lemma {:induction false} SpellsBounds(g: Rules, toks: seq<Token>, node: Node, i: nat, j: nat, t: Tree)
    requires Spells(g, toks, node, i, j, t) && Ended(toks)
    ensures i <= j && (i < |toks| ==> j < |toks|)
    decreases t, 1
  {
    match node
    case Term(_, _) =>
    case Nt(_, name) => if name !in TOKEN_SYMBOLS { SpellsBounds(g, toks, g.bodies[name], i, j, t.body); }
    case Seq(_, kids) => RowBounds(g, toks, kids, t, |kids|);
    case Alt(_, kids) => SpellsBounds(g, toks, kids[t.branch], i, j, t.sub);
    case Opt(_, sub) => if t.Take? { SpellsBounds(g, toks, sub, i, j, t.sub); }
    case Rep(_, sub) => RowBounds(g, toks, seq(|t.items|, _ => sub), t, |t.items|);
  }

  lemma {:induction false} RowBounds(g: Rules, toks: seq<Token>, kids: seq<Node>, t: Tree, n: nat)
    requires t.Row? && |t.items| == |kids| && |t.cuts| == |kids| + 1 && n <= |kids| && Ended(toks)
    requires forall k :: 0 <= k < |kids| ==> Spells(g, toks, kids[k], t.cuts[k], t.cuts[k + 1], t.items[k])
    ensures t.cuts[0] <= t.cuts[n] && (t.cuts[0] < |toks| ==> t.cuts[n] < |toks|)
    decreases t, 0, n
  {
    if n > 0 {
      RowBounds(g, toks, kids, t, n - 1);
      SpellsBounds(g, toks, kids[n - 1], t.cuts[n - 1], t.cuts[n - 1 + 1], t.items[n - 1]);
    }
  }

  lemma DerivesBounds(g: Rules, toks: seq<Token>, node: Node, i: nat, j: nat)
    requires Derives(g, toks, node, i, j) && Ended(toks)
    ensures i <= j && (i < |toks| ==> j < |toks|)
  {
    var t :| Spells(g, toks, node, i, j, t);
    SpellsBounds(g, toks, node, i, j, t);
  }

  // ---- sequences and repetitions, one item at a time

  /** The first `k` items of a sequence. */
  function Front(node: Node, k: nat): Node
    requires node.Seq? && k <= |node.kids|
  {
    Seq(node.id, node.kids[..k])
  }

  lemma SeqNone(g: Rules, toks: seq<Token>, node: Node, i: nat, j: nat)
    requires node.Seq?
    ensures Derives(g, toks, Front(node, 0), i, j) <==> i == j
  {
    if i == j { assert Spells(g, toks, Front(node, 0), i, j, Row([i], [])); }
  }

  lemma SeqMore(g: Rules, toks: seq<Token>, node: Node, k: nat, i: nat, p: nat, q: nat)
    requires node.Seq? && k < |node.kids|
    requires Derives(g, toks, Front(node, k), i, p) && Derives(g, toks, node.kids[k], p, q)
    ensures Derives(g, toks, Front(node, k + 1), i, q)
  {
    var a :| Spells(g, toks, Front(node, k), i, p, a);
    var b :| Spells(g, toks, node.kids[k], p, q, b);
    assert Spells(g, toks, Front(node, k + 1), i, q, Row(a.cuts + [q], a.items + [b]));
  }

  lemma SeqSplit(g: Rules, toks: seq<Token>, node: Node, k: nat, i: nat, q: nat) returns (p: nat)
    requires node.Seq? && k < |node.kids| && Derives(g, toks, Front(node, k + 1), i, q)
    ensures Derives(g, toks, Front(node, k), i, p) && Derives(g, toks, node.kids[k], p, q)
  {
    var t :| Spells(g, toks, Front(node, k + 1), i, q, t);
    p := t.cuts[k];
    assert Spells(g, toks, Front(node, k), i, p, Row(t.cuts[..k + 1], t.items[..k]));
    assert Spells(g, toks, Front(node, k + 1).kids[k], p, q, t.items[k]);
  }

  /** With no derivation of a front there is none of the whole. */
  lemma SeqFronts(g: Rules, toks: seq<Token>, node: Node, k: nat, i: nat, j: nat)
    requires node.Seq? && k <= |node.kids| && Derives(g, toks, node, i, j)
    ensures exists p: nat :: Derives(g, toks, Front(node, k), i, p)
  {
    var t :| Spells(g, toks, node, i, j, t);
    assert Spells(g, toks, Front(node, k), i, t.cuts[k], Row(t.cuts[..k + 1], t.items[..k]));
    assert Derives(g, toks, Front(node, k), i, t.cuts[k]);
  }

  lemma RepNone(g: Rules, toks: seq<Token>, node: Node, i: nat)
    requires node.Rep?
    ensures Derives(g, toks, node, i, i)
  {
    assert Spells(g, toks, node, i, i, Row([i], []));
  }

  lemma RepMore(g: Rules, toks: seq<Token>, node: Node, i: nat, p: nat, q: nat)
    requires node.Rep? && Derives(g, toks, node, i, p) && Derives(g, toks, node.sub, p, q)
    ensures Derives(g, toks, node, i, q)
  {
    var a :| Spells(g, toks, node, i, p, a);
    var b :| Spells(g, toks, node.sub, p, q, b);
    assert Spells(g, toks, node, i, q, Row(a.cuts + [q], a.items + [b]));
  }

  /** Positions closed under strictly advancing iterations. */
  ghost predicate Advances(g: Rules, toks: seq<Token>, sub: Node, p: nat, s: set<nat>) {
    forall q: nat :: Derives(g, toks, sub, p, q) && p < q ==> q in s
  }

  lemma {:induction false} RepWithin(g: Rules, toks: seq<Token>, node: Node, s: set<nat>, i: nat, j: nat, t: Tree, k: nat)
    requires node.Rep? && Ended(toks) && i in s && (forall p :: p in s ==> Advances(g, toks, node.sub, p, s))
    requires Spells(g, toks, node, i, j, t) && k <= |t.items|
    ensures t.cuts[k] in s
    decreases k
  {
    if k > 0 {
      RepWithin(g, toks, node, s, i, j, t, k - 1);
      var p, q := t.cuts[k - 1], t.cuts[k - 1 + 1];
      assert Spells(g, toks, node.sub, p, q, t.items[k - 1]);
      SpellsBounds(g, toks, node.sub, p, q, t.items[k - 1]);
      assert Advances(g, toks, node.sub, p, s);
    }
  }

  lemma RepClosed(g: Rules, toks: seq<Token>, node: Node, s: set<nat>, i: nat, j: nat)
    requires node.Rep? && Ended(toks) && i in s && (forall p :: p in s ==> Advances(g, toks, node.sub, p, s))
    requires Derives(g, toks, node, i, j)
    ensures j in s
  {
    var t :| Spells(g, toks, node, i, j, t);
    RepWithin(g, toks, node, s, i, j, t, |t.items|);
  }

  lemma AltAny(g: Rules, toks: seq<Token>, node: Node, i: nat, j: nat)
    requires node.Alt?
    ensures Derives(g, toks, node, i, j) <==> exists k :: 0 <= k < |node.kids| && Derives(g, toks, node.kids[k], i, j)
  {
    if t :| Spells(g, toks, node, i, j, t) {
      assert Spells(g, toks, node.kids[t.branch], i, j, t.sub);
      assert Derives(g, toks, node.kids[t.branch], i, j);
    }
    if k :| 0 <= k < |node.kids| && Derives(g, toks, node.kids[k], i, j) {
      var b :| Spells(g, toks, node.kids[k], i, j, b);
      assert Spells(g, toks, node, i, j, Pick(k, b));
    }
  }

  lemma OptEither(g: Rules, toks: seq<Token>, node: Node, i: nat, j: nat)
    requires node.Opt?
    ensures Derives(g, toks, node, i, j) <==> i == j || Derives(g, toks, node.sub, i, j)
  {
    if i == j { assert Spells(g, toks, node, i, j, Skip); }
    if b :| Spells(g, toks, node.sub, i, j, b) { assert Spells(g, toks, node, i, j, Take(b)); }
    if t :| Spells(g, toks, node, i, j, t) {
      if t.Take? { assert Spells(g, toks, node.sub, i, j, t.sub); }
    }
  }

  lemma NtDerives(g: Rules, toks: seq<Token>, node: Node, i: nat, j: nat)
    requires node.Nt?
    ensures Derives(g, toks, node, i, j) <==> NameDerives(g, toks, node.name, i, j)
  {
    if t :| SpellsName(g, toks, node.name, i, j, t) { assert Spells(g, toks, node, i, j, t); }
    if t :| Spells(g, toks, node, i, j, t) { assert SpellsName(g, toks, node.name, i, j, t); }
  }

  lemma TermDerives(g: Rules, toks: seq<Token>, node: Node, i: nat, j: nat)
    requires node.Term?
    ensures Derives(g, toks, node, i, j) <==> TermAt(g, toks, node.text, i) && j == i + 1
  {
    if TermAt(g, toks, node.text, i) && j == i + 1 { assert Spells(g, toks, node, i, j, Tok); }
  }

  lemma RuleDerives(g: Rules, toks: seq<Token>, name: string, i: nat, j: nat)
    requires name in g.bodies && name !in TOKEN_SYMBOLS
    ensures NameDerives(g, toks, name, i, j) <==> Derives(g, toks, g.bodies[name], i, j)
  {
    if t :| Spells(g, toks, g.bodies[name], i, j, t) { assert SpellsName(g, toks, name, i, j, Rule(t)); }
    if t :| SpellsName(g, toks, name, i, j, t) { assert Spells(g, toks, g.bodies[name], i, j, t.body); }
  }

  lemma SymbolDerives(g: Rules, toks: seq<Token>, name: string, i: nat, j: nat)
    requires name in TOKEN_SYMBOLS
    ensures NameDerives(g, toks, name, i, j) <==> i < |toks| && toks[i].kind == name && j == i + 1
  {
    if i < |toks| && toks[i].kind == name && j == i + 1 { assert SpellsName(g, toks, name, i, j, Tok); }
  }

  // ---- left recursion

  /** `node` derives no tokens at all. */
  ghost predicate Nullable(g: Rules, node: Node) {
    exists toks, i :: Derives(g, toks, node, i, i)
  }

  /** A derivation of `node` may begin with one of `name`. */
  ghost predicate LeftCorner(g: Rules, node: Node, name: string) {
    match node
    case Term(_, _) => false
    case Nt(_, n) => n == name
    case Seq(id, kids) => exists k :: 0 <= k < |kids| && Nullable(g, Front(node, k)) && LeftCorner(g, kids[k], name)
    case Alt(_, kids) => exists k :: 0 <= k < |kids| && LeftCorner(g, kids[k], name)
    case Opt(_, sub) => LeftCorner(g, sub, name)
    case Rep(_, sub) => LeftCorner(g, sub, name)
  }

  ghost predicate Begins(g: Rules, a: string, b: string) {
    a !in TOKEN_SYMBOLS && a in g.bodies && LeftCorner(g, g.bodies[a], b)
  }

  /** `names` is a chain in which each rule may begin with the next. */
  ghost predicate Chain(g: Rules, names: seq<string>) {
    forall k :: 0 <= k < |names| - 1 ==> Begins(g, names[k], names[k + 1])
  }

  ghost predicate LeadsTo(g: Rules, a: string, b: string) {
    exists names :: LeadsBy(g, a, b, names)
  }

  ghost predicate LeadsBy(g: Rules, a: string, b: string, names: seq<string>) {
    |names| >= 2 && names[0] == a && names[|names| - 1] == b && Chain(g, names)
  }

  /** No rule can begin with itself, directly or through others. */
  ghost predicate NoLeftRecursion(g: Rules) {
    forall a :: !LeadsTo(g, a, a)
  }

  lemma LeadsOne(g: Rules, a: string, b: string)
    requires Begins(g, a, b)
    ensures LeadsTo(g, a, b)
  {
    assert LeadsBy(g, a, b, [a, b]);
  }

  lemma LeadsMore(g: Rules, a: string, b: string, c: string)
    requires LeadsTo(g, a, b) && Begins(g, b, c)
    ensures LeadsTo(g, a, c)
  {
    var names :| LeadsBy(g, a, b, names);
    var more := names + [c];
    forall k | 0 <= k < |more| - 1
      ensures Begins(g, more[k], more[k + 1])
    {
      if k < |names| - 1 { assert Begins(g, names[k], names[k + 1]); }
    }
    assert LeadsBy(g, a, c, more);
  }
}
