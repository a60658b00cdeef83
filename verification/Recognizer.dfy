/** The memoized set-of-positions recognizer of scripts/grammar_check.py. */
module Recognizer {
  import opened Grammar
  import opened Attempts

  type Key = (string, nat)

  ghost predicate Sound(g: Rules, toks: seq<Token>, node: Node, i: nat, r: set<nat>) {
    forall j :: j in r ==> Derives(g, toks, node, i, j)
  }

  ghost predicate Complete(g: Rules, toks: seq<Token>, node: Node, i: nat, r: set<nat>) {
    forall j: nat :: Derives(g, toks, node, i, j) ==> j in r
  }

  /** `r` holds only ends of derivations, and all of them if the grammar has no left recursion. */
  ghost predicate Ends(g: Rules, toks: seq<Token>, node: Node, i: nat, r: set<nat>) {
    Sound(g, toks, node, i, r) && (NoLeftRecursion(g) ==> Complete(g, toks, node, i, r))
  }

  ghost predicate NameEnds(g: Rules, toks: seq<Token>, name: string, i: nat, r: set<nat>) {
    && (forall j :: j in r ==> NameDerives(g, toks, name, i, j))
    && (NoLeftRecursion(g) ==> forall j: nat :: NameDerives(g, toks, name, i, j) ==> j in r)
  }

  /** No end lies beyond both the start and the furthest position noted. */
  ghost predicate Noted(i: nat, r: set<nat>, furthest: nat) {
    forall j :: j in r ==> j <= i || j <= furthest
  }

  ghost predicate MemoRight(g: Rules, toks: seq<Token>, memo: map<Key, set<nat>>, furthest: nat) {
    forall key :: key in memo ==>
      && NameEnds(g, toks, key.0, key.1, memo[key])
      && (key.0 !in TOKEN_SYMBOLS ==> Noted(key.1, memo[key], furthest) && (NoLeftRecursion(g) ==> NameCovers(g, toks, key.0, key.1, furthest)))
  }

  /** Every open rule started no later, and one started here may begin with whatever `node` may. */
  ghost predicate Opened(g: Rules, active: set<Key>, node: Node, i: nat) {
    forall key :: key in active ==> key.1 <= i && (key.1 == i ==> LeadsInto(g, key.0, node))
  }

  ghost predicate Allowed(g: Rules, toks: seq<Token>, active: set<Key>, node: Node, i: nat) {
    i < |toks| && Refs(g, node) && (NoLeftRecursion(g) ==> Opened(g, active, node, i))
  }

  ghost predicate LeadsInto(g: Rules, a: string, node: Node) {
    forall b :: LeftCorner(g, node, b) ==> LeadsTo(g, a, b)
  }

  lemma OpenRule(g: Rules, active: set<Key>, node: Node, i: nat)
    requires node.Nt? && node.name in g.bodies && node.name !in TOKEN_SYMBOLS && Opened(g, active, node, i)
    ensures Opened(g, active + {(node.name, i)}, g.bodies[node.name], i)
  {
    var body := g.bodies[node.name];
    forall key | key in active + {(node.name, i)} && key.1 == i
      ensures LeadsInto(g, key.0, body)
    {
      forall b | LeftCorner(g, body, b)
        ensures LeadsTo(g, key.0, b)
      {
        if key in active { LeadsMore(g, key.0, node.name, b); } else { LeadsOne(g, node.name, b); }
      }
    }
  }

  /** Without left recursion the guard never stops a call. */
  lemma NotOpen(g: Rules, active: set<Key>, node: Node, i: nat)
    requires NoLeftRecursion(g) && node.Nt? && Opened(g, active, node, i)
    ensures (node.name, i) !in active
  {
    assert LeftCorner(g, node, node.name);
  }

  lemma OpenKid(g: Rules, toks: seq<Token>, active: set<Key>, node: Node, i: nat, k: nat, p: nat)
    requires node.Seq? && k < |node.kids| && Opened(g, active, node, i) && Ended(toks)
    requires Derives(g, toks, Front(node, k), i, p)
    ensures Opened(g, active, node.kids[k], p)
  {
    DerivesBounds(g, toks, Front(node, k), i, p);
    if i == p {
      assert Nullable(g, Front(node, k));
      assert forall b :: LeftCorner(g, node.kids[k], b) ==> LeftCorner(g, node, b);
    }
  }

  lemma OpenBranch(g: Rules, active: set<Key>, node: Node, i: nat, k: nat)
    requires node.Alt? && k < |node.kids| && Opened(g, active, node, i)
    ensures Opened(g, active, node.kids[k], i)
  {
  }

  lemma OpenSub(g: Rules, active: set<Key>, node: Node, i: nat, p: nat)
    requires (node.Opt? || node.Rep?) && i <= p && Opened(g, active, node, i)
    ensures Opened(g, active, node.sub, p)
  {
  }

  /** `nxt` holds the ends of `node` from the positions of `from`. */
  ghost predicate Image(g: Rules, toks: seq<Token>, node: Node, from: set<nat>, nxt: set<nat>) {
    && (forall q :: q in nxt ==> exists p :: p in from && Derives(g, toks, node, p, q))
    && (NoLeftRecursion(g) ==> forall p, q: nat :: p in from && Derives(g, toks, node, p, q) ==> q in nxt)
  }

  lemma ImageMore(g: Rules, toks: seq<Token>, node: Node, from: set<nat>, nxt: set<nat>, p: nat, r: set<nat>)
    requires Image(g, toks, node, from, nxt) && Ends(g, toks, node, p, r)
    ensures Image(g, toks, node, from + {p}, nxt + r)
  {
  }

  lemma SeqAdvance(g: Rules, toks: seq<Token>, node: Node, i: nat, k: nat, from: set<nat>, nxt: set<nat>)
    requires node.Seq? && k < |node.kids| && Ends(g, toks, Front(node, k), i, from)
    requires Image(g, toks, node.kids[k], from, nxt)
    ensures Ends(g, toks, Front(node, k + 1), i, nxt)
  {
    forall q | q in nxt
      ensures Derives(g, toks, Front(node, k + 1), i, q)
    {
      var p :| p in from && Derives(g, toks, node.kids[k], p, q);
      SeqMore(g, toks, node, k, i, p, q);
    }
    if NoLeftRecursion(g) {
      forall q: nat | Derives(g, toks, Front(node, k + 1), i, q)
        ensures q in nxt
      {
        var p := SeqSplit(g, toks, node, k, i, q);
      }
    }
  }

  /** A front with no end: the sequence has none either. */
  lemma SeqDead(g: Rules, toks: seq<Token>, node: Node, i: nat, k: nat)
    requires node.Seq? && k <= |node.kids| && Ends(g, toks, Front(node, k), i, {})
    ensures Ends(g, toks, node, i, {})
  {
    if NoLeftRecursion(g) {
      assert Complete(g, toks, Front(node, k), i, {});
      forall j: nat
        ensures !Derives(g, toks, node, i, j)
      {
        if Derives(g, toks, node, i, j) { SeqFronts(g, toks, node, k, i, j); }
      }
    }
  }

  // ---- repetition

  /** The positions still to be tried: a set the search shrinks. */
  ghost function Rest(n: nat, seen: set<nat>): set<nat> { set p: nat | p < n && p !in seen }

  /** `seen` holds ends of the repetition; those not waiting have been advanced from. */
  ghost predicate RepState(g: Rules, toks: seq<Token>, node: Node, i: nat, seen: set<nat>, waiting: set<nat>) {
    && node.Rep? && i in seen && waiting <= seen && Sound(g, toks, node, i, seen)
    && (NoLeftRecursion(g) ==> forall p :: p in seen && p !in waiting ==> Advances(g, toks, node.sub, p, seen))
  }

  /** The new positions found from the frontier. */
  ghost predicate Fresh(g: Rules, toks: seq<Token>, sub: Node, from: set<nat>, seen: set<nat>, nxt: set<nat>) {
    && (forall q :: q in nxt ==> q !in seen && exists p :: p in from && p < q && Derives(g, toks, sub, p, q))
    && (NoLeftRecursion(g) ==> forall p :: p in from ==> Advances(g, toks, sub, p, seen + nxt))
  }

  lemma FreshMore(g: Rules, toks: seq<Token>, sub: Node, from: set<nat>, seen: set<nat>, nxt: set<nat>, p: nat, r: set<nat>)
    requires Fresh(g, toks, sub, from, seen, nxt) && Ends(g, toks, sub, p, r)
    ensures Fresh(g, toks, sub, from + {p}, seen, nxt + set q | q in r && q !in seen && q > p)
  {
  }

  lemma RepStep(g: Rules, toks: seq<Token>, node: Node, i: nat, seen: set<nat>, from: set<nat>, nxt: set<nat>)
    requires RepState(g, toks, node, i, seen, from) && Fresh(g, toks, node.sub, from, seen, nxt)
    ensures RepState(g, toks, node, i, seen + nxt, nxt)
  {
    forall q | q in nxt
      ensures Derives(g, toks, node, i, q)
    {
      var p :| p in from && p < q && Derives(g, toks, node.sub, p, q);
      RepMore(g, toks, node, i, p, q);
    }
    if NoLeftRecursion(g) {
      forall p | p in seen + nxt && p !in nxt
        ensures Advances(g, toks, node.sub, p, seen + nxt)
      {
        if p !in from { assert Advances(g, toks, node.sub, p, seen); }
      }
    }
  }

  lemma RepDone(g: Rules, toks: seq<Token>, node: Node, i: nat, seen: set<nat>)
    requires RepState(g, toks, node, i, seen, {}) && Ended(toks)
    ensures Ends(g, toks, node, i, seen)
  {
    if NoLeftRecursion(g) {
      forall j: nat | Derives(g, toks, node, i, j)
        ensures j in seen
      {
        RepClosed(g, toks, node, seen, i, j);
      }
    }
  }

  // ---- attempts

  /** The first `n` parts, from every position their front leads to. */
  ghost predicate PartsCovered(g: Rules, toks: seq<Token>, node: Node, i: nat, n: nat, f: nat)
    requires node.Seq? && n <= |node.kids|
  {
    forall k, p: nat :: 0 <= k < n && Derives(g, toks, Front(node, k), i, p) ==> Covers(g, toks, node.kids[k], p, f)
  }

  lemma ExplainedOn(g: Rules, toks: seq<Token>, node: Node, i: nat, f0: nat, f1: nat, f2: nat)
    requires Explained(g, toks, node, i, f0, f1) && Explained(g, toks, node, i, f1, f2)
    ensures Explained(g, toks, node, i, f0, f2)
  {
  }

  /** From each of these positions. */
  ghost predicate AllCovered(g: Rules, toks: seq<Token>, node: Node, from: set<nat>, f: nat) {
    forall p :: p in from ==> Covers(g, toks, node, p, f)
  }

  lemma CoveredMore(g: Rules, toks: seq<Token>, node: Node, from: set<nat>, p: nat, f: nat, f': nat)
    requires AllCovered(g, toks, node, from, f) && Covers(g, toks, node, p, f') && f <= f'
    ensures AllCovered(g, toks, node, from + {p}, f')
  {
  }

  /** A part of a sequence has been read from the positions in `done`, noting positions from `f0` to `f`. */
  ghost predicate PartOf(g: Rules, toks: seq<Token>, node: Node, k: nat, low: nat, done: set<nat>, nxt: set<nat>, f0: nat, f: nat)
    requires node.Seq? && k < |node.kids|
  {
    && Image(g, toks, node.kids[k], done, nxt) && Noted(low, nxt, f)
    && Explained(g, toks, node, low, f0, f)
    && (NoLeftRecursion(g) ==> AllCovered(g, toks, node.kids[k], done, f))
  }

  lemma PartMore(g: Rules, toks: seq<Token>, node: Node, k: nat, low: nat, done: set<nat>, nxt: set<nat>, p: nat, r: set<nat>, f0: nat, f1: nat, f2: nat)
    requires node.Seq? && k < |node.kids| && PartOf(g, toks, node, k, low, done, nxt, f0, f1) && f1 <= f2 && Ended(toks)
    requires Derives(g, toks, Front(node, k), low, p) && (p == low || p <= f1)
    requires Ends(g, toks, node.kids[k], p, r) && Noted(p, r, f2) && Explained(g, toks, node.kids[k], p, f1, f2)
    requires NoLeftRecursion(g) ==> Covers(g, toks, node.kids[k], p, f2)
    ensures PartOf(g, toks, node, k, low, done + {p}, nxt + r, f0, f2)
  {
    SeqExplained(g, toks, node, k, low, p, f0, f1, f2);
    if NoLeftRecursion(g) { CoveredMore(g, toks, node.kids[k], done, p, f1, f2); }
    ImageMore(g, toks, node.kids[k], done, nxt, p, r);
  }

  /** A round of a repetition has gone through `done`, noting positions from `f0` to `f`. */
  ghost predicate RoundOf(g: Rules, toks: seq<Token>, node: Node, low: nat, done: set<nat>, seen: set<nat>, nxt: set<nat>, f0: nat, f: nat)
    requires node.Rep?
  {
    && Fresh(g, toks, node.sub, done, seen, nxt) && (forall q :: q in nxt ==> q <= f)
    && Explained(g, toks, node, low, f0, f)
    && (NoLeftRecursion(g) ==> AllCovered(g, toks, node.sub, done, f))
  }

  lemma RoundMore(g: Rules, toks: seq<Token>, node: Node, low: nat, done: set<nat>, seen: set<nat>, nxt: set<nat>, p: nat, ends: set<nat>, f0: nat, f1: nat, f2: nat)
    requires node.Rep? && RoundOf(g, toks, node, low, done, seen, nxt, f0, f1) && f1 <= f2
    requires Ends(g, toks, node.sub, p, ends) && Noted(p, ends, f2) && Explained(g, toks, node, low, f1, f2)
    requires NoLeftRecursion(g) ==> Covers(g, toks, node.sub, p, f2)
    ensures RoundOf(g, toks, node, low, done + {p}, seen, nxt + (set q | q in ends && q !in seen && q > p), f0, f2)
  {
    ExplainedOn(g, toks, node, low, f0, f1, f2);
    if NoLeftRecursion(g) { CoveredMore(g, toks, node.sub, done, p, f1, f2); }
    FreshMore(g, toks, node.sub, done, seen, nxt, p, ends);
  }

  lemma NtCovered(g: Rules, toks: seq<Token>, node: Node, i: nat, r: set<nat>, f: nat)
    requires node.Nt? && (forall j: nat :: NameDerives(g, toks, node.name, i, j) ==> j in r) && forall j :: j in r ==> j <= f
    requires IsTokenName(node.name) || NameCovers(g, toks, node.name, i, f)
    ensures Covers(g, toks, node, i, f)
  {
    forall j: nat | Touches(g, toks, node, i, j)
      ensures j <= f
    {
      NtTouches(g, toks, node, i, j);
      if IsTokenName(node.name) { SymbolTouches(g, toks, node.name, i, j); }
    }
  }

  lemma MemoLater(g: Rules, toks: seq<Token>, memo: map<Key, set<nat>>, f: nat, f': nat)
    requires MemoRight(g, toks, memo, f) && f <= f'
    ensures MemoRight(g, toks, memo, f')
  {
  }

  lemma CoveredOn(g: Rules, toks: seq<Token>, node: Node, seen: set<nat>, from: set<nat>, nxt: set<nat>, f: nat, f': nat)
    requires AllCovered(g, toks, node, seen - from, f) && AllCovered(g, toks, node, from, f') && f <= f'
    ensures AllCovered(g, toks, node, (seen + nxt) - nxt, f')
  {
    forall p | p in (seen + nxt) - nxt
      ensures Covers(g, toks, node, p, f')
    {
      if p !in from { assert Covers(g, toks, node, p, f); }
    }
  }

  lemma PartsMore(g: Rules, toks: seq<Token>, node: Node, i: nat, n: nat, from: set<nat>, f: nat, f': nat)
    requires node.Seq? && n < |node.kids| && PartsCovered(g, toks, node, i, n, f) && f <= f'
    requires Complete(g, toks, Front(node, n), i, from) && AllCovered(g, toks, node.kids[n], from, f')
    ensures PartsCovered(g, toks, node, i, n + 1, f')
  {
    forall k, p: nat | 0 <= k < n + 1 && Derives(g, toks, Front(node, k), i, p)
      ensures Covers(g, toks, node.kids[k], p, f')
    {
      if k < n { assert Covers(g, toks, node.kids[k], p, f); }
    }
  }

  /** Behind a front without end nothing is attempted. */
  lemma DeadCovered(g: Rules, toks: seq<Token>, node: Node, i: nat, n: nat, f: nat)
    requires node.Seq? && n <= |node.kids| && PartsCovered(g, toks, node, i, n, f)
    requires forall p: nat :: !Derives(g, toks, Front(node, n), i, p)
    ensures Covers(g, toks, node, i, f)
  {
    forall k, p: nat | 0 <= k < |node.kids| && Derives(g, toks, Front(node, k), i, p)
      ensures Covers(g, toks, node.kids[k], p, f)
    {
      if k >= n {
        var front := Front(node, k);
        assert Front(front, n) == Front(node, n);
        SeqFronts(g, toks, front, n, i, p);
      }
    }
    SeqCovered(g, toks, node, i, f);
  }

  // ---- the recognizer

  class Recognizer {
    const g: Rules
    var toks: seq<Token>
    var memo: map<Key, set<nat>>
    var active: set<Key>
    var furthest: nat

    ghost predicate Valid()
      reads this
    {
      AllRefs(g) && Ended(toks) && furthest < |toks| && MemoRight(g, toks, memo, furthest)
    }

    /** The keys no call is open for. */
    ghost function Inactive(): set<Key>
      reads this
    {
      (set name, p | name in g.bodies.Keys + TOKEN_SYMBOLS && p in Rest(|toks|, {}) :: (name, p)) - active
    }

    /** A call for `node` at `pos` is allowed. */
    ghost predicate Ready(node: Node, pos: nat)
      reads this
    {
      Valid() && Allowed(g, toks, active, node, pos)
    }

    /** What every call answers. */
    ghost predicate Answered(node: Node, pos: nat, r: set<nat>)
      reads this
    {
      Ends(g, toks, node, pos, r) && Noted(pos, r, furthest) && (NoLeftRecursion(g) ==> Covers(g, toks, node, pos, furthest))
    }

    constructor (g: Rules)
      requires AllRefs(g)
      ensures this.g == g && active == {}
    {
      this.g := g;
      toks, memo, active, furthest := [], map[], {}, 0;
    }

    method Note(q: nat)
      requires Valid() && q < |toks|
      modifies this`furthest
      ensures Valid() && furthest == if q > old(furthest) then q else old(furthest)
    {
      if q > furthest { furthest := q; }
    }

    /** _nt */
    method Name(ghost node: Node, name: string, pos: nat) returns (r: set<nat>)
      requires Ready(node, pos) && node.Nt? && node.name == name
      modifies this`memo, this`active, this`furthest
      ensures Valid() && active == old(active) && furthest >= old(furthest)
      ensures NameEnds(g, toks, name, pos, r) && (name !in TOKEN_SYMBOLS ==> Noted(pos, r, furthest))
      ensures name !in TOKEN_SYMBOLS && NoLeftRecursion(g) ==> NameCovers(g, toks, name, pos, furthest)
      ensures Explained(g, toks, node, pos, old(furthest), furthest)
      decreases Inactive(), 0
    {
      var key := (name, pos);
      if key in memo { return memo[key]; }
      if key in active {
        if NoLeftRecursion(g) { NotOpen(g, active, node, pos); }
        return {};
      }
      assert key in Inactive();
      active := active + {key};
      if name in TOKEN_SYMBOLS {
        forall j: nat { SymbolDerives(g, toks, name, pos, j); }
        r := if toks[pos].kind == name then {pos + 1} else {};
      } else {
        if NoLeftRecursion(g) { OpenRule(g, old(active), node, pos); }
        r := NodeEnds(g.bodies[name], pos);
        forall j: nat { RuleDerives(g, toks, name, pos, j); }
        forall j: nat { RuleTouches(g, toks, name, pos, j); }
        NtTouches(g, toks, node, pos, furthest);
      }
      active := active - {key};
      memo := memo[key := r];
    }

    /** _node */
    method NodeEnds(node: Node, pos: nat) returns (r: set<nat>)
      requires Ready(node, pos)
      modifies this`memo, this`active, this`furthest
      ensures Valid() && active == old(active) && furthest >= old(furthest) && Answered(node, pos, r)
      ensures Explained(g, toks, node, pos, old(furthest), furthest)
      decreases Inactive(), 1, node, 4
    {
      match node
      case Term(_, text) =>
        forall j: nat { TermDerives(g, toks, node, pos, j); }
        forall j: nat { TermTouches(g, toks, node, pos, j); }
        if TermAt(g, toks, text, pos) {
          Note(pos + 1);
          return {pos + 1};
        }
        return {};
      case Nt(_, name) =>
        r := NtEnds(node, pos);
      case Seq(_, _) =>
        r := SeqEnds(node, pos);
      case Alt(_, _) =>
        r := AltEnds(node, pos);
      case Opt(_, sub) =>
        if NoLeftRecursion(g) { OpenSub(g, active, node, pos, pos); }
        r := NodeEnds(sub, pos);
        forall j: nat { OptEither(g, toks, node, pos, j); }
        forall j: nat { OptTouches(g, toks, node, pos, j); }
        r := {pos} + r;
      case Rep(_, _) =>
        r := RepEnds(node, pos);
    }

    method NtEnds(node: Node, pos: nat) returns (r: set<nat>)
      requires Ready(node, pos) && node.Nt?
      modifies this`memo, this`active, this`furthest
      ensures Valid() && active == old(active) && furthest >= old(furthest) && Answered(node, pos, r)
      ensures Explained(g, toks, node, pos, old(furthest), furthest)
      decreases Inactive(), 1, node, 1
    {
      r := Name(node, node.name, pos);
      forall j: nat { NtDerives(g, toks, node, pos, j); }
      if r != {} {
        var m := Max(r);
        DerivesBounds(g, toks, node, pos, m);
        if pos < m { DerivesTouches(g, toks, node, pos, m); }
        Note(m);
      }
      if NoLeftRecursion(g) { NtCovered(g, toks, node, pos, r, furthest); }
    }

    /** The ends of a part from one more position join `nxt`. */
    method EndsFrom(node: Node, k: nat, p: nat, nxt: set<nat>, ghost low: nat, ghost done: set<nat>, ghost f0: nat) returns (nxt': set<nat>)
      requires node.Seq? && k < |node.kids| && Ready(node.kids[k], p)
      requires Derives(g, toks, Front(node, k), low, p) && (p == low || p <= furthest)
      requires PartOf(g, toks, node, k, low, done, nxt, f0, furthest)
      modifies this`memo, this`active, this`furthest
      ensures Valid() && active == old(active) && furthest >= old(furthest)
      ensures PartOf(g, toks, node, k, low, done + {p}, nxt', f0, furthest)
      decreases Inactive(), 1, node, 0
    {
      var r := NodeEnds(node.kids[k], p);
      PartMore(g, toks, node, k, low, done, nxt, p, r, f0, old(furthest), furthest);
      nxt' := nxt + r;
    }

    /** The ends of a part from every position of a frontier. */
    method EachEnds(node: Node, k: nat, frontier: set<nat>, ghost low: nat) returns (nxt: set<nat>)
      requires Valid() && node.Seq? && k < |node.kids|
      requires forall p :: p in frontier ==> Derives(g, toks, Front(node, k), low, p) && (p == low || p <= furthest)
      requires forall p :: p in frontier ==> Allowed(g, toks, active, node.kids[k], p)
      modifies this`memo, this`active, this`furthest
      ensures Valid() && active == old(active) && furthest >= old(furthest)
      ensures PartOf(g, toks, node, k, low, frontier, nxt, old(furthest), furthest)
      decreases Inactive(), 1, node, 1
    {
      nxt := {};
      var todo := frontier;
      while todo != {}
        invariant Valid() && active == old(active) && furthest >= old(furthest) && todo <= frontier
        invariant PartOf(g, toks, node, k, low, frontier - todo, nxt, old(furthest), furthest)
        decreases todo
      {
        var p :| p in todo;
        nxt := EndsFrom(node, k, p, nxt, low, frontier - todo, old(furthest));
        todo := todo - {p};
        assert frontier - todo == (frontier - (todo + {p})) + {p};
      }
      assert frontier - todo == frontier;
    }

    /** One more part of a sequence. */
    method SeqPart(node: Node, pos: nat, k: nat, frontier: set<nat>) returns (nxt: set<nat>)
      requires Ready(node, pos) && node.Seq? && k < |node.kids|
      requires Ends(g, toks, Front(node, k), pos, frontier) && Noted(pos, frontier, furthest)
      modifies this`memo, this`active, this`furthest
      ensures Valid() && active == old(active) && furthest >= old(furthest)
      ensures Ends(g, toks, Front(node, k + 1), pos, nxt) && Noted(pos, nxt, furthest)
      ensures Explained(g, toks, node, pos, old(furthest), furthest)
      ensures NoLeftRecursion(g) ==> AllCovered(g, toks, node.kids[k], frontier, furthest)
      decreases Inactive(), 1, node, 2
    {
      forall p | p in frontier
        ensures Allowed(g, toks, active, node.kids[k], p) && (p == pos || p <= furthest)
      {
        DerivesBounds(g, toks, Front(node, k), pos, p);
        if NoLeftRecursion(g) { OpenKid(g, toks, active, node, pos, k, p); }
      }
      nxt := EachEnds(node, k, frontier, pos);
      SeqAdvance(g, toks, node, pos, k, frontier, nxt);
    }

    method SeqEnds(node: Node, pos: nat) returns (r: set<nat>)
      requires Ready(node, pos) && node.Seq?
      modifies this`memo, this`active, this`furthest
      ensures Valid() && active == old(active) && furthest >= old(furthest) && Answered(node, pos, r)
      ensures Explained(g, toks, node, pos, old(furthest), furthest)
      decreases Inactive(), 1, node, 3
    {
      var frontier := {pos};
      forall j: nat { SeqNone(g, toks, node, pos, j); }
      for k := 0 to |node.kids|
        invariant Valid() && active == old(active) && furthest >= old(furthest)
        invariant Ends(g, toks, Front(node, k), pos, frontier) && Noted(pos, frontier, furthest)
        invariant Explained(g, toks, node, pos, old(furthest), furthest)
        invariant NoLeftRecursion(g) ==> PartsCovered(g, toks, node, pos, k, furthest)
      {
        ghost var before := furthest;
        var nxt := SeqPart(node, pos, k, frontier);
        ExplainedOn(g, toks, node, pos, old(furthest), before, furthest);
        if NoLeftRecursion(g) { PartsMore(g, toks, node, pos, k, frontier, before, furthest); }
        if nxt == {} {
          SeqDead(g, toks, node, pos, k + 1);
          if NoLeftRecursion(g) { DeadCovered(g, toks, node, pos, k + 1, furthest); }
          return {};
        }
        frontier := nxt;
      }
      assert Front(node, |node.kids|) == node;
      if NoLeftRecursion(g) { SeqCovered(g, toks, node, pos, furthest); }
      return frontier;
    }

    method AltEnds(node: Node, pos: nat) returns (r: set<nat>)
      requires Ready(node, pos) && node.Alt?
      modifies this`memo, this`active, this`furthest
      ensures Valid() && active == old(active) && furthest >= old(furthest) && Answered(node, pos, r)
      ensures Explained(g, toks, node, pos, old(furthest), furthest)
      decreases Inactive(), 1, node, 1
    {
      r := {};
      for k := 0 to |node.kids|
        invariant Valid() && active == old(active) && furthest >= old(furthest) && Noted(pos, r, furthest)
        invariant Sound(g, toks, node, pos, r)
        invariant NoLeftRecursion(g) ==> forall m :: 0 <= m < k ==> Complete(g, toks, node.kids[m], pos, r)
        invariant Explained(g, toks, node, pos, old(furthest), furthest)
        invariant NoLeftRecursion(g) ==> forall m :: 0 <= m < k ==> Covers(g, toks, node.kids[m], pos, furthest)
      {
        if NoLeftRecursion(g) { OpenBranch(g, active, node, pos, k); }
        ghost var before := furthest;
        var ends := NodeEnds(node.kids[k], pos);
        AltTouches(g, toks, node, pos, furthest);
        forall j: nat { AltAny(g, toks, node, pos, j); }
        r := r + ends;
      }
      forall j: nat { AltAny(g, toks, node, pos, j); }
      forall j: nat { AltTouches(g, toks, node, pos, j); }
    }

    /** One more iteration from `p`: what is new beyond it joins `nxt`. */
    method RepFrom(node: Node, p: nat, seen: set<nat>, nxt: set<nat>, ghost low: nat, ghost done: set<nat>, ghost f0: nat)
      returns (nxt': set<nat>)
      requires node.Rep? && Ready(node.sub, p) && Derives(g, toks, node, low, p)
      requires RoundOf(g, toks, node, low, done, seen, nxt, f0, furthest)
      modifies this`memo, this`active, this`furthest
      ensures Valid() && active == old(active) && furthest >= old(furthest)
      ensures RoundOf(g, toks, node, low, done + {p}, seen, nxt', f0, furthest)
      decreases Inactive(), 1, node, 0
    {
      var ends := NodeEnds(node.sub, p);
      RepExplained(g, toks, node, low, p, old(furthest), old(furthest), furthest);
      RoundMore(g, toks, node, low, done, seen, nxt, p, ends, f0, old(furthest), furthest);
      nxt' := nxt + set q | q in ends && q !in seen && q > p;
    }

    /** One round of the repetition: what is new beyond the frontier. */
    method RepRound(node: Node, frontier: set<nat>, seen: set<nat>, ghost low: nat) returns (nxt: set<nat>)
      requires Valid() && node.Rep?
      requires forall p :: p in frontier ==> Allowed(g, toks, active, node.sub, p) && Derives(g, toks, node, low, p)
      modifies this`memo, this`active, this`furthest
      ensures Valid() && active == old(active) && furthest >= old(furthest)
      ensures RoundOf(g, toks, node, low, frontier, seen, nxt, old(furthest), furthest)
      decreases Inactive(), 1, node, 1
    {
      nxt := {};
      var todo := frontier;
      while todo != {}
        invariant Valid() && active == old(active) && furthest >= old(furthest) && todo <= frontier
        invariant RoundOf(g, toks, node, low, frontier - todo, seen, nxt, old(furthest), furthest)
        decreases todo
      {
        var p :| p in todo;
        nxt := RepFrom(node, p, seen, nxt, low, frontier - todo, old(furthest));
        todo := todo - {p};
        assert frontier - todo == (frontier - (todo + {p})) + {p};
      }
      assert frontier - todo == frontier;
    }

    method RepEnds(node: Node, pos: nat) returns (r: set<nat>)
      requires Ready(node, pos) && node.Rep?
      modifies this`memo, this`active, this`furthest
      ensures Valid() && active == old(active) && furthest >= old(furthest) && Answered(node, pos, r)
      ensures Explained(g, toks, node, pos, old(furthest), furthest)
      decreases Inactive(), 1, node, 2
    {
      var seen, frontier := {pos}, {pos};
      RepNone(g, toks, node, pos);
      while frontier != {}
        invariant Valid() && active == old(active) && furthest >= old(furthest)
        invariant RepState(g, toks, node, pos, seen, frontier) && Noted(pos, seen, furthest)
        invariant Explained(g, toks, node, pos, old(furthest), furthest)
        invariant NoLeftRecursion(g) ==> AllCovered(g, toks, node.sub, seen - frontier, furthest)
        decreases Rest(|toks|, seen), frontier
      {
        forall p | p in frontier
          ensures Allowed(g, toks, active, node.sub, p)
        {
          DerivesBounds(g, toks, node, pos, p);
          if NoLeftRecursion(g) { OpenSub(g, active, node, pos, p); }
        }
        ghost var before := furthest;
        var nxt := RepRound(node, frontier, seen, pos);
        ExplainedOn(g, toks, node, pos, old(furthest), before, furthest);
        if NoLeftRecursion(g) { CoveredOn(g, toks, node.sub, seen, frontier, nxt, before, furthest); }
        RepStep(g, toks, node, pos, seen, frontier, nxt);
        RestShrinks(g, toks, node, pos, seen, nxt);
        seen, frontier := seen + nxt, nxt;
      }
      RepDone(g, toks, node, pos, seen);
      if NoLeftRecursion(g) { RepCovered(g, toks, node, pos, furthest); }
      return seen;
    }

    /** run: accepts exactly when the recognizer finds a derivation of everything before EOF. `far` is reached by an
        attempt to read the start rule and, without left recursion, no attempt gets further. */
    method Run(toks: seq<Token>, start: string) returns (ok: bool, far: nat)
      requires AllRefs(g) && Ended(toks) && start in g.bodies && start !in TOKEN_SYMBOLS
      modifies this
      ensures Valid() && active == {} && this.toks == toks
      ensures ok ==> NameDerives(g, toks, start, 0, |toks| - 1) && far == |toks| - 1
      ensures NoLeftRecursion(g) ==> (ok <==> NameDerives(g, toks, start, 0, |toks| - 1))
      ensures far < |toks| && far == furthest
      ensures far == 0 || NameTouches(g, toks, start, 0, far)
      ensures NoLeftRecursion(g) ==> forall j: nat :: NameTouches(g, toks, start, 0, j) ==> j <= far
    {
      this.toks, memo, active, furthest := toks, map[], {}, 0;
      var ends := Name(Nt(0, start), start, 0);
      NtTouches(g, toks, Nt(0, start), 0, furthest);
      return |toks| - 1 in ends, furthest;
    }
  }

  lemma RestShrinks(g: Rules, toks: seq<Token>, node: Node, i: nat, seen: set<nat>, nxt: set<nat>)
    requires RepState(g, toks, node, i, seen + nxt, nxt) && Ended(toks) && i < |toks| && nxt !! seen
    ensures Rest(|toks|, seen + nxt) <= Rest(|toks|, seen) && (nxt != {} ==> Rest(|toks|, seen + nxt) < Rest(|toks|, seen))
  {
    if q :| q in nxt {
      DerivesBounds(g, toks, node, i, q);
      assert q in Rest(|toks|, seen);
    }
  }

  method Max(s: set<nat>) returns (m: nat)
    requires s != {}
    ensures m in s && forall q :: q in s ==> q <= m
  {
    m :| m in s;
    var todo := s - {m};
    while todo != {}
      invariant m in s && todo <= s && forall q :: q in s && q !in todo ==> q <= m
      decreases todo
    {
      var q :| q in todo;
      if q > m { m := q; }
      todo := todo - {q};
    }
  }
}
