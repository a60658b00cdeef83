/**
 Suggestions for misspelt names (src/analyzer/typo_candidate.c): bounded edit distance on two rows, and
 the best name of the scope chain.
 */
module Typo {
  import opened Options

  function Lower(c: char): char {
    if 'A' <= c <= 'Z' then c - 'A' + 'a' else c
  }

  predicate Same(c: char, d: char) { Lower(c) == Lower(d) }

  function Min(a: int, b: int): int { if a < b then a else b }

  /** Edit distance of the first `i` characters of `a` and the first `j` of `b`, ignoring case. */
  function Dist(a: string, b: string, i: nat, j: nat): nat
    requires i <= |a| && j <= |b|
  {
    if i == 0 then j
    else if j == 0 then i
    else Min(Min(Dist(a, b, i - 1, j) + 1, Dist(a, b, i, j - 1) + 1),
             Dist(a, b, i - 1, j - 1) + if Same(a[i - 1], b[j - 1]) then 0 else 1)
  }

  // ---- what the distance means

  /** `d` is the small form of the letter `c`. */
  predicate SmallOf(c: char, d: char) { 65 <= c as int <= 90 && d as int == c as int + 32 }

  /** The same letter but for case, or the same character. */
  predicate SameLetter(c: char, d: char) { c == d || SmallOf(c, d) || SmallOf(d, c) }

  lemma SameExact(c: char, d: char)
    ensures Same(c, d) <==> SameLetter(c, d)
  {
  }

  /** One step of turning `a` into `b`, from the left. */
  datatype Edit = Keep | Replace(c: char) | Insert(c: char) | Delete

  function Cost(es: seq<Edit>): nat {
    if es == [] then 0 else Cost(es[..|es| - 1]) + if es[|es| - 1].Keep? then 0 else 1
  }

  /** The edits turn `a` into something equal to `b` but for case. */
  ghost predicate Turns(es: seq<Edit>, a: string, b: string)
    decreases |es|
  {
    if es == [] then a == "" && b == ""
    else
      var front, last := es[..|es| - 1], es[|es| - 1];
      match last
      case Keep => a != "" && b != "" && SameLetter(a[|a| - 1], b[|b| - 1]) && Turns(front, a[..|a| - 1], b[..|b| - 1])
      case Replace(c) => a != "" && b != "" && SameLetter(c, b[|b| - 1]) && Turns(front, a[..|a| - 1], b[..|b| - 1])
      case Insert(c) => b != "" && SameLetter(c, b[|b| - 1]) && Turns(front, a, b[..|b| - 1])
      case Delete => a != "" && Turns(front, a[..|a| - 1], b)
  }

  lemma Front(s: string, i: nat)
    requires 0 < i <= |s|
    ensures s[..i] != "" && s[..i][|s[..i]| - 1] == s[i - 1] && s[..i][..|s[..i]| - 1] == s[..i - 1]
  {
  }

  /** No cheaper edits exist. */
  lemma {:induction false} DistAtMost(es: seq<Edit>, a: string, b: string, i: nat, j: nat)
    requires i <= |a| && j <= |b| && Turns(es, a[..i], b[..j])
    ensures Dist(a, b, i, j) <= Cost(es)
    decreases |es|
  {
    if es != [] {
      var front, last := es[..|es| - 1], es[|es| - 1];
      if i > 0 { Front(a, i); }
      if j > 0 { Front(b, j); }
      if i > 0 && j > 0 { SameExact(a[i - 1], b[j - 1]); }
      match last
      case Keep => DistAtMost(front, a, b, i - 1, j - 1);
      case Replace(_) => DistAtMost(front, a, b, i - 1, j - 1);
      case Insert(_) => DistAtMost(front, a, b, i, j - 1); Grows(a, b, i, j);
      case Delete => DistAtMost(front, a, b, i - 1, j); Grows(a, b, i, j);
    }
  }

  /** Neighbouring entries differ by at most one. */
  lemma Grows(a: string, b: string, i: nat, j: nat)
    requires i <= |a| && j <= |b|
    ensures j > 0 ==> Dist(a, b, i, j) <= Dist(a, b, i, j - 1) + 1
    ensures i > 0 ==> Dist(a, b, i, j) <= Dist(a, b, i - 1, j) + 1
  {
  }

  /** Edits of exactly that cost exist. */
  lemma {:induction false} DistReached(a: string, b: string, i: nat, j: nat) returns (es: seq<Edit>)
    requires i <= |a| && j <= |b|
    ensures Turns(es, a[..i], b[..j]) && Cost(es) == Dist(a, b, i, j)
    decreases i + j
  {
    if i > 0 { Front(a, i); }
    if j > 0 { Front(b, j); }
    if i > 0 && j > 0 { SameExact(a[i - 1], b[j - 1]); }
    if i == 0 && j == 0 {
      es := [];
    } else if j > 0 && (i == 0 || Dist(a, b, i, j) == Dist(a, b, i, j - 1) + 1) {
      var front := DistReached(a, b, i, j - 1);
      es := front + [Insert(b[j - 1])];
      assert es[..|es| - 1] == front;
    } else if j == 0 || Dist(a, b, i, j) == Dist(a, b, i - 1, j) + 1 {
      var front := DistReached(a, b, i - 1, j);
      es := front + [Delete];
      assert es[..|es| - 1] == front;
    } else {
      var front := DistReached(a, b, i - 1, j - 1);
      es := front + [if Same(a[i - 1], b[j - 1]) then Keep else Replace(b[j - 1])];
      assert es[..|es| - 1] == front;
    }
  }

  /** The recursive distance is the least number of insertions, deletions and replacements. */
  lemma DistIsLeast(a: string, b: string)
    ensures exists es :: Turns(es, a, b) && Cost(es) == Dist(a, b, |a|, |b|)
    ensures forall es :: Turns(es, a, b) ==> Dist(a, b, |a|, |b|) <= Cost(es)
  {
    assert a[..|a|] == a && b[..|b|] == b;
    var es := DistReached(a, b, |a|, |b|);
    forall es | Turns(es, a, b)
      ensures Dist(a, b, |a|, |b|) <= Cost(es)
    {
      DistAtMost(es, a, b, |a|, |b|);
    }
  }

  // ---- the cuts

  lemma {:induction false} LengthCut(a: string, b: string, i: nat, j: nat)
    requires i <= |a| && j <= |b|
    ensures Dist(a, b, i, j) >= i - j && Dist(a, b, i, j) >= j - i
    decreases i + j
  {
    if i > 0 && j > 0 {
      LengthCut(a, b, i - 1, j);
      LengthCut(a, b, i, j - 1);
      LengthCut(a, b, i - 1, j - 1);
    }
  }

  /** Once every entry of a row is at least `m`, every later entry is. */
  lemma {:induction false} RowCut(a: string, b: string, row: nat, m: int, i: nat, j: nat)
    requires row <= i <= |a| && j <= |b|
    requires forall k :: 0 <= k <= |b| ==> Dist(a, b, row, k) >= m
    ensures Dist(a, b, i, j) >= m
    decreases i + j
  {
    if i > row {
      RowCut(a, b, row, m, i - 1, j);
      if j > 0 {
        RowCut(a, b, row, m, i, j - 1);
        RowCut(a, b, row, m, i - 1, j - 1);
      } else {
        assert Dist(a, b, row, 0) >= m;
      }
    }
  }

  /** What iron_levenshtein promises: the distance, capped at one above a non-negative bound. */
  function Capped(d: nat, bound: int): int {
    if bound >= 0 && d > bound then bound + 1 else d
  }

  /** The first `n` entries of row `i` of the table. */
  ghost predicate IsRow(a: string, b: string, i: nat, row: seq<int>, n: nat) {
    && i <= |a| && n <= |b| + 1 == |row|
    && forall k :: 0 <= k < n ==> row[k] == Dist(a, b, i, k)
  }

  lemma RowMore(a: string, b: string, i: nat, above: seq<int>, row: seq<int>, j: nat, v: int)
    requires 0 < i <= |a| && 0 < j <= |b| && IsRow(a, b, i - 1, above, |b| + 1) && IsRow(a, b, i, row, j)
    requires v == Min(Min(above[j] + 1, row[j - 1] + 1), above[j - 1] + if Same(a[i - 1], b[j - 1]) then 0 else 1)
    ensures IsRow(a, b, i, row[j := v], j + 1)
  {
  }

  /** One row of the table from the one above it, and its least entry. */
  method FillRow(a: string, b: string, i: nat, prev: array<int>, curr: array<int>) returns (rowMin: int)
    requires 0 < i <= |a| && prev.Length == curr.Length == |b| + 1 && prev != curr
    requires IsRow(a, b, i - 1, prev[..], |b| + 1)
    modifies curr
    ensures IsRow(a, b, i, curr[..], |b| + 1)
    ensures rowMin in curr[..] && forall k :: 0 <= k <= |b| ==> rowMin <= curr[k]
  {
    ghost var above := prev[..];
    curr[0] := i;
    rowMin := curr[0];
    for j := 1 to |b| + 1
      invariant prev[..] == above && IsRow(a, b, i, curr[..], j)
      invariant rowMin in curr[..j] && forall k :: 0 <= k < j ==> rowMin <= curr[k]
    {
      var cost := if Same(a[i - 1], b[j - 1]) then 0 else 1;
      var v := Min(Min(prev[j] + 1, curr[j - 1] + 1), prev[j - 1] + cost);
      RowMore(a, b, i, above, curr[..], j, v);
      label before:
      curr[j] := v;
      assert curr[..j + 1] == old@before(curr[..j]) + [v];
      if v < rowMin { rowMin := v; }
    }
    assert curr[..|b| + 1] == curr[..];
  }

  /** iron_levenshtein */
  method Levenshtein(a: string, b: string, bound: int) returns (d: int)
    ensures d == Capped(Dist(a, b, |a|, |b|), bound)
  {
    LengthCut(a, b, |a|, |b|);
    if bound >= 0 {
      var diff := if |a| > |b| then |a| - |b| else |b| - |a|;
      if diff > bound { return bound + 1; }
    }
    if |a| == 0 { return |b|; }
    if |b| == 0 { return |a|; }
    var prev := new int[|b| + 1](j => j);
    var curr := new int[|b| + 1](_ => 0);
    for i := 1 to |a| + 1
      invariant prev.Length == curr.Length == |b| + 1 && prev != curr && fresh(prev) && fresh(curr)
      invariant IsRow(a, b, i - 1, prev[..], |b| + 1)
    {
      var rowMin := FillRow(a, b, i, prev, curr);
      if bound >= 0 && rowMin > bound {
        RowCut(a, b, i, bound + 1, |a|, |b|);
        return bound + 1;
      }
      prev, curr := curr, prev;
    }
    d := prev[|b|];
    if bound >= 0 && d > bound { return bound + 1; }
  }

  // ---- the best name

  /** strcmp(s, t) < 0 */
  predicate Before(s: string, t: string) {
    t != "" && (s == "" || s[0] < t[0] || (s[0] == t[0] && Before(s[1..], t[1..])))
  }

  lemma {:induction false} BeforeTotal(s: string, t: string)
    ensures !(Before(s, t) && Before(t, s)) && !Before(s, s)
    ensures s == t || Before(s, t) || Before(t, s)
  {
    if s != "" && t != "" {
      BeforeTotal(s[1..], t[1..]);
      if s[0] == t[0] && s[1..] == t[1..] { assert s == [s[0]] + s[1..] && t == [t[0]] + t[1..]; }
      BeforeTotal(s[1..], s[1..]);
    } else if s != "" {
      BeforeTotal(s[1..], s[1..]);
    }
  }

  lemma {:induction false} BeforeTrans(s: string, t: string, u: string)
    requires Before(s, t) && Before(t, u)
    ensures Before(s, u)
  {
    if s != "" && s[0] == t[0] && t[0] == u[0] { BeforeTrans(s[1..], t[1..], u[1..]); }
  }

  /** How far a suggestion may be off. */
  function Bound(name: string): nat { if |name| <= 4 then 1 else 2 }

  /** Alphabetical order: at the first difference the smaller character, or the end of the shorter name. */
  ghost predicate Alphabetical(s: string, t: string) {
    exists k :: ComesAt(s, t, k)
  }

  ghost predicate ComesAt(s: string, t: string, k: int) {
    0 <= k <= |s| && k < |t| && s[..k] == t[..k] && (k == |s| || s[k] < t[k])
  }

  lemma {:induction false} BeforeExact(s: string, t: string)
    ensures Before(s, t) <==> Alphabetical(s, t)
  {
    if s == "" {
      if t != "" { assert ComesAt(s, t, 0); }
    } else if t != "" {
      if s[0] < t[0] { assert ComesAt(s, t, 0); }
      BeforeExact(s[1..], t[1..]);
      if s[0] == t[0] && Before(s, t) {
        var k :| ComesAt(s[1..], t[1..], k);
        assert s[..k + 1] == [s[0]] + s[1..][..k] && t[..k + 1] == [t[0]] + t[1..][..k];
        assert ComesAt(s, t, k + 1);
      }
      if k :| ComesAt(s, t, k) {
        if k > 0 {
          assert s[0] == s[..k][0] == t[..k][0] == t[0];
          assert s[1..][..k - 1] == s[..k][1..] == t[..k][1..] == t[1..][..k - 1];
          assert ComesAt(s[1..], t[1..], k - 1);
        }
      }
    }
  }

  function Distance(name: string, cand: string): nat { Dist(name, cand, |name|, |cand|) }

  /** Another name, at most one edit away, or two if the name has more than four characters. */
  predicate Eligible(name: string, cand: string) {
    cand != name && Distance(name, cand) <= 2 && (Distance(name, cand) == 2 ==> |name| > 4)
  }

  /** Nearer, or as near and alphabetically earlier. */
  ghost predicate Better(name: string, c: string, d: string) {
    Distance(name, c) < Distance(name, d) || (Distance(name, c) == Distance(name, d) && Alphabetical(c, d))
  }

  /** The suggestion: the best eligible name, or none if none is eligible. */
  ghost predicate IsBest(name: string, names: set<string>, best: Option<string>) {
    match best
    case None => forall c :: c in names ==> !Eligible(name, c)
    case Some(b) => b in names && Eligible(name, b) && forall c :: c in names && Eligible(name, c) && c != b ==> Better(name, b, c)
  }

  /** There is only one best name, so the order in which names are met cannot matter. */
  lemma BestUnique(name: string, names: set<string>, p: Option<string>, q: Option<string>)
    requires IsBest(name, names, p) && IsBest(name, names, q)
    ensures p == q
  {
    if p.Some? && q.Some? {
      BeforeTotal(p.value, q.value);
      BeforeExact(p.value, q.value);
      BeforeExact(q.value, p.value);
    }
  }

  lemma BestMore(name: string, names: set<string>, best: Option<string>, c: string)
    requires IsBest(name, names, best)
    ensures !Eligible(name, c) ==> IsBest(name, names + {c}, best)
    ensures Eligible(name, c) && (best.None? || Better(name, c, best.value)) ==> IsBest(name, names + {c}, Some(c))
    ensures best.Some? && !Better(name, c, best.value) ==> IsBest(name, names + {c}, best)
  {
    if best.Some? {
      var b := best.value;
      BeforeTotal(b, c);
      BeforeExact(b, c);
      BeforeExact(c, b);
      forall x | x in names && Eligible(name, x) && x != b && Better(name, c, b)
        ensures Better(name, c, x)
      {
        BeforeExact(b, x);
        BeforeExact(c, x);
        if Before(c, b) && Before(b, x) { BeforeTrans(c, b, x); }
      }
    }
  }

  /** The names met so far. */
  function Names(scopes: seq<seq<string>>): set<string> {
    set i, j | 0 <= i < |scopes| && 0 <= j < |scopes[i]| :: scopes[i][j]
  }

  /** consider: the best so far is updated with one more name. */
  method Consider(cand: string, name: string, best: Option<string>, dist: int, ghost names: set<string>)
    returns (best': Option<string>, dist': int)
    requires IsBest(name, names, best) && dist == (if best.Some? then Distance(name, best.value) else Bound(name) + 1)
    ensures IsBest(name, names + {cand}, best')
    ensures dist' == (if best'.Some? then Distance(name, best'.value) else Bound(name) + 1)
  {
    best', dist' := best, dist;
    BestMore(name, names, best, cand);
    if best.Some? { BeforeExact(cand, best.value); }
    if cand == name { return; }
    var d := Levenshtein(name, cand, Bound(name));
    if d > Bound(name) { return; }
    if d < dist { return Some(cand), d; }
    if d == dist && best.Some? && Before(cand, best.value) { best' := Some(cand); }
  }

  /** iron_best_typo_candidate over the scope chain, each scope in the order its table yields. */
  method BestCandidate(scopes: seq<seq<string>>, name: string) returns (best: Option<string>)
    ensures IsBest(name, Names(scopes), best)
  {
    best := None;
    var dist := Bound(name) + 1;
    ghost var met := {};
    for s := 0 to |scopes|
      invariant met == Names(scopes[..s]) && IsBest(name, met, best)
      invariant dist == (if best.Some? then Distance(name, best.value) else Bound(name) + 1)
    {
      ghost var before := met;
      for i := 0 to |scopes[s]|
        invariant met == before + set k | 0 <= k < i :: scopes[s][k]
        invariant IsBest(name, met, best)
        invariant dist == (if best.Some? then Distance(name, best.value) else Bound(name) + 1)
      {
        best, dist := Consider(scopes[s][i], name, best, dist, met);
        met := met + {scopes[s][i]};
      }
      NamesMore(scopes, s);
    }
    assert scopes[..|scopes|] == scopes;
  }

  lemma NamesMore(scopes: seq<seq<string>>, s: nat)
    requires s < |scopes|
    ensures Names(scopes[..s + 1]) == Names(scopes[..s]) + set k | 0 <= k < |scopes[s]| :: scopes[s][k]
  {
  }
}
