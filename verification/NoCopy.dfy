/**
 The search for a nocopy object held by value in a possibly recursive type (src/analyzer/types.c):
 depth first, cut at types already on the current path and at depth 64.
 */
module NoCopy {
  import opened Options
  import opened Graph

  /** A type by its node number; a part may be missing. */
  datatype Type =
    | Nullable(inner: Option<nat>)
    | FixedArray(elem: Option<nat>)
    | Tuple(elems: seq<Option<nat>>)
    | Enum(payloads: seq<Option<nat>>)
    | Object(shared: bool, nocopy: bool, fields: seq<Option<nat>>)
    | Opaque // dynamic list, rc, weak rc, pointer, scalar

  const DEPTH: nat := 64

  /** Types refer to types of the table. */
  ghost predicate Bound(types: seq<Type>) {
    forall t: nat, u: nat :: Holds(types, t, u) ==> u < |types|
  }

  predicate PartBound(types: seq<Type>, part: Option<nat>) { part.Some? ==> part.value < |types| }

  /** What a value of the type holds by value, in the order searched. */
  function Parts(t: Type): seq<Option<nat>> {
    match t
    case Nullable(inner) => [inner]
    case FixedArray(elem) => [elem]
    case Tuple(elems) => elems
    case Enum(payloads) => payloads
    case Object(shared, _, fields) => if shared then [] else fields
    case Opaque => []
  }

  /** An object declared nocopy that is not one of the shared handles. */
  ghost predicate IsNoCopy(types: seq<Type>, t: nat) {
    t < |types| && exists fields :: types[t] == Object(false, true, fields)
  }

  /** A value of type `t` has a value of type `u` inside it: the payload of an optional or of some enum variant,
      an element of a fixed array or a tuple, a field of an object that is not a shared handle. */
  ghost predicate Holds(types: seq<Type>, t: nat, u: nat) {
    && t < |types|
    && match types[t]
       case Nullable(inner) => inner == Some(u)
       case FixedArray(elem) => elem == Some(u)
       case Tuple(elems) => exists k :: 0 <= k < |elems| && elems[k] == Some(u)
       case Enum(payloads) => exists k :: 0 <= k < |payloads| && payloads[k] == Some(u)
       case Object(shared, _, fields) => !shared && exists k :: 0 <= k < |fields| && fields[k] == Some(u)
       case Opaque => false
  }

  /** What the search goes through is what is held. */
  lemma PartsExact(types: seq<Type>, t: nat, u: nat)
    requires t < |types|
    ensures Some(u) in Parts(types[t]) <==> Holds(types, t, u)
  {
    if Holds(types, t, u) {
      match types[t]
      case Nullable(inner) => assert Parts(types[t])[0] == Some(u);
      case FixedArray(elem) => assert Parts(types[t])[0] == Some(u);
      case _ =>
    }
  }

  /** A chain of types, each holding the next by value, from `t` to a nocopy object; none of them is in
      `avoid`. */
  ghost predicate Chain(types: seq<Type>, t: nat, avoid: seq<nat>, p: seq<nat>) {
    && |p| > 0 && p[0] == t && IsNoCopy(types, p[|p| - 1])
    && (forall k :: 0 <= k < |p| - 1 ==> Holds(types, p[k], p[k + 1]))
    && (forall k :: 0 <= k < |p| ==> p[k] !in avoid)
  }

  ghost predicate ChainWithin(types: seq<Type>, t: nat, avoid: seq<nat>, n: int) {
    exists p :: Chain(types, t, avoid, p) && |p| <= n
  }

  /** Such a chain that ends in `u`. */
  ghost predicate ChainTo(types: seq<Type>, t: nat, avoid: seq<nat>, n: int, u: nat) {
    exists p :: Chain(types, t, avoid, p) && |p| <= n && p[|p| - 1] == u
  }

  /** A nocopy object is reachable by value. */
  ghost predicate HoldsNoCopy(types: seq<Type>, t: nat) {
    exists p :: Chain(types, t, [], p)
  }

  lemma {:induction false} LastAt(p: seq<nat>, t: nat) returns (i: nat)
    requires t in p
    ensures i < |p| && p[i] == t && forall k :: i < k < |p| ==> p[k] != t
  {
    i := |p| - 1;
    while p[i] != t
      invariant i < |p| && t in p[..i + 1]
      invariant forall k :: i < k < |p| ==> p[k] != t
      decreases i
    {
      assert p[..i + 1] == p[..i] + [p[i]];
      i := i - 1;
    }
  }

  lemma Suffix(types: seq<Type>, t: nat, avoid: seq<nat>, p: seq<nat>, i: nat)
    requires Chain(types, t, avoid, p) && i < |p|
    ensures Chain(types, p[i], avoid, p[i..])
  {
  }

  /** Cutting at a type already on the path loses nothing: the chain after its last visit to `t`
      starts in a part of `t` and avoids `t`. */
  lemma ChainLeaves(types: seq<Type>, t: nat, avoid: seq<nat>, n: int, u: nat)
    requires ChainWithin(types, u, avoid, n) && Holds(types, t, u)
    ensures exists v: nat :: Holds(types, t, v) && (ChainWithin(types, v, avoid + [t], n) || IsNoCopy(types, t))
  {
    var p :| Chain(types, u, avoid, p) && |p| <= n;
    if t in p {
      var i := LastAt(p, t);
      if i < |p| - 1 {
        Suffix(types, u, avoid, p, i + 1);
        assert Chain(types, p[i + 1], avoid + [t], p[i + 1..]);
        assert Holds(types, p[i], p[i + 1]);
      }
    } else {
      assert Chain(types, u, avoid + [t], p);
    }
  }

  lemma ChainEnters(types: seq<Type>, t: nat, avoid: seq<nat>, n: int, u: nat, end: nat)
    requires ChainTo(types, u, avoid + [t], n, end) && Holds(types, t, u) && t !in avoid
    ensures ChainTo(types, t, avoid, n + 1, end)
  {
    var p :| Chain(types, u, avoid + [t], p) && |p| <= n && p[|p| - 1] == end;
    var q := [t] + p;
    forall k | 0 <= k < |q| - 1
      ensures Holds(types, q[k], q[k + 1])
    {
      if k > 0 { assert Holds(types, p[k - 1], p[k - 1 + 1]); }
    }
    forall k | 0 <= k < |q|
      ensures q[k] !in avoid
    {
      if k > 0 { assert p[k - 1] !in avoid + [t]; }
    }
    assert Chain(types, t, avoid, q);
  }

  /** A type that is not nocopy itself leads on through its parts. */
  lemma ChainStep(types: seq<Type>, t: nat, avoid: seq<nat>, n: int)
    requires ChainWithin(types, t, avoid, n) && !IsNoCopy(types, t)
    ensures exists v: nat :: Holds(types, t, v) && ChainWithin(types, v, avoid + [t], n - 1)
  {
    var p :| Chain(types, t, avoid, p) && |p| <= n;
    assert Holds(types, p[0], p[0 + 1]);
    Suffix(types, t, avoid, p, 1);
    ChainLeaves(types, t, avoid, n - 1, p[1]);
  }

  /** nocopy_part: `path` holds the types being searched. */
  method Search(types: seq<Type>, t: Option<nat>, path: array<nat>, depth: nat) returns (r: Option<nat>)
    requires Bound(types) && PartBound(types, t) && path.Length == DEPTH && depth <= DEPTH
    modifies path
    ensures path[..depth] == old(path[..depth])
    ensures r.Some? ==> t.Some? && ChainTo(types, t.value, old(path[..depth]), DEPTH - depth, r.value)
    ensures r.Some? <==> t.Some? && ChainWithin(types, t.value, old(path[..depth]), DEPTH - depth)
    decreases DEPTH - depth, 1
  {
    if t.None? || depth >= DEPTH { return None; }
    var node := t.value;
    for i := 0 to depth
      invariant node !in path[..i]
    {
      if path[i] == node {
        assert node in path[..depth];
        return None;
      }
      assert path[..i + 1] == path[..i] + [path[i]];
    }
    ghost var avoid := path[..depth];
    path[depth] := node;
    assert path[..depth] == avoid && path[..depth + 1] == avoid + [node];
    var ty := types[node];
    if ty.Object? && !ty.shared && ty.nocopy {
      assert ty == Object(false, true, ty.fields);
      assert Chain(types, node, avoid, [node]);
      return Some(node);
    }
    r := SearchParts(types, node, path, depth + 1);
    assert path[..depth] == path[..depth + 1][..depth];
    if ChainWithin(types, node, avoid, DEPTH - depth) { ChainStep(types, node, avoid, DEPTH - depth); }
    if r.Some? {
      ghost var v: nat :| Holds(types, node, v) && ChainTo(types, v, avoid + [node], DEPTH - depth - 1, r.value);
      ChainEnters(types, node, avoid, DEPTH - depth - 1, v, r.value);
    }
  }

  /** The parts of one type, in order, up to the first success. */
  method SearchParts(types: seq<Type>, node: nat, path: array<nat>, depth: nat) returns (r: Option<nat>)
    requires Bound(types) && node < |types| && path.Length == DEPTH && 0 < depth <= DEPTH
    modifies path
    ensures path[..depth] == old(path[..depth])
    ensures r.Some? ==> exists v: nat :: Holds(types, node, v) && ChainTo(types, v, old(path[..depth]), DEPTH - depth, r.value)
    ensures r.Some? <==> exists v: nat :: Holds(types, node, v) && ChainWithin(types, v, old(path[..depth]), DEPTH - depth)
    decreases DEPTH - depth, 2
  {
    var parts := Parts(types[node]);
    for k := 0 to |parts|
      invariant path[..depth] == old(path[..depth])
      invariant forall m :: 0 <= m < k && parts[m].Some? ==> !ChainWithin(types, parts[m].value, old(path[..depth]), DEPTH - depth)
    {
      if parts[k].Some? { PartsExact(types, node, parts[k].value); }
      r := Search(types, parts[k], path, depth);
      if r.Some? {
        assert Holds(types, node, parts[k].value);
        return;
      }
    }
    forall v: nat | Holds(types, node, v)
      ensures Some(v) in parts
    {
      PartsExact(types, node, v);
    }
    return None;
  }

  /** iron_type_nocopy_part: a nocopy object is found exactly when one is held by value within 64
      levels, which is always so when there are at most 64 types. */
  method NoCopyPart(types: seq<Type>, t: nat) returns (r: Option<nat>)
    requires Bound(types) && t < |types|
    ensures r.Some? ==> IsNoCopy(types, r.value) && ChainTo(types, t, [], 64, r.value)
    ensures r.Some? <==> ChainWithin(types, t, [], 64)
    ensures |types| <= 64 ==> (r.Some? <==> HoldsNoCopy(types, t))
  {
    var path := new nat[DEPTH](_ => 0);
    r := Search(types, Some(t), path, 0);
    if |types| <= DEPTH && HoldsNoCopy(types, t) { SmallChain(types, t); }
  }

  lemma {:induction false} Shorten(types: seq<Type>, t: nat, p: seq<nat>) returns (q: seq<nat>)
    requires Bound(types) && t < |types| && Chain(types, t, [], p)
    ensures Chain(types, t, [], q) && NoDup(q) && Below(q, |types|)
    decreases |p|
  {
    if NoDup(p) {
      forall k | 0 <= k < |p|
        ensures p[k] < |types|
      {
        if k < |p| - 1 { assert Holds(types, p[k], p[k + 1]); }
      }
      q := p;
    } else {
      var i, j :| 0 <= i < j < |p| && p[i] == p[j];
      var s := p[..i] + p[j..];
      forall k | 0 <= k < |s| - 1
        ensures Holds(types, s[k], s[k + 1])
      {
        if k < i { assert Holds(types, p[k], p[k + 1]); } else { assert Holds(types, p[k + j - i], p[k + j - i + 1]); }
      }
      assert Chain(types, t, [], s);
      q := Shorten(types, t, s);
    }
  }

  lemma SmallChain(types: seq<Type>, t: nat)
    requires Bound(types) && t < |types| && |types| <= DEPTH && HoldsNoCopy(types, t)
    ensures ChainWithin(types, t, [], DEPTH)
  {
    var p :| Chain(types, t, [], p);
    var q := Shorten(types, t, p);
    Pigeonhole(q, |types|);
  }

  function Deep(t: nat): Type {
    if t < DEPTH then Object(false, false, [Some(t + 1)]) else Object(false, true, [])
  }

  lemma {:induction false} DeepClimbs(types: seq<Type>, p: seq<nat>, k: nat)
    requires |types| == DEPTH + 1 && forall t :: 0 <= t < |types| ==> types[t] == Deep(t)
    requires Chain(types, 0, [], p) && k < |p|
    ensures p[k] == k
  {
    if k > 0 {
      DeepClimbs(types, p, k - 1);
      assert Holds(types, p[k - 1], p[k - 1 + 1]);
    }
  }

  /** Sixty-four objects inside each other around a nocopy one: it is held by value and not found. */
  lemma DeepMissed() returns (types: seq<Type>)
    ensures Bound(types) && |types| == 65 && HoldsNoCopy(types, 0) && !ChainWithin(types, 0, [], 64)
  {
    types := seq(DEPTH + 1, t requires 0 <= t <= DEPTH => Deep(t));
    var p := seq(DEPTH + 1, t requires 0 <= t <= DEPTH => t);
    assert types[DEPTH] == Deep(DEPTH) == Object(false, true, []);
    forall k | 0 <= k < |p| - 1
      ensures Holds(types, p[k], p[k + 1])
    {
      assert types[p[k]] == Object(false, false, [Some(k + 1)]);
      assert types[p[k]].fields[0] == Some(k + 1);
    }
    assert Chain(types, 0, [], p);
    forall q | Chain(types, 0, [], q)
      ensures |q| > DEPTH
    {
      DeepClimbs(types, q, |q| - 1);
    }
  }
}
