/** Which functions can do I/O or write global state, through the functions they call (src/analyzer/effects.c). */
module Effects {
  import opened Options
  import opened Graph
  import opened Sizes

  /** What a call of an identifier names: a function of the program, an extern one, or a name with no
      declaration, which may be one of the built-in I/O functions. */
  datatype Callee = Function(f: nat) | Extern | Builtin(io: bool)

  /** The nodes that carry effects. A method call is on an I/O module, or may resolve to a method; on a
      global it writes when the method, or the list operation, mutates. */
  datatype Site =
    | Call(callee: Callee)
    | MethodCall(onModule: bool, target: Option<nat>, onGlobal: bool, mutates: bool)
    | Assign(toGlobal: bool)

  datatype Tier = Free | Pure | Readonly

  datatype Fun = Fun(tier: Tier, sites: seq<Site>)

  type Program = seq<Fun>

  predicate SiteBound(p: Program, s: Site) {
    match s
    case Call(Function(f)) => f < |p|
    case MethodCall(_, Some(m), _, _) => m < |p|
    case _ => true
  }

  ghost predicate Bound(p: Program) {
    forall i, k :: 0 <= i < |p| && 0 <= k < |p[i].sites| ==> SiteBound(p, p[i].sites[k])
  }

  datatype Effect = IO | GlobalWrite

  predicate SiteDoes(s: Site, e: Effect) {
    match e
    case IO => s == Call(Extern) || s == Call(Builtin(true)) || (s.MethodCall? && s.onModule)
    case GlobalWrite => s == Site.Assign(true) || (s.MethodCall? && !s.onModule && s.onGlobal && s.mutates)
  }

  predicate SiteCalls(s: Site, f: nat) {
    s == Call(Function(f)) || (s.MethodCall? && !s.onModule && s.target == Some(f))
  }

  /** Function `i` has the effect in its own body. */
  ghost predicate Direct(p: Program, i: nat, e: Effect) {
    i < |p| && exists k :: 0 <= k < |p[i].sites| && SiteDoes(p[i].sites[k], e)
  }

  ghost predicate CallsIn(p: Program, i: nat, f: nat) {
    i < |p| && exists k :: 0 <= k < |p[i].sites| && SiteCalls(p[i].sites[k], f)
  }

  ghost function CallEdges(p: Program): Edges {
    set i: nat, f: nat | i < |p| && f < |p| && CallsIn(p, i, f) :: (i, f)
  }

  /** Some function reached from `i` over calls, `i` included, has the effect in its own body. */
  ghost predicate Has(p: Program, i: nat, e: Effect) {
    exists j: nat :: Reach(CallEdges(p), {i}, j) && Direct(p, j, e)
  }

  lemma HasDirect(p: Program, i: nat, e: Effect)
    requires Direct(p, i, e)
    ensures Has(p, i, e)
  {
    ReachStart(CallEdges(p), {i}, i);
  }

  lemma HasThrough(p: Program, i: nat, f: nat, e: Effect)
    requires i < |p| && f < |p| && CallsIn(p, i, f) && Has(p, f, e)
    ensures Has(p, i, e)
  {
    var r := CallEdges(p);
    var j: nat :| Reach(r, {f}, j) && Direct(p, j, e);
    var path :| Leads(r, {f}, j, path);
    var longer := [i] + path;
    forall k | 0 <= k < |longer| - 1
      ensures (longer[k], longer[k + 1]) in r
    {
      if k > 0 { assert (path[k - 1], path[k - 1 + 1]) in r; }
    }
    assert Leads(r, {i}, j, longer);
  }

  // ---- runs

  /** A run of a body: effects, and functions entered with their own runs. Branches and loops are free, so any
      sites may be evaluated, any number of times. */
  datatype Run = Run(steps: seq<Act>)

  datatype Act = Does(e: Effect) | Enter(f: nat, body: Run)

  ghost predicate IsRun(p: Program, i: nat, r: Run)
    decreases r
  {
    i < |p| && forall k :: 0 <= k < |r.steps| ==> exists m :: 0 <= m < |p[i].sites| && Performs(p, p[i].sites[m], r.steps[k])
  }

  /** What evaluating a site can do. A method call on a module runs outside the program. */
  ghost predicate Performs(p: Program, s: Site, a: Act)
    decreases a
  {
    match s
    case Call(Extern) => a == Does(IO)
    case Call(Builtin(io)) => io && a == Does(IO)
    case Call(Function(f)) => a.Enter? && a.f == f && IsRun(p, f, a.body)
    case MethodCall(onModule, target, onGlobal, mutates) =>
      if onModule then a == Does(IO)
      else if a.Enter? then target == Some(a.f) && IsRun(p, a.f, a.body)
      else onGlobal && mutates && a == Does(GlobalWrite)
    case Assign(toGlobal) => toGlobal && a == Does(GlobalWrite)
  }

  ghost predicate HappensIn(r: Run, e: Effect)
    decreases r
  {
    exists k :: 0 <= k < |r.steps| && ActDoes(r.steps[k], e)
  }

  ghost predicate ActDoes(a: Act, e: Effect)
    decreases a
  {
    match a
    case Does(d) => d == e
    case Enter(_, body) => HappensIn(body, e)
  }

  /** Some run of function `i` has the effect. */
  ghost predicate May(p: Program, i: nat, e: Effect) { exists r :: IsRun(p, i, r) && HappensIn(r, e) }

  lemma {:induction false} RunHas(p: Program, i: nat, e: Effect, r: Run)
    requires IsRun(p, i, r) && HappensIn(r, e)
    ensures Has(p, i, e)
    decreases r
  {
    var k :| 0 <= k < |r.steps| && ActDoes(r.steps[k], e);
    var m :| 0 <= m < |p[i].sites| && Performs(p, p[i].sites[m], r.steps[k]);
    match r.steps[k]
    case Does(_) =>
      assert SiteDoes(p[i].sites[m], e);
      HasDirect(p, i, e);
    case Enter(f, body) =>
      assert SiteCalls(p[i].sites[m], f);
      RunHas(p, f, e, body);
      HasThrough(p, i, f, e);
  }

  lemma DirectRuns(p: Program, i: nat, e: Effect) returns (r: Run)
    requires Direct(p, i, e)
    ensures IsRun(p, i, r) && HappensIn(r, e)
  {
    var m :| 0 <= m < |p[i].sites| && SiteDoes(p[i].sites[m], e);
    r := Run([Does(e)]);
    assert Performs(p, p[i].sites[m], r.steps[0]) && ActDoes(r.steps[0], e);
  }

  /** Along a path of calls to a function with the effect in its own body. */
  lemma {:induction false} PathRuns(p: Program, path: seq<nat>, k: nat, e: Effect) returns (r: Run)
    requires k < |path| && IsPath(CallEdges(p), path) && Direct(p, path[|path| - 1], e)
    ensures IsRun(p, path[k], r) && HappensIn(r, e)
    decreases |path| - k
  {
    if k == |path| - 1 {
      r := DirectRuns(p, path[k], e);
    } else {
      var body := PathRuns(p, path, k + 1, e);
      assert (path[k], path[k + 1]) in CallEdges(p);
      var m :| 0 <= m < |p[path[k]].sites| && SiteCalls(p[path[k]].sites[m], path[k + 1]);
      r := Run([Enter(path[k + 1], body)]);
      assert Performs(p, p[path[k]].sites[m], r.steps[0]) && ActDoes(r.steps[0], e);
    }
  }

  /** An effect is reachable over calls if and only if some run has it. */
  lemma HasExact(p: Program, i: nat, e: Effect)
    ensures Has(p, i, e) <==> May(p, i, e)
  {
    if Has(p, i, e) {
      var j: nat :| Reach(CallEdges(p), {i}, j) && Direct(p, j, e);
      var path :| Leads(CallEdges(p), {i}, j, path);
      var r := PathRuns(p, path, 0, e);
    }
    if r :| IsRun(p, i, r) && HappensIn(r, e) { RunHas(p, i, e, r); }
  }

  /** The flags found so far. */
  type Flags = set<(nat, Effect)>

  ghost predicate EdgeDone(flags: Flags, i: nat, f: nat) {
    forall e :: (f, e) in flags ==> (i, e) in flags
  }

  /** No call edge can add a flag. */
  ghost predicate Stable(r: Edges, flags: Flags) {
    forall x :: x in r ==> EdgeDone(flags, x.0, x.1)
  }

  ghost function DirectFlags(p: Program): Flags {
    set i: nat, e | i < |p| && Direct(p, i, e) :: (i, e)
  }

  /** The effects each function can reach. */
  ghost function Reached(p: Program): Flags {
    set i: nat, e | i < |p| && Has(p, i, e) :: (i, e)
  }

  lemma ReachedIsStable(p: Program)
    ensures Stable(CallEdges(p), Reached(p)) && DirectFlags(p) <= Reached(p)
  {
    forall x, e | x in CallEdges(p) && (x.1, e) in Reached(p)
      ensures (x.0, e) in Reached(p)
    {
      HasThrough(p, x.0, x.1, e);
    }
    forall x | x in DirectFlags(p)
      ensures x in Reached(p)
    {
      HasDirect(p, x.0, x.1);
    }
  }

  /** Stable flags that include the direct ones include all that can be reached. */
  lemma StableCovers(p: Program, flags: Flags)
    requires Stable(CallEdges(p), flags) && DirectFlags(p) <= flags
    ensures Reached(p) <= flags
  {
    forall x | x in Reached(p)
      ensures x in flags
    {
      var j: nat :| Reach(CallEdges(p), {x.0}, j) && Direct(p, j, x.1);
      FlagTravels(CallEdges(p), |p|, flags, x.0, j, x.1);
    }
  }

  lemma FlagTravels(r: Edges, n: nat, flags: Flags, i: nat, j: nat, e: Effect)
    requires Stable(r, flags) && Graph.Within(r, n) && i < n && Reach(r, {i}, j) && (j, e) in flags
    ensures (i, e) in flags
  {
    var without := set k: nat | k < n && (k, e) !in flags;
    forall u, f | (u, f) in r && u in without
      ensures f in without
    {
      assert EdgeDone(flags, (u, f).0, (u, f).1);
    }
    if i in without { ReachStays(r, {i}, without, j); }
  }

  /** The effect graph; `ghost flags` mirrors the two flag arrays. */
  class EffectGraph {
    const p: Program
    const io: array<bool>
    const globalWrite: array<bool>
    var callees: seq<seq<nat>>
    ghost var flags: Flags
    ghost const edges: Edges

    ghost predicate Arrays()
      reads this, io, globalWrite
    {
      && Bound(p) && io != globalWrite && io.Length == globalWrite.Length == |p|
      && (forall x :: x in flags ==> x.0 < |p|)
      && (forall i: nat :: i < |p| ==> (io[i] <==> (i, IO) in flags) && (globalWrite[i] <==> (i, GlobalWrite) in flags))
    }

    ghost predicate Valid()
      reads this, io, globalWrite
    {
      && Arrays() && |callees| == |p|
      && (forall i, f: nat :: 0 <= i < |p| ==> (f in callees[i] <==> (i, f) in edges))
      && forall x :: x in edges ==> x.0 < |p| && x.1 < |p|
    }

    constructor (p: Program)
      requires Bound(p)
      ensures this.p == p && edges == CallEdges(p) && Arrays() && flags == {} && callees == [] && fresh(io) && fresh(globalWrite)
    {
      this.p := p;
      io := new bool[|p|](_ => false);
      globalWrite := new bool[|p|](_ => false);
      callees := [];
      flags := {};
      edges := CallEdges(p);
    }

    method SetFlag(i: nat, e: Effect)
      requires Arrays() && i < |p|
      modifies this`flags, io, globalWrite
      ensures Arrays() && flags == old(flags) + {(i, e)}
    {
      if e == IO { io[i] := true; } else { globalWrite[i] := true; }
      flags := flags + {(i, e)};
    }

    /** visit_direct on one node */
    method ScanSite(i: nat, s: Site) returns (called: seq<nat>)
      requires Arrays() && i < |p| && SiteBound(p, s)
      modifies this`flags, io, globalWrite
      ensures Arrays() && (forall x :: x in flags <==> x in old(flags) || (x.0 == i && SiteDoes(s, x.1)))
      ensures forall f: nat :: f in called <==> f < |p| && SiteCalls(s, f)
    {
      called := [];
      match s
      case Call(Function(f)) => called := [f];
      case Call(Extern) => SetFlag(i, IO);
      case Call(Builtin(isIO)) => if isIO { SetFlag(i, IO); }
      case MethodCall(onModule, target, onGlobal, mutates) =>
        if onModule {
          SetFlag(i, IO);
        } else {
          if target.Some? { called := [target.value]; }
          if onGlobal && mutates { SetFlag(i, GlobalWrite); }
        }
      case Assign(toGlobal) => if toGlobal { SetFlag(i, GlobalWrite); }
    }

    /** visit_direct over one body */
    method ScanBody(i: nat) returns (called: seq<nat>)
      requires Arrays() && i < |p|
      modifies this`flags, io, globalWrite
      ensures Arrays() && flags == old(flags) + set e | Direct(p, i, e) :: (i, e)
      ensures forall f: nat :: f in called <==> f < |p| && CallsIn(p, i, f)
    {
      called := [];
      for k := 0 to |p[i].sites|
        invariant Arrays()
        invariant forall x :: x in flags <==> x in old(flags) || (x.0 == i && exists m :: 0 <= m < k && SiteDoes(p[i].sites[m], x.1))
        invariant forall f: nat :: f in called <==> f < |p| && exists m :: 0 <= m < k && SiteCalls(p[i].sites[m], f)
      {
        var more := ScanSite(i, p[i].sites[k]);
        called := called + more;
      }
    }

    /** The first loop of iron_effects_check: direct effects and call edges. */
    method Scan()
      requires Arrays() && flags == {} && callees == [] && edges == CallEdges(p)
      modifies this`flags, this`callees, io, globalWrite
      ensures Valid() && flags == DirectFlags(p)
    {
      for i := 0 to |p|
        invariant Arrays() && |callees| == i
        invariant forall m, f: nat :: 0 <= m < i ==> (f in callees[m] <==> f < |p| && CallsIn(p, m, f))
        invariant flags == set m: nat, e | m < i && Direct(p, m, e) :: (m, e)
      {
        var called := ScanBody(i);
        callees := callees + [called];
      }
    }

    /** One call edge: what the callee does, the caller does. Nothing beyond a stable bound is added. */
    method Follow(i: nat, f: nat, e: Effect, ghost bound: Flags) returns (changed: bool)
      requires Valid() && i < |p| && (i, f) in edges && flags <= bound && Stable(edges, bound)
      modifies this`flags, io, globalWrite
      ensures Valid() && flags <= bound && ((f, e) in flags ==> (i, e) in flags)
      ensures flags == if changed then old(flags) + {(i, e)} else old(flags)
      ensures changed ==> (i, e) !in old(flags)
    {
      var calleeDoes := if e == IO then io[f] else globalWrite[f];
      var callerDoes := if e == IO then io[i] else globalWrite[i];
      changed := calleeDoes && !callerDoes;
      if changed {
        assert EdgeDone(bound, (i, f).0, (i, f).1);
        SetFlag(i, e);
      }
    }

    /** Both effects along one edge. */
    method FollowBoth(i: nat, f: nat, ghost bound: Flags) returns (changed: bool)
      requires Valid() && i < |p| && (i, f) in edges && flags <= bound && Stable(edges, bound)
      modifies this`flags, io, globalWrite
      ensures Valid() && old(flags) <= flags <= bound && EdgeDone(flags, i, f)
      ensures changed <==> flags != old(flags)
    {
      var a := Follow(i, f, IO, bound);
      var b := Follow(i, f, GlobalWrite, bound);
      changed := a || b;
      forall e | (f, e) in flags
        ensures (i, e) in flags
      {
        assert e == IO || e == GlobalWrite;
      }
    }

    /** The call edges of one function. */
    method FollowAll(i: nat, ghost bound: Flags) returns (changed: bool)
      requires Valid() && i < |p| && flags <= bound && Stable(edges, bound)
      modifies this`flags, io, globalWrite
      ensures Valid() && old(flags) <= flags <= bound && (changed <==> flags != old(flags))
      ensures !changed ==> forall f :: (i, f) in edges ==> EdgeDone(flags, i, f)
    {
      changed := false;
      for k := 0 to |callees[i]|
        invariant Valid() && old(flags) <= flags <= bound && (changed <==> flags != old(flags))
        invariant !changed ==> forall m :: 0 <= m < k ==> EdgeDone(flags, i, callees[i][m])
      {
        var f := callees[i][k];
        assert f in callees[i];
        var c := FollowBoth(i, f, bound);
        changed := changed || c;
      }
      if !changed {
        forall f | (i, f) in edges
          ensures EdgeDone(flags, i, f)
        {
          assert f in callees[i];
        }
      }
    }

    method Round(ghost bound: Flags) returns (changed: bool)
      requires Valid() && flags <= bound && Stable(edges, bound)
      modifies this`flags, io, globalWrite
      ensures Valid() && old(flags) <= flags <= bound && (changed <==> flags != old(flags))
      ensures !changed ==> Stable(edges, flags)
    {
      changed := false;
      for i := 0 to |p|
        invariant Valid() && old(flags) <= flags <= bound && (changed <==> flags != old(flags))
        invariant !changed ==> forall x :: x in edges && x.0 < i ==> EdgeDone(flags, x.0, x.1)
      {
        var c := FollowAll(i, bound);
        changed := changed || c;
        if !changed {
          forall x | x in edges && x.0 == i
            ensures EdgeDone(flags, x.0, x.1)
          {
            assert (i, x.1) in edges;
          }
        }
      }
    }

    /** The propagation loop: at most 2n + 1 rounds, and then no edge can add a flag. */
    method Propagate(ghost bound: Flags) returns (rounds: nat)
      requires Valid() && flags <= bound && Stable(edges, bound)
      modifies this`flags, io, globalWrite
      ensures Valid() && old(flags) <= flags <= bound && rounds <= 2 * |p| + 1 && Stable(edges, flags)
    {
      rounds := 0;
      var changed := true;
      AllFlags(|p|, flags);
      while changed
        invariant Valid() && old(flags) <= flags <= bound
        invariant |flags| <= 2 * |p| && rounds <= |flags| + (if changed then 0 else 1)
        invariant !changed ==> Stable(edges, flags)
        decreases changed, 2 * |p| - |flags|
      {
        ghost var before := flags;
        changed := Round(bound);
        rounds := rounds + 1;
        AllFlags(|p|, flags);
        if changed { Larger(before, flags); }
      }
    }
  }

  /** The flags once propagated: set exactly where the effect can be reached over calls. */
  method Infer(p: Program) returns (io: seq<bool>, globalWrite: seq<bool>, rounds: nat)
    requires Bound(p)
    ensures |io| == |globalWrite| == |p| && rounds <= 2 * |p| + 1
    ensures forall i: nat :: i < |p| ==> (io[i] <==> Has(p, i, IO)) && (globalWrite[i] <==> Has(p, i, GlobalWrite))
    ensures forall i: nat :: i < |p| ==> (io[i] <==> May(p, i, IO)) && (globalWrite[i] <==> May(p, i, GlobalWrite))
  {
    var g := new EffectGraph(p);
    g.Scan();
    ReachedIsStable(p);
    rounds := g.Propagate(Reached(p));
    StableCovers(p, g.flags);
    io, globalWrite := g.io[..], g.globalWrite[..];
    forall i: nat | i < |p|
      ensures io[i] <==> Has(p, i, IO)
      ensures globalWrite[i] <==> Has(p, i, GlobalWrite)
      ensures io[i] <==> May(p, i, IO)
      ensures globalWrite[i] <==> May(p, i, GlobalWrite)
    {
      HasExact(p, i, IO);
      HasExact(p, i, GlobalWrite);
      assert io[i] <==> (i, IO) in Reached(p);
      assert globalWrite[i] <==> (i, GlobalWrite) in Reached(p);
    }
  }

  lemma {:induction false} AllFlags(n: nat, flags: Flags)
    requires forall x :: x in flags ==> x.0 < n
    ensures |flags| <= 2 * n
  {
    if n == 0 {
      assert flags == {};
    } else {
      var top: nat := n - 1;
      var rest := flags - {(top, IO), (top, GlobalWrite)};
      forall x | x in rest
        ensures x.0 < n - 1
      {
        assert x == (x.0, x.1) && (x.1 == IO || x.1 == GlobalWrite);
      }
      AllFlags(n - 1, rest);
      assert flags <= rest + {(top, IO), (top, GlobalWrite)};
      AtMost(flags, rest + {(top, IO), (top, GlobalWrite)});
    }
  }

  // ---- the report

  /** A call by name that a method of this tier may not make. */
  ghost predicate Refused(p: Program, tier: Tier, s: Site) {
    match s
    case Call(Extern) => tier != Free
    case Call(Function(f)) => (tier != Free && Has(p, f, IO)) || (tier == Pure && Has(p, f, GlobalWrite))
    case _ => false
  }

  /** Function `i` calls by name no extern function, and none from which I/O or a global write is reachable. */
  ghost predicate CallsOnlyPure(p: Program, i: nat)
    requires i < |p|
  {
    forall k :: 0 <= k < |p[i].sites| && p[i].sites[k].Call? ==> PureCallee(p, p[i].sites[k].callee)
  }

  ghost predicate PureCallee(p: Program, c: Callee) {
    c != Extern && (c.Function? ==> forall j: nat, e :: Reach(CallEdges(p), {c.f}, j) ==> !Direct(p, j, e))
  }

  /** Function `i` calls by name no extern function, and none from which I/O is reachable. */
  ghost predicate CallsNoIO(p: Program, i: nat)
    requires i < |p|
  {
    forall k :: 0 <= k < |p[i].sites| && p[i].sites[k].Call? ==> QuietCallee(p, p[i].sites[k].callee)
  }

  ghost predicate QuietCallee(p: Program, c: Callee) {
    c != Extern && (c.Function? ==> forall j: nat :: Reach(CallEdges(p), {c.f}, j) ==> !Direct(p, j, IO))
  }

  /** iron_effects_check: reports exactly the calls by name, in pure and readonly methods, of an extern
      function or of one from which I/O (or, for pure methods, a global write) is reachable. */
  method Check(p: Program) returns (reports: set<(nat, nat)>)
    requires Bound(p)
    ensures forall i: nat, k: nat :: (i, k) in reports <==> i < |p| && k < |p[i].sites| && Refused(p, p[i].tier, p[i].sites[k])
    ensures forall i: nat :: i < |p| && p[i].tier == Pure ==> ((forall k: nat :: (i, k) !in reports) <==> CallsOnlyPure(p, i))
    ensures forall i: nat :: i < |p| && p[i].tier == Readonly ==> ((forall k: nat :: (i, k) !in reports) <==> CallsNoIO(p, i))
    ensures forall i: nat, k: nat :: i < |p| && p[i].tier == Free ==> (i, k) !in reports
  {
    var io, globalWrite, rounds := Infer(p);
    reports := {};
    for i := 0 to |p|
      invariant forall m: nat, k: nat :: (m, k) in reports <==> m < i && k < |p[m].sites| && Refused(p, p[m].tier, p[m].sites[k])
    {
      if p[i].tier != Free {
        var found := CheckBody(p, io, globalWrite, i);
        reports := reports + found;
      }
    }
    forall i: nat | i < |p| && p[i].tier == Pure
      ensures (forall k: nat :: (i, k) !in reports) <==> CallsOnlyPure(p, i)
    {
      forall k: nat | k < |p[i].sites|
        ensures Refused(p, Pure, p[i].sites[k]) <==> p[i].sites[k].Call? && !PureCallee(p, p[i].sites[k].callee)
      {
        RefusedMeaning(p, p[i].sites[k]);
      }
    }
    forall i: nat | i < |p| && p[i].tier == Readonly
      ensures (forall k: nat :: (i, k) !in reports) <==> CallsNoIO(p, i)
    {
      forall k: nat | k < |p[i].sites|
        ensures Refused(p, Readonly, p[i].sites[k]) <==> p[i].sites[k].Call? && !QuietCallee(p, p[i].sites[k].callee)
      {
        RefusedMeaning(p, p[i].sites[k]);
      }
    }
  }

  /** What a pure method may not call: extern, or leading to an effect of either kind; and a readonly one: extern,
      or leading to I/O. */
  lemma RefusedMeaning(p: Program, s: Site)
    ensures Refused(p, Pure, s) <==> s.Call? && !PureCallee(p, s.callee)
    ensures Refused(p, Readonly, s) <==> s.Call? && !QuietCallee(p, s.callee)
  {
    if s.Call? && s.callee.Function? {
      forall j: nat, e | Reach(CallEdges(p), {s.callee.f}, j) && Direct(p, j, e)
        ensures Has(p, s.callee.f, IO) || Has(p, s.callee.f, GlobalWrite)
      {
        assert e == IO || e == GlobalWrite;
      }
    }
  }

  /** visit_report over one body */
  method CheckBody(p: Program, io: seq<bool>, globalWrite: seq<bool>, i: nat) returns (reports: set<(nat, nat)>)
    requires Bound(p) && i < |p| == |io| == |globalWrite| && p[i].tier != Free
    requires forall f: nat :: f < |p| ==> (io[f] <==> Has(p, f, IO)) && (globalWrite[f] <==> Has(p, f, GlobalWrite))
    ensures forall m: nat, k: nat :: (m, k) in reports <==> m == i && k < |p[i].sites| && Refused(p, p[i].tier, p[i].sites[k])
  {
    reports := {};
    var inPure := p[i].tier == Pure;
    for k := 0 to |p[i].sites|
      invariant forall m: nat, n: nat :: (m, n) in reports <==> m == i && n < k && Refused(p, p[i].tier, p[i].sites[n])
    {
      var s := p[i].sites[k];
      assert SiteBound(p, s);
      if s.Call? && !s.callee.Builtin? {
        var doesIO := s.callee.Extern? || io[s.callee.f];
        var writes := s.callee.Function? && globalWrite[s.callee.f];
        if (inPure && (doesIO || writes)) || (!inPure && doesIO) { reports := reports + {(i, k)}; }
      }
    }
  }
}
