/**
 The walker of src/analyzer/init_check.c in its own form: one context whose flag array is marked,
 saved, restored and merged in place. Each method is proved against the walk of module InitCheck.
 */
module InitWalker {
  import opened IronCore
  import opened Options
  import opened InitCheck

  // ---------------------------------------------------------------- the flag arrays as sets of names

  /** The first index tracking `x`, or -1 (find_uninit_index). */
  function Find(vars: seq<string>, x: string): (i: int)
    ensures -1 <= i < |vars|
    ensures i >= 0 ==> vars[i] == x && x !in vars[..i]
    ensures i < 0 <==> x !in vars
  {
    if vars == [] then -1
    else
      var i := Find(vars[..|vars| - 1], x);
      if i >= 0 then i else if vars[|vars| - 1] == x then |vars| - 1 else -1
  }

  function Names(vars: seq<string>): set<string> { set x | x in vars }

  /** The names whose flag is set: each name is looked up at its first index. */
  function Done(vars: seq<string>, flags: seq<bool>): set<string>
    requires |vars| <= |flags|
  {
    set x | x in vars && flags[Find(vars, x)]
  }

  /** A flag array taken when `n` names were registered: no flag beyond them is set. */
  ghost predicate Taken(flags: seq<bool>, n: nat) {
    |flags| == MAX_UNINIT_VARS && forall i :: n <= i < |flags| ==> !flags[i]
  }

  lemma FindStable(v: seq<string>, v': seq<string>, x: string)
    requires v <= v' && x in v
    ensures Find(v', x) == Find(v, x)
  {
  }

  /** An older array means the same after more names were registered. */
  lemma DoneLater(v: seq<string>, v': seq<string>, flags: seq<bool>)
    requires v <= v' && |v'| <= MAX_UNINIT_VARS && Taken(flags, |v|)
    ensures Done(v', flags) == Done(v, flags)
  {
    forall x | x in v'
      ensures x in Done(v', flags) <==> x in Done(v, flags)
    {
      if x in v { FindStable(v, v', x); } else { assert Find(v', x) >= |v|; }
    }
  }

  /** intersect_assigned_pair: a[i] = a[i] && b[i] for the first `count` flags. */
  method IntersectAssignedPair(a: array<bool>, b: array<bool>, count: nat)
    requires a.Length == b.Length == MAX_UNINIT_VARS && count <= MAX_UNINIT_VARS && a != b
    modifies a
    ensures forall k :: 0 <= k < a.Length ==> a[k] == if k < count then old(a[k]) && b[k] else old(a[k])
  {
    for i := 0 to count
      invariant forall k :: 0 <= k < a.Length ==> a[k] == if k < i then old(a[k]) && b[k] else old(a[k])
    {
      a[i] := a[i] && b[i];
    }
  }

  method CopyFlags(src: array<bool>, dst: array<bool>)
    requires src.Length == dst.Length == MAX_UNINIT_VARS
    modifies dst
    ensures dst[..] == old(src[..])
  {
    forall i | 0 <= i < MAX_UNINIT_VARS { dst[i] := src[i]; }
  }

  class InitCheckCtx {
    var uninitVars: seq<string>
    const flags: array<bool>
    var hasReturn: bool
    var capNoted: bool
    var reports: set<Report>

    ghost predicate Valid()
      reads this, flags
    {
      |uninitVars| <= MAX_UNINIT_VARS && flags.Length == MAX_UNINIT_VARS && Taken(flags[..], |uninitVars|)
    }

    ghost function Now(): State
      requires Valid()
      reads this, flags
    {
      State(|uninitVars|, Names(uninitVars), Done(uninitVars, flags[..]), hasReturn, capNoted, reports)
    }

    constructor ()
      ensures Valid() && fresh(flags) && Now() == Start()
    {
      uninitVars, hasReturn, capNoted, reports := [], false, false, {};
      flags := new bool[MAX_UNINIT_VARS](_ => false);
    }

    method FindUninitIndex(name: string) returns (idx: int)
      requires Valid()
      ensures idx == Find(uninitVars, name)
    {
      for i := 0 to |uninitVars|
        invariant name !in uninitVars[..i]
      {
        if uninitVars[i] == name { return i; }
      }
      return -1;
    }

    method MarkAssigned(name: string)
      requires Valid()
      modifies flags
      ensures Valid() && Now() == Mark(name, old(Now()))
    {
      var idx := FindUninitIndex(name);
      if idx >= 0 {
        flags[idx] := true;
        assert Done(uninitVars, flags[..]) == old(Done(uninitVars, flags[..])) + {name};
      }
    }

    method SaveAssigned() returns (snapshot: array<bool>)
      requires Valid()
      ensures fresh(snapshot) && snapshot.Length == MAX_UNINIT_VARS && snapshot[..] == flags[..]
    {
      snapshot := new bool[MAX_UNINIT_VARS];
      CopyFlags(flags, snapshot);
    }

    /** `n` names were registered when the snapshot was taken. */
    method RestoreAssigned(snapshot: array<bool>, ghost n: nat)
      requires Valid() && n <= |uninitVars| && snapshot.Length == MAX_UNINIT_VARS && Taken(snapshot[..], n)
      modifies flags
      ensures Valid() && flags[..] == old(snapshot[..])
      ensures Now() == old(Now()).(done := Done(uninitVars[..n], old(snapshot[..])))
    {
      CopyFlags(snapshot, flags);
      DoneLater(uninitVars[..n], uninitVars, flags[..]);
    }

    method UnionAssigned(other: array<bool>, ghost n: nat)
      requires Valid() && n <= |uninitVars| && other.Length == MAX_UNINIT_VARS && other != flags && Taken(other[..], n)
      modifies flags
      ensures Valid()
      ensures Now() == old(Now()).(done := old(Now()).done + Done(uninitVars[..n], other[..]))
    {
      for i := 0 to |uninitVars|
        invariant forall k :: 0 <= k < flags.Length ==> flags[k] == if k < i then old(flags[k]) || other[k] else old(flags[k])
      {
        flags[i] := flags[i] || other[i];
      }
      DoneLater(uninitVars[..n], uninitVars, other[..]);
      assert Done(uninitVars, flags[..]) == old(Now()).done + Done(uninitVars, other[..]);
    }

    method CheckExprUses(e: Expr)
      requires Valid()
      modifies this`reports
      ensures Valid() && Now() == Use(e, old(Now()))
      decreases e
    {
      match e
      case Leaf =>
      case Ident(x, n) =>
        var idx := FindUninitIndex(x);
        if idx >= 0 && !flags[idx] {
          assert Unset(Names(uninitVars), Done(uninitVars, flags[..]), x);
          reports := reports + {Report(x, n)};
        }
      case Await(h, _) => CheckExprUses(h);
      case Logical(l, r) =>
        CheckExprUses(l);
        CheckExprUses(r);
      case Compound(k, es) =>
        if k != EnumConstruct {
          var rest := es;
          while rest.ECons?
            invariant es == rest || (es decreases to rest)
            invariant Valid() && Now() == old(Now()).(reports := reports)
            invariant reports + UseReportsAll(rest, Now().tracked, Now().done)
                   == old(reports) + UseReportsAll(es, Now().tracked, Now().done)
            decreases rest
          {
            CheckExprUses(rest.head);
            rest := rest.tail;
          }
        }
    }

    method RegisterUninit(x: string)
      requires Valid()
      modifies this`uninitVars, this`capNoted, flags
      ensures Valid() && old(uninitVars) <= uninitVars && Now() == Register(x, old(Now()))
    {
      if |uninitVars| < MAX_UNINIT_VARS {
        flags[|uninitVars|] := false;
        uninitVars := uninitVars + [x];
        ghost var was := old(uninitVars);
        assert flags[..] == old(flags[..]);
        DoneLater(was, uninitVars, flags[..]);
        assert Names(uninitVars) == Names(was) + {x};
      } else {
        capNoted := true;
      }
    }

    /** The statements of a block, in order. */
    method CheckBlock(ss: Stmts)
      requires Valid()
      modifies this, flags
      ensures Valid() && old(uninitVars) <= uninitVars && Now() == WalkAll(ss, old(Now()))
      decreases ss, 0
    {
      var rest := ss;
      while rest.SCons?
        invariant ss == rest || (ss decreases to rest)
        invariant Valid() && old(uninitVars) <= uninitVars && WalkAll(rest, Now()) == WalkAll(ss, old(Now()))
        decreases rest
      {
        CheckStmtInit(rest.head);
        rest := rest.tail;
      }
    }

    method CheckAside(body: Stmts)
      requires Valid()
      modifies this, flags
      ensures Valid() && old(uninitVars) <= uninitVars && Now() == WalkAside(body, old(Now()))
      decreases body, 1
    {
      var before := SaveAssigned();
      hasReturn := false;
      CheckBlock(body);
      assert uninitVars[..|old(uninitVars)|] == old(uninitVars);
      RestoreAssigned(before, |old(uninitVars)|);
      hasReturn := false;
    }

    /** What the branches walked so far have in common; `n` names were registered when `snapshots`
        was last written. */
    ghost function Common(first: bool, snapshots: array<bool>, n: nat): Option<set<string>>
      requires Valid() && n <= |uninitVars| && Taken(snapshots[..], n)
      reads this, flags, snapshots
    {
      if first then None else Some(Done(uninitVars[..n], snapshots[..]))
    }

    /** Fold the flags of a branch that did not return into `snapshots`. */
    method FoldBranch(snapshots: array<bool>, ghost n: nat, firstNonReturn: bool)
      requires Valid() && n <= |uninitVars| && snapshots != flags && Taken(snapshots[..], n)
      modifies snapshots
      ensures Taken(snapshots[..], |uninitVars|)
      ensures Done(uninitVars, snapshots[..])
           == if firstNonReturn then Now().done else old(Done(uninitVars[..n], snapshots[..])) * Now().done
    {
      if firstNonReturn {
        CopyFlags(flags, snapshots);
      } else {
        DoneLater(uninitVars[..n], uninitVars, snapshots[..]);
        var branchSnap := SaveAssigned();
        IntersectAssignedPair(snapshots, branchSnap, |uninitVars|);
      }
    }

    /** Walk one branch, as every branch of an if/else or a match with else is walked. `k` names
        were registered when `before` was saved. */
    method CheckBranch(cond: Expr, body: Stmts, before: array<bool>, ghost k: nat,
                       snapshots: array<bool>, ghost n: nat, firstNonReturn: bool)
      returns (first: bool, ghost m: nat)
      requires Valid() && k <= |uninitVars| && n <= |uninitVars|
      requires before != snapshots && before != flags && snapshots != flags
      requires Taken(before[..], k) && Taken(snapshots[..], n)
      modifies this, flags, snapshots
      ensures Valid() && old(uninitVars) <= uninitVars && m <= |uninitVars| && Taken(snapshots[..], m)
      ensures Merge(Now(), Common(first, snapshots, m))
           == WalkBranch(cond, body, Done(uninitVars[..k], before[..]), Merge(old(Now()), old(Common(firstNonReturn, snapshots, n))))
      decreases body, 1
    {
      first, m := firstNonReturn, n;
      ghost var vars0 := uninitVars;
      RestoreAssigned(before, k);
      CheckExprUses(cond);
      hasReturn := false;
      CheckBlock(body);
      assert uninitVars[..k] == vars0[..k] && uninitVars[..n] == vars0[..n];
      if !hasReturn {
        FoldBranch(snapshots, n, firstNonReturn);
        first, m := false, |uninitVars|;
        assert uninitVars[..m] == uninitVars;
      }
    }

    /** The elif arms or cases, then the else body. */
    method CheckArms(arms: Arms, before: array<bool>, ghost k: nat, snapshots: array<bool>, ghost n: nat, firstNonReturn: bool)
      returns (first: bool, ghost m: nat)
      requires Valid() && k <= |uninitVars| && n <= |uninitVars|
      requires before != snapshots && before != flags && snapshots != flags
      requires Taken(before[..], k) && Taken(snapshots[..], n)
      modifies this, flags, snapshots
      ensures Valid() && old(uninitVars) <= uninitVars && m <= |uninitVars| && Taken(snapshots[..], m)
      ensures Merge(Now(), Common(first, snapshots, m))
           == WalkArms(arms, Done(uninitVars[..k], before[..]), Merge(old(Now()), old(Common(firstNonReturn, snapshots, n))))
      decreases arms, 0
    {
      first, m := firstNonReturn, n;
      var rest := arms;
      ghost var done0 := Done(uninitVars[..k], before[..]);
      while rest.Arm?
        invariant arms == rest || (arms decreases to rest)
        invariant Valid() && old(uninitVars) <= uninitVars && m <= |uninitVars| && Taken(snapshots[..], m)
        invariant Done(uninitVars[..k], before[..]) == done0 && before[..] == old(before[..])
        invariant WalkArms(rest, done0, Merge(Now(), Common(first, snapshots, m)))
               == WalkArms(arms, done0, Merge(old(Now()), old(Common(firstNonReturn, snapshots, n))))
        decreases rest
      {
        ghost var vars0 := uninitVars;
        first, m := CheckBranch(rest.cond, rest.body, before, k, snapshots, m, first);
        assert uninitVars[..k] == vars0[..k];
        rest := rest.rest;
      }
      if rest.Else? {
        ghost var vars0 := uninitVars;
        first, m := CheckBranch(Leaf, rest.body, before, k, snapshots, m, first);
        assert uninitVars[..k] == vars0[..k];
      }
    }

    /** Merge: before | the flags common to the branches that did not return. */
    method FinishMerge(before: array<bool>, ghost k: nat, snapshots: array<bool>, ghost n: nat, allReturn: bool)
      requires Valid() && k <= |uninitVars| && n <= |uninitVars| && before != flags && snapshots != flags
      requires Taken(before[..], k) && Taken(snapshots[..], n)
      modifies this`hasReturn, flags
      ensures Valid()
      ensures Now() == Finish(Done(uninitVars[..k], before[..]), Merge(old(Now()), old(Common(allReturn, snapshots, n))))
    {
      RestoreAssigned(before, k);
      if !allReturn { UnionAssigned(snapshots, n); }
      hasReturn := allReturn;
    }

    method CheckLoose(arms: Arms, before: array<bool>, ghost k: nat)
      requires Valid() && k <= |uninitVars| && before != flags && Taken(before[..], k)
      modifies this, flags
      ensures Valid() && old(uninitVars) <= uninitVars
      ensures Now() == WalkLoose(arms, Done(uninitVars[..k], before[..]), old(Now()))
      decreases arms, 0
    {
      var rest := arms;
      ghost var done0 := Done(uninitVars[..k], before[..]);
      while rest.Arm?
        invariant arms == rest || (arms decreases to rest)
        invariant Valid() && old(uninitVars) <= uninitVars
        invariant Done(uninitVars[..k], before[..]) == done0 && before[..] == old(before[..])
        invariant WalkLoose(rest, done0, Now()) == WalkLoose(arms, done0, old(Now()))
        decreases rest
      {
        ghost var vars0 := uninitVars;
        RestoreAssigned(before, k);
        CheckExprUses(rest.cond);
        CheckBlock(rest.body);
        assert uninitVars[..k] == vars0[..k];
        rest := rest.rest;
      }
      if rest.Else? {
        ghost var vars0 := uninitVars;
        RestoreAssigned(before, k);
        CheckBlock(rest.body);
        assert uninitVars[..k] == vars0[..k];
      }
      RestoreAssigned(before, k);
      hasReturn := false;
    }

    method HasElseBody(arms: Arms) returns (found: bool)
      ensures found == HasElse(arms)
    {
      var rest := arms;
      while rest.Arm?
        invariant HasElse(rest) == HasElse(arms)
        decreases rest
      {
        rest := rest.rest;
      }
      return rest.Else?;
    }

    /** check_stmt_init. */
    method CheckStmtInit(s: Stmt)
      requires Valid()
      modifies this, flags
      ensures Valid() && old(uninitVars) <= uninitVars && Now() == WalkStmt(s, old(Now()))
      decreases s, 1
    {
      match s
      case Decl(x, init) =>
        match init {
          case NoInit => RegisterUninit(x);
          case Zeroed =>
          case Value(e) => CheckExprUses(e);
        }
      case Spawn(_) =>
      case Assign(target, _, value) =>
        CheckExprUses(value);
        if target.Ident? { MarkAssigned(target.name); }
      case Return(e) =>
        CheckExprUses(e);
        hasReturn := true;
      case Break => hasReturn := true;
      case Continue => hasReturn := true;
      case ExprStmt(e) => CheckExprUses(e);
      case Block(ss) => CheckBlock(ss);
      case If(c, body, rest) =>
        CheckExprUses(c);
        var withElse := HasElseBody(rest);
        if withElse { CheckIfElse(s); } else { CheckAside(body); }
      case While(c, body) =>
        CheckExprUses(c);
        CheckAside(body);
      case For(_, e, body) =>
        CheckExprUses(e);
        CheckAside(body);
      case Match(e, cases) =>
        CheckExprUses(e);
        var withElse := HasElseBody(cases);
        if withElse && cases.Arm? { CheckMatchElse(cases); } else { CheckMatchLoose(cases); }
    }

    method CheckMatchElse(cases: Arms)
      requires Valid()
      modifies this, flags
      ensures Valid() && old(uninitVars) <= uninitVars
      ensures Now() == Finish(old(Now()).done, WalkArms(cases, old(Now()).done, Merge(old(Now()), None)))
      decreases cases, 1
    {
      var before := SaveAssigned();
      ghost var k := |uninitVars|;
      assert uninitVars[..k] == uninitVars;
      var snapshots := new bool[MAX_UNINIT_VARS](_ => false);
      ghost var n;
      var first;
      first, n := CheckArms(cases, before, k, snapshots, 0, true);
      assert uninitVars[..k] == old(uninitVars);
      FinishMerge(before, k, snapshots, n, first);
    }

    method CheckMatchLoose(cases: Arms)
      requires Valid()
      modifies this, flags
      ensures Valid() && old(uninitVars) <= uninitVars && Now() == WalkLoose(cases, old(Now()).done, old(Now()))
      decreases cases, 1
    {
      var before := SaveAssigned();
      ghost var k := |uninitVars|;
      assert uninitVars[..k] == uninitVars;
      CheckLoose(cases, before, k);
      assert uninitVars[..k] == old(uninitVars);
    }

    /** The branches of an if/else, after its condition. */
    method CheckIfElse(s: Stmt)
      requires Valid() && s.If?
      modifies this, flags
      ensures Valid() && old(uninitVars) <= uninitVars
      ensures var st := old(Now());
              Now() == Finish(st.done, WalkArms(s.rest, st.done, WalkBranch(Leaf, s.body, st.done, Merge(st, None))))
      decreases s, 0
    {
      var before := SaveAssigned();
      ghost var k := |uninitVars|;
      assert uninitVars[..k] == uninitVars;
      var snapshots := new bool[MAX_UNINIT_VARS](_ => false);
      ghost var n;
      var first;
      first, n := CheckBranch(Leaf, s.body, before, k, snapshots, 0, true);
      assert uninitVars[..k] == old(uninitVars);
      first, n := CheckArms(s.rest, before, k, snapshots, n, first);
      assert uninitVars[..k] == old(uninitVars);
      FinishMerge(before, k, snapshots, n, first);
    }
  }

  /** check_function on a body: the reports the theorems of InitSound and InitExact speak about. */
  method CheckFunction(body: Stmts) returns (reports: set<Report>, capNoted: bool)
    ensures reports == WalkAll(body, Start()).reports && (capNoted <==> UninitAll(body) > 256)
  {
    var ctx := new InitCheckCtx();
    ctx.CheckBlock(body);
    CapExact(body);
    return ctx.reports, ctx.capNoted;
  }
}
