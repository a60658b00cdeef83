/**
 The await-once walker of src/analyzer/concurrency.c in its own form: AwaitState objects whose name
 list is changed in place, copied, joined and restored. Proved against the functions of AwaitOnce.
 */
module AwaitWalker {
  import opened IronCore
  import opened Options
  import AwaitOnce

  ghost predicate NoDup(s: seq<string>) {
    forall i, j :: 0 <= i < j < |s| ==> s[i] != s[j]
  }

  class AwaitState {
    var names: seq<string>
    var dead: bool

    ghost predicate Valid()
      reads this
    {
      NoDup(names)
    }

    ghost function Names(): set<string>
      reads this
    {
      set x | x in names
    }

    constructor (dead: bool)
      ensures Valid() && Names() == {} && this.dead == dead
    {
      names, this.dead := [], dead;
    }

    method Has(n: string) returns (found: bool)
      ensures found == (n in Names())
    {
      for i := 0 to |names|
        invariant n !in names[..i]
      {
        if names[i] == n { return true; }
      }
      return false;
    }

    method Add(n: string)
      requires Valid()
      modifies this`names
      ensures Valid() && Names() == old(Names()) + {n}
    {
      var found := Has(n);
      if !found { names := names + [n]; }
    }

    /** arrdelswap: the last name takes the place of the removed one. */
    method Remove(n: string)
      requires Valid()
      modifies this`names
      ensures Valid() && Names() == old(Names()) - {n}
    {
      for i := 0 to |names|
        invariant names == old(names) && n !in names[..i]
      {
        if names[i] == n {
          var last := |names| - 1;
          names := names[i := names[last]][..last];
          assert forall x :: x in names ==> x in old(names);
          assert forall k :: 0 <= k < |old(names)| && k != i ==> old(names)[k] in names by {
            forall k | 0 <= k < |old(names)| && k != i
              ensures old(names)[k] in names
            {
              assert if k < last then names[k] == old(names)[k] else names[i] == old(names)[k];
            }
          }
          return;
        }
      }
    }

    method Copy() returns (c: AwaitState)
      requires Valid()
      ensures fresh(c) && c.Valid() && c.names == names && c.dead == dead
    {
      c := new AwaitState(dead);
      c.names := names;
    }

    /** this := this joined with src (a dead path contributes nothing). */
    method Join(src: AwaitState)
      requires Valid() && src.Valid() && src != this
      modifies this
      ensures Valid()
      ensures forall r :: AwaitOnce.State(Names(), dead, r)
                       == AwaitOnce.Join(AwaitOnce.State(old(Names()), old(dead), r), AwaitOnce.State(src.Names(), src.dead, r))
    {
      if src.dead { return; }
      if dead {
        names, dead := src.names, false;
        return;
      }
      for i := 0 to |src.names|
        invariant Valid() && !dead && Names() == old(Names()) + set x | x in src.names[..i]
      {
        Add(src.names[i]);
      }
    }
  }

  /** The saved map as the two parallel lists of the source hold it. */
  ghost function SavedMap(shadowed: seq<string>, was: seq<bool>): map<string, bool>
    requires |shadowed| == |was|
  {
    if shadowed == [] then map[]
    else SavedMap(shadowed[..|shadowed| - 1], was[..|was| - 1])[shadowed[|shadowed| - 1] := was[|was| - 1]]
  }

  lemma {:induction false} SavedMapKeys(shadowed: seq<string>, was: seq<bool>)
    requires |shadowed| == |was| && NoDup(shadowed)
    ensures SavedMap(shadowed, was).Keys == set x | x in shadowed
    ensures forall i :: 0 <= i < |shadowed| ==> SavedMap(shadowed, was)[shadowed[i]] == was[i]
  {
    if shadowed != [] {
      var k := |shadowed| - 1;
      SavedMapKeys(shadowed[..k], was[..k]);
      assert shadowed == shadowed[..k] + [shadowed[k]];
    }
  }

  class AwaitCheck {
    var reported: set<AwaitOnce.Site>

    ghost function Now(s: AwaitState): AwaitOnce.State
      reads this, s
    {
      AwaitOnce.State(s.Names(), s.dead, reported)
    }

    method RootOf(e: Expr) returns (r: Option<string>)
      ensures r == AwaitOnce.RootName(e)
    {
      var cur := e;
      while cur.Compound? && cur.kind == Place && cur.parts.ECons?
        invariant AwaitOnce.RootName(cur) == AwaitOnce.RootName(e)
        decreases cur
      {
        cur := cur.parts.head;
      }
      return if cur.Ident? then Some(cur.name) else None;
    }

    method CheckExpr(e: Expr, s: AwaitState)
      requires s.Valid() && !s.dead
      modifies this, s`names
      ensures s.Valid() && !s.dead && Now(s) == AwaitOnce.AwExpr(e, old(Now(s)))
      decreases e
    {
      match e
      case Leaf =>
      case Ident(_, _) =>
      case Await(h, n) =>
        CheckExpr(h, s);
        var root := RootOf(h);
        if root.Some? {
          var again := s.Has(root.value);
          if again { reported := reported + {AwaitOnce.Site(root.value, n)}; }
          s.Add(root.value);
        }
      case Logical(l, r) =>
        CheckExpr(l, s);
        CheckExpr(r, s);
      case Compound(k, es) =>
        var rest := if k == Operator || k == Place then es else if k == CallExpr && es.ECons? then es.tail else ENil;
        ghost var all := rest;
        while rest.ECons?
          invariant s.Valid() && !s.dead
          invariant rest.ECons? ==> (e decreases to rest)
          invariant AwaitOnce.AwExprs(rest, Now(s)) == AwaitOnce.AwExprs(all, old(Now(s)))
          decreases rest
        {
          CheckExpr(rest.head, s);
          rest := rest.tail;
        }
    }

    /** One statement of a block may shadow a name: note the state the name had, once. */
    method NoteShadow(st: Stmt, s: AwaitState, shadowed: seq<string>, was: seq<bool>) returns (shadowed': seq<string>, was': seq<bool>)
      requires |shadowed| == |was| && NoDup(shadowed)
      ensures |shadowed'| == |was'| && NoDup(shadowed')
      ensures SavedMap(shadowed', was') == AwaitOnce.Shadow(st, s.Names(), SavedMap(shadowed, was))
    {
      shadowed', was' := shadowed, was;
      SavedMapKeys(shadowed, was);
      var dn := AwaitOnce.DeclName(st);
      if dn.Some? && dn.value !in shadowed {
        var had := s.Has(dn.value);
        shadowed', was' := shadowed + [dn.value], was + [had];
        assert shadowed'[..|shadowed|] == shadowed && was'[..|was|] == was;
      }
    }

    method Restore(s: AwaitState, shadowed: seq<string>, was: seq<bool>)
      requires s.Valid() && |shadowed| == |was| && NoDup(shadowed)
      modifies s`names
      ensures s.Valid() && s.Names() == AwaitOnce.GiveBack(old(s.Names()), SavedMap(shadowed, was))
    {
      for k := 0 to |shadowed|
        invariant s.Valid()
        invariant forall x :: x in s.Names() <==> if x in shadowed[..k] then exists i :: 0 <= i < k && shadowed[i] == x && was[i] else x in old(s.Names())
      {
        if was[k] { s.Add(shadowed[k]); } else { s.Remove(shadowed[k]); }
      }
      SavedMapKeys(shadowed, was);
      assert shadowed[..|shadowed|] == shadowed;
    }

    method CheckBlock(ss: Stmts, s: AwaitState)
      requires s.Valid()
      modifies this, s
      ensures s.Valid() && Now(s) == AwaitOnce.AwBlock(ss, old(Now(s)))
      decreases ss, 1
    {
      if s.dead { return; }
      var shadowed, was := [], [];
      var rest := ss;
      while rest.SCons?
        invariant s.Valid() && |shadowed| == |was| && NoDup(shadowed)
        invariant ss == rest || (ss decreases to rest)
        invariant AwaitOnce.AwAll(rest, Now(s), SavedMap(shadowed, was)) == AwaitOnce.AwAll(ss, old(Now(s)), map[])
        decreases rest
      {
        shadowed, was := NoteShadow(rest.head, s, shadowed, was);
        CheckStmt(rest.head, s);
        rest := rest.tail;
      }
      if !s.dead { Restore(s, shadowed, was); }
    }

    /** A branch on a copy of `s`, joined into `out`. */
    method CheckBranch(c: Expr, body: Stmts, s: AwaitState, out: AwaitState)
      requires s.Valid() && !s.dead && out.Valid() && s != out
      modifies this, out
      ensures out.Valid() && Now(out) == AwaitOnce.AwBranch(c, body, s.Names(), old(Now(out)))
      decreases body, 2
    {
      var br := s.Copy();
      CheckExpr(c, br);
      CheckBlock(body, br);
      out.Join(br);
    }

    method CheckArms(arms: Arms, s: AwaitState, out: AwaitState)
      requires s.Valid() && !s.dead && out.Valid() && s != out
      modifies this, out
      ensures out.Valid()
      ensures Now(out) == AwaitOnce.AwArms(arms, s.Names(), old(Now(out)))
      decreases arms
    {
      var rest := arms;
      while rest.Arm?
        invariant out.Valid() && (arms == rest || (arms decreases to rest))
        invariant AwaitOnce.AwArms(rest, s.Names(), Now(out)) == AwaitOnce.AwArms(arms, s.Names(), old(Now(out)))
        decreases rest
      {
        CheckBranch(rest.cond, rest.body, s, out);
        rest := rest.rest;
      }
      if rest.Else? { CheckBranch(Leaf, rest.body, s, out); } else { out.Join(s); }
    }

    /** Two passes over the body; the loop may also run zero times. */
    method CheckLoop(body: Stmts, s: AwaitState)
      requires s.Valid() && !s.dead
      modifies this, s
      ensures s.Valid() && Now(s) == AwaitOnce.AwLoop(body, old(Now(s)))
      decreases body, 2
    {
      var it := s.Copy();
      CheckBlock(body, it);
      var it2 := it.Copy();
      it2.dead := false;
      it2.Join(s);
      CheckBlock(body, it2);
      s.Join(it);
      s.Join(it2);
    }

    /** aw_stmt. */
    method CheckStmt(st: Stmt, s: AwaitState)
      requires s.Valid()
      modifies this, s
      ensures s.Valid() && Now(s) == AwaitOnce.AwStmt(st, old(Now(s)))
      decreases st, 1
    {
      if s.dead { return; }
      match st
      case Decl(x, init) =>
        if init.Value? { CheckExpr(init.e, s); }
        s.Remove(x);
      case Spawn(h) => s.Remove(h);
      case Assign(target, _, v) =>
        CheckExpr(v, s);
        if target.Ident? { s.Remove(target.name); }
      case Return(e) =>
        CheckExpr(e, s);
        s.dead := true;
      case Break =>
      case Continue =>
      case ExprStmt(e) => CheckExpr(e, s);
      case Block(ss) => CheckBlock(ss, s);
      case If(_, _, _) => CheckIf(st, s);
      case While(c, body) =>
        CheckExpr(c, s);
        CheckLoop(body, s);
      case For(_, e, body) =>
        CheckExpr(e, s);
        CheckLoop(body, s);
      case Match(e, cases) =>
        CheckExpr(e, s);
        var out := new AwaitState(true);
        CheckArms(cases, s, out);
        s.names, s.dead := out.names, out.dead;
    }

    method CheckIf(st: Stmt, s: AwaitState)
      requires st.If? && s.Valid() && !s.dead
      modifies this, s
      ensures s.Valid() && Now(s) == AwaitOnce.AwStmt(st, old(Now(s)))
      decreases st, 0
    {
      CheckExpr(st.cond, s);
      var out := new AwaitState(true);
      CheckBranch(Leaf, st.body, s, out);
      CheckArms(st.rest, s, out);
      s.names, s.dead := out.names, out.dead;
    }
  }

  /** check_await_once: the reports the theorems of AwaitSound speak about. */
  method CheckAwaitOnce(body: Stmts) returns (reports: set<AwaitOnce.Site>)
    ensures reports == AwaitOnce.AwBlock(body, AwaitOnce.Start()).reports
  {
    var s := new AwaitState(false);
    var check := new AwaitCheck;
    check.reported := {};
    check.CheckBlock(body, s);
    return check.reported;
  }
}
