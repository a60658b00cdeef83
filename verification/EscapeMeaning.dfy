/**
 What it means for a parameter to escape, by its occurrences: each occurrence has conditions under which it is
 harmless, and the least fixpoint of ParamEscape holds exactly the parameters from which a chain of unmet
 conditions leads to an occurrence that nothing can make harmless.
 */
module EscapeMeaning {
  import opened Options
  import opened ParamEscape

  // ---- occurrences

  function Items(nodes: Nodes): seq<Node> { if nodes.Nil? then [] else [nodes.head] + Items(nodes.tail) }

  /** The parts of a node; those of a call are its subject and then its arguments. */
  function Kids(node: Node): seq<Node> {
    match node
    case Param(_) => []
    case Closure(body) => [body]
    case Task(body) => [body]
    case Call(_, subject, _, args) => [subject] + Items(args)
    case Group(parts) => Items(parts)
  }

  type Path = seq<nat>

  function NodeAt(node: Node, path: Path): Option<Node>
    decreases |path|
  {
    if path == [] then Some(node) else if path[0] < |Kids(node)| then NodeAt(Kids(node)[path[0]], path[1..]) else None
  }

  /** A condition: none can be met, or it is met if parameter `q` does not escape. */
  datatype Need = Never | Unless(q: nat)

  /** What handing something over as argument `i` takes: the parameter that receives it, behind the receiver if
      there is one, must not escape. */
  function Receiving(g: Program, callee: Callee, i: nat): set<Need> {
    match callee
    case Keeps => {Never}
    case OnlyCalls => {}
    case Body(params, shift) =>
      if shift + i < |params| && params[shift + i] in g.tracked then {Unless(params[shift + i])} else {Never}
  }

  /** A parameter of `d` or a closure, as an argument. */
  predicate Handed(d: Decl, arg: Node) { arg.Closure? || (arg.Param? && arg.p in d.params) }

  /** The conditions under which the occurrence at `path` is harmless: each closure around it is handed to a
      parameter that does not escape, none is a task, and the parameter itself is called, or handed over likewise.
      `given` if `node` itself is called or handed over. */
  function Needs(g: Program, d: Decl, node: Node, path: Path, given: bool): set<Need>
    decreases |path|
  {
    if path == [] then if given then {} else {Never}
    else if path[0] >= |Kids(node)| then {}
    else
      var kid, rest := Kids(node)[path[0]], path[1..];
      match node
      case Param(_) => {}
      case Closure(_) => (if given then {} else {Never}) + Needs(g, d, kid, rest, false)
      case Task(_) => {Never} + Needs(g, d, kid, rest, false)
      case Call(isMethod, _, callee, _) =>
        if path[0] == 0 then Needs(g, d, kid, rest, !isMethod && kid.Param? && kid.p in d.params)
        else if Handed(d, kid) then Receiving(g, callee, path[0] - 1) + Needs(g, d, kid, rest, true)
        else Needs(g, d, kid, rest, false)
      case Group(_) => Needs(g, d, kid, rest, false)
  }

  ghost predicate Unmet(ns: set<Need>, esc: set<nat>) { Never in ns || exists q :: Unless(q) in ns && q in esc }

  /** Parameter `p` occurs at `path`, and harms if those in `esc` escape, or anyway if `out`. */
  ghost predicate Harms(g: Program, d: Decl, node: Node, given: bool, out: bool, esc: set<nat>, p: nat, path: Path) {
    NodeAt(node, path) == Some(Param(p)) && (out || Unmet(Needs(g, d, node, path, given), esc))
  }

  ghost predicate Harmed(g: Program, d: Decl, node: Node, given: bool, out: bool, esc: set<nat>, p: nat) {
    exists path :: Harms(g, d, node, given, out, esc, p, path)
  }

  // ---- the marks are the harmful occurrences

  lemma UnmetUnion(a: set<Need>, b: set<Need>, esc: set<nat>)
    ensures Unmet(a + b, esc) <==> Unmet(a, esc) || Unmet(b, esc)
  {
  }

  lemma LentMet(g: Program, d: Decl, callee: Callee, i: nat, arg: Node, out: bool, esc: set<nat>)
    ensures Lent(g, d, callee, i, arg, out, esc) <==> !out && Handed(d, arg) && !Unmet(Receiving(g, callee, i), esc)
  {
    match callee
    case Body(params, shift) =>
      if shift + i < |params| {
        assert params[shift + i] in g.tracked ==> (Unless(params[shift + i]) in Receiving(g, callee, i));
      }
    case _ =>
  }

  /** How an occurrence in kid `k` harms. */
  ghost predicate KidHarmed(g: Program, d: Decl, node: Node, given: bool, out: bool, esc: set<nat>, p: nat, k: nat) {
    && k < |Kids(node)|
    && var kid := Kids(node)[k];
    match node
    case Param(_) => false
    case Closure(_) => Harmed(g, d, kid, false, out || !given, esc, p)
    case Task(_) => Harmed(g, d, kid, false, true, esc, p)
    case Call(isMethod, _, callee, _) =>
      if k == 0 then Harmed(g, d, kid, !isMethod && kid.Param? && kid.p in d.params, out, esc, p)
      else if Handed(d, kid) then Harmed(g, d, kid, true, out || Unmet(Receiving(g, callee, k - 1), esc), esc, p)
      else Harmed(g, d, kid, false, out, esc, p)
    case Group(_) => Harmed(g, d, kid, false, out, esc, p)
  }

  lemma HarmsKid(g: Program, d: Decl, node: Node, given: bool, out: bool, esc: set<nat>, p: nat, path: Path)
    requires path != [] && Harms(g, d, node, given, out, esc, p, path)
    ensures KidHarmed(g, d, node, given, out, esc, p, path[0])
  {
    var kid, rest := Kids(node)[path[0]], path[1..];
    match node
    case Closure(_) => assert Harms(g, d, kid, false, out || !given, esc, p, rest);
    case Task(_) => assert Harms(g, d, kid, false, true, esc, p, rest);
    case Call(isMethod, _, callee, _) =>
      if path[0] == 0 {
        assert Harms(g, d, kid, !isMethod && kid.Param? && kid.p in d.params, out, esc, p, rest);
      } else if Handed(d, kid) {
        UnmetUnion(Receiving(g, callee, path[0] - 1), Needs(g, d, kid, rest, true), esc);
        assert Harms(g, d, kid, true, out || Unmet(Receiving(g, callee, path[0] - 1), esc), esc, p, rest);
      } else {
        assert Harms(g, d, kid, false, out, esc, p, rest);
      }
    case Group(_) => assert Harms(g, d, kid, false, out, esc, p, rest);
  }

  lemma KidHarms(g: Program, d: Decl, node: Node, given: bool, out: bool, esc: set<nat>, p: nat, k: nat)
    requires KidHarmed(g, d, node, given, out, esc, p, k)
    ensures Harmed(g, d, node, given, out, esc, p)
  {
    var kid := Kids(node)[k];
    var rest: Path;
    match node {
      case Closure(_) => rest :| Harms(g, d, kid, false, out || !given, esc, p, rest);
      case Task(_) => rest :| Harms(g, d, kid, false, true, esc, p, rest);
      case Call(isMethod, _, callee, _) =>
        if k == 0 {
          rest :| Harms(g, d, kid, !isMethod && kid.Param? && kid.p in d.params, out, esc, p, rest);
        } else if Handed(d, kid) {
          rest :| Harms(g, d, kid, true, out || Unmet(Receiving(g, callee, k - 1), esc), esc, p, rest);
          UnmetUnion(Receiving(g, callee, k - 1), Needs(g, d, kid, rest, true), esc);
        } else {
          rest :| Harms(g, d, kid, false, out, esc, p, rest);
        }
      case Group(_) => rest :| Harms(g, d, kid, false, out, esc, p, rest);
    }
    var path := [k] + rest;
    assert path[1..] == rest;
    assert Harms(g, d, node, given, out, esc, p, path);
  }

  /** An occurrence harms in itself or in a kid. */
  lemma HarmedExact(g: Program, d: Decl, node: Node, given: bool, out: bool, esc: set<nat>, p: nat)
    ensures Harmed(g, d, node, given, out, esc, p)
       <==> (node == Param(p) && (out || !given)) || exists k: nat :: KidHarmed(g, d, node, given, out, esc, p, k)
  {
    if path :| Harms(g, d, node, given, out, esc, p, path) {
      if path != [] { HarmsKid(g, d, node, given, out, esc, p, path); }
    }
    if node == Param(p) && (out || !given) { assert Harms(g, d, node, given, out, esc, p, []); }
    if k: nat :| KidHarmed(g, d, node, given, out, esc, p, k) { KidHarms(g, d, node, given, out, esc, p, k); }
  }

  ghost predicate OwnTracked(g: Program, d: Decl, p: nat) { p in d.params && p in g.tracked }

  /** A closure or task has one part. */
  lemma BodyHarmed(g: Program, d: Decl, node: Node, given: bool, out: bool, esc: set<nat>, p: nat)
    requires node.Closure? || node.Task?
    ensures Harmed(g, d, node, given, out, esc, p) <==> Harmed(g, d, node.body, false, out || node.Task? || !given, esc, p)
  {
    HarmedExact(g, d, node, given, out, esc, p);
    assert Kids(node) == [node.body];
    if Harmed(g, d, node.body, false, out || node.Task? || !given, esc, p) { assert KidHarmed(g, d, node, given, out, esc, p, 0); }
  }

  lemma ParamHarmed(g: Program, d: Decl, node: Node, given: bool, out: bool, esc: set<nat>, p: nat)
    requires node.Param?
    ensures Harmed(g, d, node, given, out, esc, p) <==> node.p == p && (out || !given)
  {
    HarmedExact(g, d, node, given, out, esc, p);
  }

  /** A parameter is marked exactly for a harmful occurrence. */
  lemma {:induction false} MarksExact(g: Program, d: Decl, node: Node, out: bool, esc: set<nat>, p: nat)
    ensures p in Marks(g, d, node, out, esc) <==> OwnTracked(g, d, p) && Harmed(g, d, node, false, out, esc, p)
    decreases node, 0
  {
    match node
    case Param(_) => ParamHarmed(g, d, node, false, out, esc, p);
    case Closure(body) =>
      MarksExact(g, d, body, true, esc, p);
      BodyHarmed(g, d, node, false, out, esc, p);
    case Task(body) =>
      MarksExact(g, d, body, true, esc, p);
      BodyHarmed(g, d, node, false, out, esc, p);
    case Call(_, subject, callee, args) =>
      SubjectExact(g, d, node, out, esc, p);
      ArgsExact(g, d, callee, 0, args, out, esc, p);
      CallHarmed(g, d, node, out, esc, p);
    case Group(parts) =>
      AllExact(g, d, parts, out, esc, p);
      GroupHarmed(g, d, node, out, esc, p);
  }

  lemma {:induction false} SubjectExact(g: Program, d: Decl, node: Node, out: bool, esc: set<nat>, p: nat)
    requires node.Call?
    ensures var marks := if !node.isMethod && !out && Own(d, node.subject) then {} else Marks(g, d, node.subject, out, esc);
            p in marks <==> OwnTracked(g, d, p) && KidHarmed(g, d, node, false, out, esc, p, 0)
    decreases node.subject, 1
  {
    var s := node.subject;
    MarksExact(g, d, s, out, esc, p);
    if Own(d, s) {
      ParamHarmed(g, d, s, true, out, esc, p);
      ParamHarmed(g, d, s, false, out, esc, p);
    }
  }

  ghost predicate ArgHarmed(g: Program, d: Decl, callee: Callee, i: nat, arg: Node, out: bool, esc: set<nat>, p: nat) {
    if Handed(d, arg) then Harmed(g, d, arg, true, out || Unmet(Receiving(g, callee, i), esc), esc, p)
    else Harmed(g, d, arg, false, out, esc, p)
  }

  lemma {:induction false} ArgExact(g: Program, d: Decl, callee: Callee, i: nat, arg: Node, out: bool, esc: set<nat>, p: nat)
    ensures p in MarksArg(g, d, callee, i, arg, out, esc) <==> OwnTracked(g, d, p) && ArgHarmed(g, d, callee, i, arg, out, esc, p)
    decreases arg, 1
  {
    LentMet(g, d, callee, i, arg, out, esc);
    MarksExact(g, d, arg, out, esc, p);
    if Handed(d, arg) {
      var bad := out || Unmet(Receiving(g, callee, i), esc);
      if arg.Closure? {
        BodyHarmed(g, d, arg, true, bad, esc, p);
        MarksExact(g, d, arg.body, bad, esc, p);
        MarksExact(g, d, arg.body, true, esc, p);
      } else {
        ParamHarmed(g, d, arg, true, bad, esc, p);
        ParamHarmed(g, d, arg, false, out, esc, p);
      }
    }
  }

  ghost predicate ArgAt(g: Program, d: Decl, callee: Callee, i: nat, args: Nodes, k: nat, out: bool, esc: set<nat>, p: nat) {
    k < |Items(args)| && ArgHarmed(g, d, callee, i + k, Items(args)[k], out, esc, p)
  }

  lemma {:induction false} ArgsExact(g: Program, d: Decl, callee: Callee, i: nat, args: Nodes, out: bool, esc: set<nat>, p: nat)
    ensures p in MarksArgs(g, d, callee, i, args, out, esc)
       <==> OwnTracked(g, d, p) && exists k: nat :: ArgAt(g, d, callee, i, args, k, out, esc, p)
    decreases args, 0
  {
    if args.Cons? {
      ArgExact(g, d, callee, i, args.head, out, esc, p);
      ArgsExact(g, d, callee, i + 1, args.tail, out, esc, p);
      assert ArgAt(g, d, callee, i, args, 0, out, esc, p) <==> ArgHarmed(g, d, callee, i, args.head, out, esc, p);
      var next := i + 1;
      if k: nat :| ArgAt(g, d, callee, next, args.tail, k, out, esc, p) { assert ArgAt(g, d, callee, i, args, k + 1, out, esc, p); }
      if k: nat :| ArgAt(g, d, callee, i, args, k, out, esc, p) {
        if k > 0 { assert ArgAt(g, d, callee, i + 1, args.tail, k - 1, out, esc, p); }
      }
    }
  }

  /** The occurrences in a call are those in its subject and in its arguments. */
  lemma CallHarmed(g: Program, d: Decl, node: Node, out: bool, esc: set<nat>, p: nat)
    requires node.Call?
    ensures Harmed(g, d, node, false, out, esc, p)
       <==> KidHarmed(g, d, node, false, out, esc, p, 0) || exists k: nat :: ArgAt(g, d, node.callee, 0, node.args, k, out, esc, p)
  {
    HarmedExact(g, d, node, false, out, esc, p);
    if k: nat :| KidHarmed(g, d, node, false, out, esc, p, k) {
      if k > 0 { assert ArgAt(g, d, node.callee, 0, node.args, k - 1, out, esc, p); }
    }
    if k: nat :| ArgAt(g, d, node.callee, 0, node.args, k, out, esc, p) { assert KidHarmed(g, d, node, false, out, esc, p, k + 1); }
  }

  ghost predicate PartAt(g: Program, d: Decl, nodes: Nodes, k: nat, out: bool, esc: set<nat>, p: nat) {
    k < |Items(nodes)| && Harmed(g, d, Items(nodes)[k], false, out, esc, p)
  }

  lemma {:induction false} AllExact(g: Program, d: Decl, nodes: Nodes, out: bool, esc: set<nat>, p: nat)
    ensures p in MarksAll(g, d, nodes, out, esc) <==> OwnTracked(g, d, p) && exists k: nat :: PartAt(g, d, nodes, k, out, esc, p)
    decreases nodes, 0
  {
    if nodes.Cons? {
      MarksExact(g, d, nodes.head, out, esc, p);
      AllExact(g, d, nodes.tail, out, esc, p);
      assert PartAt(g, d, nodes, 0, out, esc, p) <==> Harmed(g, d, nodes.head, false, out, esc, p);
      if k: nat :| PartAt(g, d, nodes.tail, k, out, esc, p) { assert PartAt(g, d, nodes, k + 1, out, esc, p); }
      if k: nat :| PartAt(g, d, nodes, k, out, esc, p) {
        if k > 0 { assert PartAt(g, d, nodes.tail, k - 1, out, esc, p); }
      }
    }
  }

  lemma GroupHarmed(g: Program, d: Decl, node: Node, out: bool, esc: set<nat>, p: nat)
    requires node.Group?
    ensures Harmed(g, d, node, false, out, esc, p) <==> exists k: nat :: PartAt(g, d, node.parts, k, out, esc, p)
  {
    HarmedExact(g, d, node, false, out, esc, p);
    if k: nat :| KidHarmed(g, d, node, false, out, esc, p, k) { assert PartAt(g, d, node.parts, k, out, esc, p); }
    if k: nat :| PartAt(g, d, node.parts, k, out, esc, p) { assert KidHarmed(g, d, node, false, out, esc, p, k); }
  }

  // ---- chains

  /** An occurrence of tracked parameter `p` of declaration `k`. */
  ghost predicate Occurs(g: Program, k: nat, p: nat, path: Path) {
    && k < |g.decls| && OwnTracked(g, g.decls[k], p)
    && NodeAt(g.decls[k].body, path) == Some(Param(p))
  }

  /** Some occurrence of `p` has the condition. */
  ghost predicate Has(g: Program, p: nat, need: Need) {
    exists k: nat, path :: Occurs(g, k, p, path) && need in Needs(g, g.decls[k], g.decls[k].body, path, false)
  }

  lemma EscapingExact(g: Program, esc: set<nat>, p: nat)
    ensures p in Escaping(g, esc) <==> Has(g, p, Never) || exists q :: q in esc && Has(g, p, Unless(q))
  {
    if p in Escaping(g, esc) {
      var k :| 0 <= k < |g.decls| && p in Marks(g, g.decls[k], g.decls[k].body, false, esc);
      var d := g.decls[k];
      MarksExact(g, d, d.body, false, esc, p);
      var path :| Harms(g, d, d.body, false, false, esc, p, path);
      assert Occurs(g, k, p, path);
      if Never !in Needs(g, d, d.body, path, false) {
        var q :| Unless(q) in Needs(g, d, d.body, path, false) && q in esc;
        assert Has(g, p, Unless(q));
      }
    }
    if Has(g, p, Never) { HarmfulEscapes(g, esc, p, Never); }
    if q :| q in esc && Has(g, p, Unless(q)) { HarmfulEscapes(g, esc, p, Unless(q)); }
  }

  lemma HarmfulEscapes(g: Program, esc: set<nat>, p: nat, need: Need)
    requires Has(g, p, need) && (need.Unless? ==> need.q in esc)
    ensures p in Escaping(g, esc)
  {
    var k: nat, path :| Occurs(g, k, p, path) && need in Needs(g, g.decls[k], g.decls[k].body, path, false);
    var d := g.decls[k];
    assert Unmet(Needs(g, d, d.body, path, false), esc);
    assert Harms(g, d, d.body, false, false, esc, p, path);
    MarksExact(g, d, d.body, false, esc, p);
  }

  /** Each parameter is harmless only if the next does not escape, and the last has an occurrence nothing can make
      harmless. */
  ghost predicate Chained(g: Program, p: nat, chain: seq<nat>) {
    && |chain| > 0 && chain[0] == p && Has(g, chain[|chain| - 1], Never)
    && forall i :: 0 <= i < |chain| - 1 ==> Has(g, chain[i], Unless(chain[i + 1]))
  }

  lemma {:induction false} ChainEscapes(g: Program, chain: seq<nat>, p: nat, c: set<nat>)
    requires Chained(g, p, chain) && ClosedUnder(g, c)
    ensures p in c
    decreases |chain|
  {
    EscapingExact(g, c, p);
    if |chain| > 1 {
      var rest := chain[1..];
      forall i | 0 <= i < |rest| - 1
        ensures Has(g, rest[i], Unless(rest[i + 1]))
      {
        assert Has(g, chain[i + 1], Unless(chain[i + 1 + 1]));
      }
      ChainEscapes(g, rest, chain[1], c);
      assert Has(g, chain[0], Unless(chain[0 + 1]));
    }
  }

  ghost function AllChained(g: Program): set<nat> { set p | p in g.tracked && exists chain :: Chained(g, p, chain) }

  lemma ChainedClosed(g: Program)
    ensures ClosedUnder(g, AllChained(g))
  {
    var c := AllChained(g);
    forall p | p in Escaping(g, c)
      ensures p in c
    {
      EscapingExact(g, c, p);
      if Has(g, p, Never) {
        assert Chained(g, p, [p]);
      } else {
        var q :| q in c && Has(g, p, Unless(q));
        var chain :| Chained(g, q, chain);
        var longer := [p] + chain;
        forall i | 0 <= i < |longer| - 1
          ensures Has(g, longer[i], Unless(longer[i + 1]))
        {
          if i > 0 { assert Has(g, chain[i - 1], Unless(chain[i - 1 + 1])); }
        }
        assert Chained(g, p, longer);
      }
    }
  }

  /** A parameter escapes if and only if such a chain starts from it. */
  lemma EscapesExact(g: Program, p: nat)
    ensures p in Least(g) <==> exists chain :: Chained(g, p, chain)
  {
    LeastIsFixpoint(g);
    if chain :| Chained(g, p, chain) {
      ChainEscapes(g, chain, p, Least(g));
    }
    ChainedClosed(g);
  }
}
