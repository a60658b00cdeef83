/**
 Which function-typed parameters escape (src/analyzer/capture.c): an in-place fixpoint over all bodies,
 in which the verdict on one closure argument changes how its body is walked.
 */
module ParamEscape {
  import opened Sizes

  /** What the callee of a call does with an argument: nothing is known or it stores it, it is a list
      method that only calls it, or it has a body whose parameters decide (a receiver-form method's
      parameters are shifted by one). */
  datatype Callee = Keeps | OnlyCalls | Body(params: seq<nat>, shift: nat)

  /** The nodes of a body. Parameters are numbered program-wide. */
  datatype Node =
    | Param(p: nat)
    | Closure(body: Node)
    | Task(body: Node)
    | Call(isMethod: bool, subject: Node, callee: Callee, args: Nodes)
    | Group(parts: Nodes)

  datatype Nodes = Nil | Cons(head: Node, tail: Nodes)

  /** A function or method; a parameter is tracked when its type may be a function. */
  datatype Decl = Decl(params: seq<nat>, body: Node)

  datatype Program = Program(tracked: set<nat>, decls: seq<Decl>)

  predicate Own(d: Decl, node: Node) { node.Param? && node.p in d.params }

  /** lambda_arg_verdict is "borrows": the parameter is tracked and does not escape. */
  predicate Borrows(g: Program, callee: Callee, i: nat, esc: set<nat>) {
    match callee
    case Keeps => false
    case OnlyCalls => true
    case Body(params, shift) => i + shift < |params| && params[i + shift] in g.tracked && params[i + shift] !in esc
  }

  /** An argument that is a parameter or a closure handed to something that only borrows it. */
  predicate Lent(g: Program, d: Decl, callee: Callee, i: nat, arg: Node, outlives: bool, esc: set<nat>) {
    !outlives && (Own(d, arg) || arg.Closure?) && Borrows(g, callee, i, esc)
  }

  /** The parameters of `d` that `node` lets escape, if those in `esc` escape; `outlives` inside a
      closure or task that may outlive the call. */
  ghost function Marks(g: Program, d: Decl, node: Node, outlives: bool, esc: set<nat>): set<nat>
    decreases node, 0
  {
    match node
    case Param(p) => if Own(d, node) && p in g.tracked then {p} else {}
    case Closure(body) => Marks(g, d, body, true, esc)
    case Task(body) => Marks(g, d, body, true, esc)
    case Call(isMethod, subject, callee, args) =>
      (if !isMethod && !outlives && Own(d, subject) then {} else Marks(g, d, subject, outlives, esc))
      + MarksArgs(g, d, callee, 0, args, outlives, esc)
    case Group(parts) => MarksAll(g, d, parts, outlives, esc)
  }

  ghost function MarksAll(g: Program, d: Decl, nodes: Nodes, outlives: bool, esc: set<nat>): set<nat>
    decreases nodes, 0
  {
    if nodes.Nil? then {} else Marks(g, d, nodes.head, outlives, esc) + MarksAll(g, d, nodes.tail, outlives, esc)
  }

  ghost function MarksArgs(g: Program, d: Decl, callee: Callee, i: nat, args: Nodes, outlives: bool, esc: set<nat>): set<nat>
    decreases args, 0
  {
    if args.Nil? then {} else MarksArg(g, d, callee, i, args.head, outlives, esc) + MarksArgs(g, d, callee, i + 1, args.tail, outlives, esc)
  }

  ghost function MarksArg(g: Program, d: Decl, callee: Callee, i: nat, arg: Node, outlives: bool, esc: set<nat>): set<nat>
    decreases arg, 1
  {
    if Lent(g, d, callee, i, arg, outlives, esc) then
      if arg.Closure? then Marks(g, d, arg.body, outlives, esc) else {}
    else Marks(g, d, arg, outlives, esc)
  }

  /** The operator whose least fixpoint is wanted: all that escapes if those in `esc` escape. */
  ghost function Escaping(g: Program, esc: set<nat>): set<nat> {
    set k, p | 0 <= k < |g.decls| && p in Marks(g, g.decls[k], g.decls[k].body, false, esc) :: p
  }

  // ---- monotonicity

  lemma {:induction false} MarksMono(g: Program, d: Decl, node: Node, out: bool, esc: set<nat>, out': bool, esc': set<nat>)
    requires (out ==> out') && esc <= esc'
    ensures Marks(g, d, node, out, esc) <= Marks(g, d, node, out', esc')
    decreases node, 0
  {
    match node
    case Param(_) =>
    case Closure(body) => MarksMono(g, d, body, true, esc, true, esc');
    case Task(body) => MarksMono(g, d, body, true, esc, true, esc');
    case Call(_, subject, callee, args) =>
      MarksMono(g, d, subject, out, esc, out', esc');
      ArgsMono(g, d, callee, 0, args, out, esc, out', esc');
    case Group(parts) => AllMono(g, d, parts, out, esc, out', esc');
  }

  lemma {:induction false} AllMono(g: Program, d: Decl, nodes: Nodes, out: bool, esc: set<nat>, out': bool, esc': set<nat>)
    requires (out ==> out') && esc <= esc'
    ensures MarksAll(g, d, nodes, out, esc) <= MarksAll(g, d, nodes, out', esc')
    decreases nodes, 0
  {
    if nodes.Cons? {
      MarksMono(g, d, nodes.head, out, esc, out', esc');
      AllMono(g, d, nodes.tail, out, esc, out', esc');
    }
  }

  lemma {:induction false} ArgsMono(g: Program, d: Decl, callee: Callee, i: nat, args: Nodes, out: bool, esc: set<nat>, out': bool, esc': set<nat>)
    requires (out ==> out') && esc <= esc'
    ensures MarksArgs(g, d, callee, i, args, out, esc) <= MarksArgs(g, d, callee, i, args, out', esc')
    decreases args, 0
  {
    if args.Cons? {
      ArgMono(g, d, callee, i, args.head, out, esc, out', esc');
      ArgsMono(g, d, callee, i + 1, args.tail, out, esc, out', esc');
    }
  }

  /** A closure no longer lent is walked as one that outlives the call, which marks no less. */
  lemma {:induction false} ArgMono(g: Program, d: Decl, callee: Callee, i: nat, arg: Node, out: bool, esc: set<nat>, out': bool, esc': set<nat>)
    requires (out ==> out') && esc <= esc'
    ensures MarksArg(g, d, callee, i, arg, out, esc) <= MarksArg(g, d, callee, i, arg, out', esc')
    decreases arg, 1
  {
    MarksMono(g, d, arg, out, esc, out', esc');
    if arg.Closure? {
      MarksMono(g, d, arg.body, out, esc, true, esc');
      MarksMono(g, d, arg.body, out, esc, out', esc');
    }
  }

  lemma EscapingMono(g: Program, esc: set<nat>, esc': set<nat>)
    requires esc <= esc'
    ensures Escaping(g, esc) <= Escaping(g, esc')
  {
    forall k | 0 <= k < |g.decls|
      ensures Marks(g, g.decls[k], g.decls[k].body, false, esc) <= Marks(g, g.decls[k], g.decls[k].body, false, esc')
    {
      MarksMono(g, g.decls[k], g.decls[k].body, false, esc, false, esc');
    }
  }

  function Tracked(g: Program, d: Decl): set<nat> { set p | p in g.tracked && p in d.params }

  lemma {:induction false} MarksTracked(g: Program, d: Decl, node: Node, out: bool, esc: set<nat>)
    ensures Marks(g, d, node, out, esc) <= Tracked(g, d)
    decreases node, 0
  {
    match node
    case Param(_) =>
    case Closure(body) => MarksTracked(g, d, body, true, esc);
    case Task(body) => MarksTracked(g, d, body, true, esc);
    case Call(_, subject, callee, args) =>
      MarksTracked(g, d, subject, out, esc);
      ArgsTracked(g, d, callee, 0, args, out, esc);
    case Group(parts) => AllTracked(g, d, parts, out, esc);
  }

  lemma {:induction false} AllTracked(g: Program, d: Decl, nodes: Nodes, out: bool, esc: set<nat>)
    ensures MarksAll(g, d, nodes, out, esc) <= Tracked(g, d)
    decreases nodes, 0
  {
    if nodes.Cons? {
      MarksTracked(g, d, nodes.head, out, esc);
      AllTracked(g, d, nodes.tail, out, esc);
    }
  }

  lemma {:induction false} ArgsTracked(g: Program, d: Decl, callee: Callee, i: nat, args: Nodes, out: bool, esc: set<nat>)
    ensures MarksArgs(g, d, callee, i, args, out, esc) <= Tracked(g, d)
    decreases args, 0
  {
    if args.Cons? {
      MarksTracked(g, d, args.head, out, esc);
      if args.head.Closure? { MarksTracked(g, d, args.head.body, out, esc); }
      ArgsTracked(g, d, callee, i + 1, args.tail, out, esc);
    }
  }

  // ---- the least fixpoint

  ghost predicate ClosedUnder(g: Program, c: set<nat>) { Escaping(g, c) <= c }

  /** In every closed set: the least of them. */
  ghost function Least(g: Program): set<nat> {
    set p | p in g.tracked && forall c: set<nat> :: ClosedUnder(g, c) ==> p in c
  }

  /** The least fixpoint of the operator. */
  lemma LeastIsFixpoint(g: Program)
    ensures Escaping(g, Least(g)) == Least(g)
    ensures forall c: set<nat> :: ClosedUnder(g, c) ==> Least(g) <= c
  {
    var l := Least(g);
    forall p | p in Escaping(g, l)
      ensures p in l
    {
      var k :| 0 <= k < |g.decls| && p in Marks(g, g.decls[k], g.decls[k].body, false, l);
      MarksTracked(g, g.decls[k], g.decls[k].body, false, l);
      forall c: set<nat> | ClosedUnder(g, c)
        ensures p in c
      {
        EscapingMono(g, l, c);
      }
    }
    EscapingMono(g, Escaping(g, l), l);
    assert ClosedUnder(g, Escaping(g, l));
  }

  // ---- the walk as a function

  /** What escapes after walking a node: marks made on the way count at once. */
  ghost function Walk(g: Program, d: Decl, node: Node, outlives: bool, esc: set<nat>): set<nat>
    decreases node, 0
  {
    match node
    case Param(p) => if Own(d, node) && p in g.tracked then esc + {p} else esc
    case Closure(body) => Walk(g, d, body, true, esc)
    case Task(body) => Walk(g, d, body, true, esc)
    case Call(isMethod, subject, callee, args) =>
      WalkArgs(g, d, callee, 0, args, outlives, if !isMethod && !outlives && Own(d, subject) then esc else Walk(g, d, subject, outlives, esc))
    case Group(parts) => WalkAll(g, d, parts, outlives, esc)
  }

  ghost function WalkAll(g: Program, d: Decl, nodes: Nodes, outlives: bool, esc: set<nat>): set<nat>
    decreases nodes, 0
  {
    if nodes.Nil? then esc else WalkAll(g, d, nodes.tail, outlives, Walk(g, d, nodes.head, outlives, esc))
  }

  ghost function WalkArgs(g: Program, d: Decl, callee: Callee, i: nat, args: Nodes, outlives: bool, esc: set<nat>): set<nat>
    decreases args, 0
  {
    if args.Nil? then esc else WalkArgs(g, d, callee, i + 1, args.tail, outlives, WalkArg(g, d, callee, i, args.head, outlives, esc))
  }

  ghost function WalkArg(g: Program, d: Decl, callee: Callee, i: nat, arg: Node, outlives: bool, esc: set<nat>): set<nat>
    decreases arg, 1
  {
    if Lent(g, d, callee, i, arg, outlives, esc) then
      if arg.Closure? then Walk(g, d, arg.body, outlives, esc) else esc
    else Walk(g, d, arg, outlives, esc)
  }

  /** The walk of the first `k` declarations, in their order. */
  ghost function WalkDecls(g: Program, k: nat, esc: set<nat>): set<nat>
    requires k <= |g.decls|
  {
    if k == 0 then esc
    else
      var before := WalkDecls(g, k - 1, esc);
      var d := g.decls[k - 1];
      if Tracked(g, d) == {} then before else Walk(g, d, d.body, false, before)
  }

  /** What escapes after `n` rounds over all declarations. */
  ghost function Rounds(g: Program, n: nat): set<nat> {
    if n == 0 then {} else WalkDecls(g, |g.decls|, Rounds(g, n - 1))
  }

  lemma {:induction false} StableRounds(g: Program, n: nat, m: nat)
    requires n < m && Rounds(g, n + 1) == Rounds(g, n)
    ensures Rounds(g, m) == Rounds(g, n)
    decreases m
  {
    if m > n + 1 { StableRounds(g, n, m - 1); }
  }

  // ---- the walk

  /** EscWalk over one declaration; `escaped` is the map shared by all. */
  class EscapeWalk {
    const g: Program
    var escaped: set<nat>
    var d: Decl
    var outliving: nat
    var changed: bool

    /** Nothing is marked outside `bound`. */
    ghost predicate Valid(bound: set<nat>)
      reads this
    {
      escaped <= bound
    }

    constructor (g: Program)
      ensures this.g == g && escaped == {} && outliving == 0 && !changed
    {
      this.g := g;
      escaped, outliving, changed := {}, 0, false;
      d := Decl([], Group(Nil));
    }

    ghost predicate Outlives()
      reads this
    {
      outliving > 0
    }

    /** What a walk does: it marks at least what its start calls for, stays in the bound, and notes
        whether anything was new. */
    twostate predicate Walked(bound: set<nat>, marks: set<nat>)
      reads this
    {
      && Valid(bound) && old(escaped) + marks <= escaped && outliving == old(outliving) && d == old(d)
      && (changed <==> old(changed) || escaped != old(escaped))
    }

    /** esc_mark */
    method Mark(p: nat, ghost bound: set<nat>)
      requires Valid(bound) && (p in g.tracked ==> p in bound)
      modifies this
      ensures Walked(bound, if p in g.tracked then {p} else {})
      ensures escaped == if p in g.tracked then old(escaped) + {p} else old(escaped)
    {
      if p in g.tracked && p !in escaped {
        escaped := escaped + {p};
        changed := true;
      }
    }

    /** esc_visit and esc_post */
    method Visit(node: Node, ghost bound: set<nat>)
      requires Valid(bound) && Marks(g, d, node, Outlives(), bound) <= bound
      modifies this
      ensures Walked(bound, Marks(g, d, node, old(Outlives()), old(escaped)))
      ensures escaped == Walk(g, d, node, old(Outlives()), old(escaped))
      decreases node, 1
    {
      match node
      case Param(p) =>
        if p in d.params { Mark(p, bound); }
      case Closure(body) =>
        outliving := outliving + 1;
        Visit(body, bound);
        outliving := outliving - 1;
      case Task(body) =>
        outliving := outliving + 1;
        Visit(body, bound);
        outliving := outliving - 1;
      case Call(isMethod, subject, callee, args) =>
        if isMethod || outliving > 0 || !(subject.Param? && subject.p in d.params) { Visit(subject, bound); }
        ArgsMono(g, d, callee, 0, args, old(Outlives()), old(escaped), old(Outlives()), escaped);
        VisitArgs(callee, 0, args, bound);
      case Group(parts) => VisitAll(parts, bound);
    }

    method VisitAll(nodes: Nodes, ghost bound: set<nat>)
      requires Valid(bound) && MarksAll(g, d, nodes, Outlives(), bound) <= bound
      modifies this
      ensures Walked(bound, MarksAll(g, d, nodes, old(Outlives()), old(escaped)))
      ensures escaped == WalkAll(g, d, nodes, old(Outlives()), old(escaped))
      decreases nodes, 0
    {
      match nodes
      case Nil =>
      case Cons(head, tail) =>
        Visit(head, bound);
        AllMono(g, d, tail, old(Outlives()), old(escaped), old(Outlives()), escaped);
        VisitAll(tail, bound);
    }

    method VisitArgs(callee: Callee, i: nat, args: Nodes, ghost bound: set<nat>)
      requires Valid(bound) && MarksArgs(g, d, callee, i, args, Outlives(), bound) <= bound
      modifies this
      ensures Walked(bound, MarksArgs(g, d, callee, i, args, old(Outlives()), old(escaped)))
      ensures escaped == WalkArgs(g, d, callee, i, args, old(Outlives()), old(escaped))
      decreases args, 0
    {
      match args
      case Nil =>
      case Cons(head, tail) =>
        VisitArg(callee, i, head, bound);
        ArgsMono(g, d, callee, i + 1, tail, old(Outlives()), old(escaped), old(Outlives()), escaped);
        VisitArgs(callee, i + 1, tail, bound);
    }

    method VisitArg(callee: Callee, i: nat, arg: Node, ghost bound: set<nat>)
      requires Valid(bound) && MarksArg(g, d, callee, i, arg, Outlives(), bound) <= bound
      modifies this
      ensures Walked(bound, MarksArg(g, d, callee, i, arg, old(Outlives()), old(escaped)))
      ensures escaped == WalkArg(g, d, callee, i, arg, old(Outlives()), old(escaped))
      decreases arg, 2
    {
      ArgMono(g, d, callee, i, arg, Outlives(), escaped, Outlives(), bound);
      if Lent(g, d, callee, i, arg, outliving > 0, escaped) {
        if arg.Closure? {
          if !Lent(g, d, callee, i, arg, false, bound) { MarksMono(g, d, arg.body, false, bound, true, bound); }
          Visit(arg.body, bound);
        }
        return;
      }
      Visit(arg, bound);
    }

    /** One round over every declaration. */
    method Round(ghost bound: set<nat>)
      requires Valid(bound) && ClosedUnder(g, bound) && outliving == 0
      modifies this
      ensures Valid(bound) && outliving == 0 && old(escaped) <= escaped
      ensures escaped == WalkDecls(g, |g.decls|, old(escaped))
      ensures changed <==> escaped != old(escaped)
      ensures !changed ==> ClosedUnder(g, escaped)
    {
      changed := false;
      for k := 0 to |g.decls|
        invariant Valid(bound) && outliving == 0 && old(escaped) <= escaped
        invariant escaped == WalkDecls(g, k, old(escaped))
        invariant changed <==> escaped != old(escaped)
        invariant !changed ==> forall m :: 0 <= m < k ==> Marks(g, g.decls[m], g.decls[m].body, false, escaped) <= escaped
      {
        d := g.decls[k];
        assert Marks(g, d, d.body, false, bound) <= Escaping(g, bound);
        MarksTracked(g, d, d.body, false, escaped);
        if Tracked(g, d) != {} { Visit(d.body, bound); }
      }
    }
  }

  const MAX_ROUNDS := 64

  /** compute_param_escapes: at most 64 rounds. Nothing but the least fixpoint is ever marked, and with
      at most 64 tracked parameters all of it is, whatever the order of the declarations. */
  method ComputeParamEscapes(g: Program) returns (escaped: set<nat>, rounds: nat)
    ensures escaped == Rounds(g, 64)
    ensures escaped <= Least(g) && rounds <= 64
    ensures |g.tracked| <= 64 ==> escaped == Least(g)
    ensures rounds <= |g.tracked| + 1
    ensures rounds < 64 ==> escaped == Least(g)
  {
    LeastIsFixpoint(g);
    ghost var least := Least(g);
    var walk := new EscapeWalk(g);
    rounds := 0;
    var stable := false;
    while rounds < MAX_ROUNDS && !stable
      invariant walk.g == g && walk.Valid(least) && walk.outliving == 0 && rounds <= MAX_ROUNDS
      invariant walk.escaped == Rounds(g, rounds)
      invariant if stable then 0 < rounds && ClosedUnder(g, walk.escaped) && rounds <= |walk.escaped| + 1 && walk.escaped == Rounds(g, rounds - 1)
                else rounds <= |walk.escaped|
      decreases MAX_ROUNDS - rounds
    {
      ghost var before := walk.escaped;
      walk.Round(least);
      rounds := rounds + 1;
      stable := !walk.changed;
      if walk.changed { Larger(before, walk.escaped); }
    }
    escaped := walk.escaped;
    AtMost(escaped, g.tracked);
    if !stable && |g.tracked| <= MAX_ROUNDS { Grown(escaped, g.tracked); }
    if stable { StableRounds(g, rounds - 1, MAX_ROUNDS); }
  }

  lemma Grown(a: set<nat>, b: set<nat>)
    requires a <= b && |a| >= |b|
    ensures a == b
  {
    if a != b { Larger(a, b); }
  }

  // ---- the limit of 64 rounds

  /** f_i hands its parameter to the next function of a chain of `n`; the last one stores it. */
  function Link(i: nat, n: nat): Decl {
    Decl([i], if i + 1 < n then Call(false, Group(Nil), Body([i + 1], 0), Cons(Param(i), Nil)) else Param(i))
  }

  function Numbers(n: nat): (r: set<nat>)
    ensures |r| == n && forall i :: i in r <==> 0 <= i < n
  {
    if n == 0 then {} else Numbers(n - 1) + {n - 1}
  }

  /** The chain, declared from its first function to its last. */
  function Chain(n: nat): (g: Program)
    ensures IsChain(g, n) && |g.tracked| == n
  {
    Program(Numbers(n), seq(n, i requires 0 <= i < n => Link(i, n)))
  }

  ghost predicate IsChain(g: Program, n: nat) {
    |g.decls| == n && (forall i :: 0 <= i < n ==> g.decls[i] == Link(i, n)) && (forall i :: i in g.tracked <==> 0 <= i < n)
  }

  /** Exactly the last `m` parameters of the chain. */
  ghost predicate Last(c: set<nat>, n: nat, m: nat) { forall i :: i in c <==> 0 <= n - m <= i < n }

  lemma LinkWalk(g: Program, n: nat, i: nat, esc: set<nat>)
    requires i < n && i in g.tracked && (i + 1 < n ==> i + 1 in g.tracked)
    ensures i in Tracked(g, Link(i, n))
    ensures Walk(g, Link(i, n), Link(i, n).body, false, esc) == if i + 1 == n || i + 1 in esc then esc + {i} else esc
    ensures i + 1 == n || i + 1 in esc ==> i in Marks(g, Link(i, n), Link(i, n).body, false, esc)
  {
    var d := Link(i, n);
    if i + 1 < n {
      var callee := Body([i + 1], 0);
      var args := Cons(Param(i), Nil);
      assert WalkAll(g, d, Nil, false, esc) == esc && Walk(g, d, Group(Nil), false, esc) == esc;
      assert Lent(g, d, callee, 0, Param(i), false, esc) <==> i + 1 !in esc;
      assert Walk(g, d, Param(i), false, esc) == esc + {i} && Marks(g, d, Param(i), false, esc) == {i};
      assert WalkArgs(g, d, callee, 0, args, false, esc) == WalkArg(g, d, callee, 0, Param(i), false, esc) by {
        assert WalkArgs(g, d, callee, 1, Nil, false, WalkArg(g, d, callee, 0, Param(i), false, esc))
            == WalkArg(g, d, callee, 0, Param(i), false, esc);
      }
      assert i + 1 in esc ==> i in MarksArgs(g, d, callee, 0, args, false, esc);
    }
  }

  /** A round finds the one parameter before those known. */
  lemma {:induction false} ChainRound(g: Program, n: nat, m: nat, k: nat, esc: set<nat>)
    requires IsChain(g, n) && k <= n && m < n && Last(esc, n, m)
    ensures Last(WalkDecls(g, k, esc), n, if k + m < n then m else m + 1)
    decreases k
  {
    if k > 0 {
      ChainRound(g, n, m, k - 1, esc);
      LinkWalk(g, n, k - 1, WalkDecls(g, k - 1, esc));
    }
  }

  lemma {:induction false} ChainRounds(g: Program, n: nat, m: nat)
    requires IsChain(g, n) && m <= n
    ensures Last(Rounds(g, m), n, m)
    decreases m
  {
    if m > 0 {
      ChainRounds(g, n, m - 1);
      ChainRound(g, n, m - 1, n, Rounds(g, m - 1));
    }
  }

  lemma {:induction false} ChainEscapes(g: Program, n: nat, i: nat, c: set<nat>)
    requires IsChain(g, n) && i < n && ClosedUnder(g, c)
    ensures i in c
    decreases n - i
  {
    if i + 1 < n { ChainEscapes(g, n, i + 1, c); }
    LinkWalk(g, n, i, c);
    assert g.decls[i] == Link(i, n);
    assert i in Escaping(g, c);
  }

  /** With 65 tracked parameters, or any greater number, 64 rounds can be too few: every parameter of the chain
      escapes, and the first is not found. */
  lemma RoundsFallShort(n: nat)
    requires n > 64
    ensures var g := Chain(n); |g.tracked| == n && Least(g) == g.tracked && 0 in g.tracked && 0 !in Rounds(g, 64)
  {
    ShortOn(Chain(n), n, 64);
  }

  lemma ShortOn(g: Program, n: nat, rounds: nat)
    requires IsChain(g, n) && rounds < n
    ensures Least(g) == g.tracked && 0 in g.tracked && 0 !in Rounds(g, rounds)
  {
    ChainRounds(g, n, rounds);
    forall i, c: set<nat> | i in g.tracked && ClosedUnder(g, c)
      ensures i in c
    {
      ChainEscapes(g, n, i, c);
    }
  }
}
