/**
 The core of the Iron syntax tree that the flow analyses walk, and its path semantics.

 Conditions are nondeterministic: an `if` may take any branch, a loop may run any number of
 times. A run of a statement is a trace of events together with the way control leaves the
 statement. Lambda and spawn bodies run elsewhere and contribute no events here.
 */
module IronCore {
  /** The node kinds with several operands. Which of them a walker descends into differs from
      analysis to analysis, so the kind is kept on the node. */
  datatype ExprKind =
    | Operator       // arithmetic, unary, method call, construction, array literal, interpolation
    | Place          // field access and indexing; the first part is the object
    | CallExpr       // the first part is the callee
    | Boxed          // rc, heap, is
    | SliceExpr
    | EnumConstruct

  datatype Expr =
    | Leaf                                         // literals and lambdas
    | Ident(name: string, site: nat)
    | Await(handle: Expr, site: nat)
    | Logical(left: Expr, right: Expr)             // and / or: the right side may be skipped
    | Compound(kind: ExprKind, parts: Exprs)       // operands evaluated left to right

  datatype Exprs = ENil | ECons(head: Expr, tail: Exprs)

  /** `var x: T`, `var x: [T; <=N]` (implicitly zeroed), `val/var x = e`. */
  datatype Init = NoInit | Zeroed | Value(e: Expr)

  datatype Stmt =
    | Decl(name: string, init: Init)
    | Spawn(handle: string)
    | Assign(target: Expr, compound: bool, value: Expr)
    | Return(value: Expr)
    | Break
    | Continue
    | ExprStmt(e: Expr)
    | Block(stmts: Stmts)
    | If(cond: Expr, body: Stmts, rest: Arms)      // rest: the elif arms and the else
    | While(cond: Expr, body: Stmts)
    | For(loopVar: string, iterable: Expr, body: Stmts)
    | Match(subject: Expr, cases: Arms)

  datatype Stmts = SNil | SCons(head: Stmt, tail: Stmts)

  /** The elif arms of an `if` (no binders) or the cases of a `match` (condition Leaf, pattern
      binders), ending in the else branch or in its absence. */
  datatype Arms = NoElse | Else(body: Stmts) | Arm(cond: Expr, binds: set<string>, body: Stmts, rest: Arms)

  /** One step of a run that some analysis cares about. */
  datatype Event =
    | Read(name: string, site: nat)
    | Write(name: string)
    | Declare(name: string)            // an uninitialised var comes into scope
    | Bind(names: set<string>)         // initialised bindings come into scope
    | Awaited(name: string, site: nat)
    | Enter
    | Exit

  type Trace = seq<Event>

  datatype Outcome = Normal | Returned | Broke | Continued

  /** `t` is a trace of evaluating `e`. */
  ghost predicate Eval(e: Expr, t: Trace)
    decreases e
  {
    match e
    case Leaf => t == []
    case Ident(x, n) => t == [Read(x, n)]
    case Await(h, n) =>
      exists t0 :: Eval(h, t0) && t == t0 + (if h.Ident? then [Awaited(h.name, n)] else [])
    case Logical(l, r) =>
      Eval(l, t) || exists t0, t1 :: Eval(l, t0) && Eval(r, t1) && t == t0 + t1
    case Compound(_, es) => EvalAll(es, t)
  }

  ghost predicate EvalAll(es: Exprs, t: Trace)
    decreases es
  {
    match es
    case ENil => t == []
    case ECons(e, rest) => exists t0, t1 :: Eval(e, t0) && EvalAll(rest, t1) && t == t0 + t1
  }

  /** `t` is a trace of a complete run of `s`, which leaves `s` by `o`. */
  ghost predicate Exec(s: Stmt, t: Trace, o: Outcome)
    decreases s
  {
    match s
    case Decl(x, NoInit) => o == Normal && t == [Declare(x)]
    case Decl(x, Zeroed) => o == Normal && t == [Bind({x})]
    case Decl(x, Value(e)) => o == Normal && exists t0 :: Eval(e, t0) && t == t0 + [Bind({x})]
    case Spawn(h) => o == Normal && t == [Bind({h})]
    case Assign(target, compound, value) =>
      o == Normal && exists t0, t1 :: Eval(value, t0) && StoreTo(target, compound, t1) && t == t0 + t1
    case Return(e) => o == Returned && Eval(e, t)
    case Break => o == Broke && t == []
    case Continue => o == Continued && t == []
    case ExprStmt(e) => o == Normal && Eval(e, t)
    case Block(ss) => ExecBlock(ss, t, o)
    case If(c, body, rest) =>
      exists t0, t1 :: Eval(c, t0) && t == t0 + t1
                       && (ExecBlock(body, t1, o) || ExecArms(rest, t1, o))
    case While(c, body) => exists n: nat :: ExecWhile(c, body, n, t, o)
    case For(x, e, body) =>
      exists n: nat, t0, t1 :: Eval(e, t0) && ExecFor(x, body, n, t1, o) && t == t0 + t1
    case Match(e, cases) =>
      exists t0, t1 :: Eval(e, t0) && ExecArms(cases, t1, o) && t == t0 + t1
  }

  /** Storing through an assignment target, after the right-hand side was evaluated. */
  ghost predicate StoreTo(target: Expr, compound: bool, t: Trace) {
    if target.Ident? then
      t == (if compound then [Read(target.name, target.site)] else []) + [Write(target.name)]
    else
      Eval(target, t)
  }

  ghost predicate ExecAll(ss: Stmts, t: Trace, o: Outcome)
    decreases ss, 0
  {
    match ss
    case SNil => o == Normal && t == []
    case SCons(s, rest) =>
      || (o != Normal && Exec(s, t, o))
      || exists t0, t1 :: Exec(s, t0, Normal) && ExecAll(rest, t1, o) && t == t0 + t1
  }

  /** A block opens a scope and closes it however it is left. */
  ghost predicate ExecBlock(ss: Stmts, t: Trace, o: Outcome)
    decreases ss, 1
  {
    exists t0 :: ExecAll(ss, t0, o) && t == [Enter] + t0 + [Exit]
  }

  /** A block inside a scope of its own that binds `names`. */
  ghost predicate ExecScoped(names: set<string>, ss: Stmts, t: Trace, o: Outcome)
    decreases ss, 2
  {
    exists t0 :: ExecBlock(ss, t0, o) && t == [Enter, Bind(names)] + t0 + [Exit]
  }

  /** Arms are tried in order; the condition of a skipped arm is still evaluated. */
  ghost predicate ExecArms(arms: Arms, t: Trace, o: Outcome)
    decreases arms
  {
    match arms
    case NoElse => o == Normal && t == []
    case Else(b) => ExecBlock(b, t, o)
    case Arm(c, names, body, rest) =>
      exists t0, t1 :: Eval(c, t0) && t == t0 + t1
                       && (ExecScoped(names, body, t1, o) || ExecArms(rest, t1, o))
  }

  /** A while loop whose body is entered `n` times. */
  ghost predicate ExecWhile(c: Expr, body: Stmts, n: nat, t: Trace, o: Outcome)
    decreases body, 3, n, 1
  {
    exists t0, t1 :: Eval(c, t0) && WhileRest(c, body, n, t1, o) && t == t0 + t1
  }

  /** What follows the condition. */
  ghost predicate WhileRest(c: Expr, body: Stmts, n: nat, t: Trace, o: Outcome)
    decreases body, 3, n, 0
  {
    if n == 0 then o == Normal && t == []
    else exists t0, o0, t1 :: ExecBlock(body, t0, o0) && WhileNext(c, body, n - 1, o0, t1, o) && t == t0 + t1
  }

  /** What follows an iteration that ended by `o0`. */
  ghost predicate WhileNext(c: Expr, body: Stmts, n: nat, o0: Outcome, t: Trace, o: Outcome)
    decreases body, 3, n, 2
  {
    if LoopsOn(o0) then ExecWhile(c, body, n, t, o) else n == 0 && t == [] && o == LoopExit(o0)
  }

  /** A for loop whose body is entered `n` times. */
  ghost predicate ExecFor(x: string, body: Stmts, n: nat, t: Trace, o: Outcome)
    decreases body, 3, n, 0
  {
    if n == 0 then o == Normal && t == []
    else exists t0, o0, t1 :: ExecScoped({x}, body, t0, o0) && ForNext(x, body, n - 1, o0, t1, o) && t == t0 + t1
  }

  ghost predicate ForNext(x: string, body: Stmts, n: nat, o0: Outcome, t: Trace, o: Outcome)
    decreases body, 3, n, 1
  {
    if LoopsOn(o0) then ExecFor(x, body, n, t, o) else n == 0 && t == [] && o == LoopExit(o0)
  }

  predicate LoopsOn(o: Outcome) { o == Normal || o == Continued }

  function LoopExit(o: Outcome): Outcome { if o == Broke then Normal else o }

  // ---------------------------------------------------------------- where control goes

  predicate HasElse(arms: Arms) {
    match arms
    case NoElse => false
    case Else(_) => true
    case Arm(_, _, _, rest) => HasElse(rest)
  }

  /** Control never continues after the statement. */
  predicate Exits(s: Stmt)
    decreases s
  {
    match s
    case Return(_) => true
    case Break => true
    case Continue => true
    case Block(ss) => ExitsAll(ss)
    case If(_, b, rest) => HasElse(rest) && ExitsAll(b) && ExitsArms(rest)
    case Match(_, cases) => HasElse(cases) && ExitsArms(cases)
    case _ => false
  }

  predicate ExitsAll(ss: Stmts)
    decreases ss
  {
    ss.SCons? && (Exits(ss.head) || ExitsAll(ss.tail))
  }

  predicate ExitsArms(arms: Arms)
    decreases arms
  {
    match arms
    case NoElse => false
    case Else(b) => ExitsAll(b)
    case Arm(_, _, b, rest) => ExitsAll(b) && ExitsArms(rest)
  }

  // ---------------------------------------------------------------- the events a statement can produce

  function EventsE(e: Expr): set<Event> {
    match e
    case Leaf => {}
    case Ident(x, n) => {Read(x, n)}
    case Await(h, n) => EventsE(h) + (if h.Ident? then {Awaited(h.name, n)} else {})
    case Logical(l, r) => EventsE(l) + EventsE(r)
    case Compound(_, es) => EventsEs(es)
  }

  function EventsEs(es: Exprs): set<Event> {
    match es
    case ENil => {}
    case ECons(e, rest) => EventsE(e) + EventsEs(rest)
  }

  function Events(s: Stmt): set<Event>
    decreases s
  {
    match s
    case Decl(x, NoInit) => {Declare(x)}
    case Decl(x, Zeroed) => {Bind({x})}
    case Decl(x, Value(e)) => EventsE(e) + {Bind({x})}
    case Spawn(h) => {Bind({h})}
    case Assign(target, compound, value) =>
      EventsE(value) + (if !target.Ident? then EventsE(target)
                        else {Write(target.name)} + if compound then {Read(target.name, target.site)} else {})
    case Return(e) => EventsE(e)
    case Break => {}
    case Continue => {}
    case ExprStmt(e) => EventsE(e)
    case Block(ss) => {Enter, Exit} + EventsAll(ss)
    case If(c, body, rest) => EventsE(c) + {Enter, Exit} + EventsAll(body) + EventsArms(rest)
    case While(c, body) => EventsE(c) + {Enter, Exit} + EventsAll(body)
    case For(x, e, body) => EventsE(e) + {Enter, Exit, Bind({x})} + EventsAll(body)
    case Match(e, cases) => EventsE(e) + EventsArms(cases)
  }

  function EventsAll(ss: Stmts): set<Event>
    decreases ss
  {
    match ss
    case SNil => {}
    case SCons(s, rest) => Events(s) + EventsAll(rest)
  }

  function EventsArms(arms: Arms): set<Event>
    decreases arms
  {
    match arms
    case NoElse => {}
    case Else(b) => {Enter, Exit} + EventsAll(b)
    case Arm(c, names, body, rest) => EventsE(c) + {Enter, Exit, Bind(names)} + EventsAll(body) + EventsArms(rest)
  }

  ghost predicate Within(t: Trace, evs: set<Event>) {
    forall i :: 0 <= i < |t| ==> t[i] in evs
  }

  lemma {:induction false} EvalWithin(e: Expr, t: Trace)
    requires Eval(e, t)
    ensures Within(t, EventsE(e))
    decreases e
  {
    match e
    case Leaf =>
    case Ident(_, _) =>
    case Await(h, n) =>
      var t0 :| Eval(h, t0) && t == t0 + (if h.Ident? then [Awaited(h.name, n)] else []);
      EvalWithin(h, t0);
    case Logical(l, r) =>
      if Eval(l, t) {
        EvalWithin(l, t);
      } else {
        var t0, t1 :| Eval(l, t0) && Eval(r, t1) && t == t0 + t1;
        EvalWithin(l, t0);
        EvalWithin(r, t1);
      }
    case Compound(_, es) => EvalAllWithin(es, t);
  }

  lemma {:induction false} EvalAllWithin(es: Exprs, t: Trace)
    requires EvalAll(es, t)
    ensures Within(t, EventsEs(es))
    decreases es
  {
    match es
    case ENil =>
    case ECons(e, rest) =>
      var t0, t1 :| Eval(e, t0) && EvalAll(rest, t1) && t == t0 + t1;
      EvalWithin(e, t0);
      EvalAllWithin(rest, t1);
  }

  /** Evaluating only reads and awaits. */
  lemma {:induction false} ExprEvents(e: Expr)
    ensures forall ev :: ev in EventsE(e) ==> ev.Read? || ev.Awaited?
    decreases e
  {
    match e
    case Leaf =>
    case Ident(_, _) =>
    case Await(h, _) => ExprEvents(h);
    case Logical(l, r) => ExprEvents(l); ExprEvents(r);
    case Compound(_, es) => ExprsEvents(es);
  }

  lemma {:induction false} ExprsEvents(es: Exprs)
    ensures forall ev :: ev in EventsEs(es) ==> ev.Read? || ev.Awaited?
    decreases es
  {
    if es.ECons? { ExprEvents(es.head); ExprsEvents(es.tail); }
  }

  /** Every event of every run is one the syntax allows. */
  lemma {:induction false} ExecWithin(s: Stmt, t: Trace, o: Outcome)
    requires Exec(s, t, o)
    ensures Within(t, Events(s))
    decreases s
  {
    match s
    case Decl(y, NoInit) =>
    case Decl(y, Zeroed) =>
    case Decl(y, Value(e)) =>
      var t0 :| Eval(e, t0) && t == t0 + [Bind({y})];
      EvalWithin(e, t0);
    case Spawn(_) =>
    case Assign(target, compound, v) =>
      var t0, t1 :| Eval(v, t0) && StoreTo(target, compound, t1) && t == t0 + t1;
      EvalWithin(v, t0);
      if !target.Ident? { EvalWithin(target, t1); }
    case Return(e) => EvalWithin(e, t);
    case Break =>
    case Continue =>
    case ExprStmt(e) => EvalWithin(e, t);
    case Block(ss) => ExecBlockWithin(ss, t, o);
    case If(c, body, rest) =>
      var t0, t1 :| Eval(c, t0) && t == t0 + t1 && (ExecBlock(body, t1, o) || ExecArms(rest, t1, o));
      EvalWithin(c, t0);
      if ExecBlock(body, t1, o) { ExecBlockWithin(body, t1, o); } else { ExecArmsWithin(rest, t1, o); }
    case While(c, body) =>
      var n: nat :| ExecWhile(c, body, n, t, o);
      ExecWhileWithin(c, body, n, t, o);
    case For(x, e, body) =>
      var n: nat, t0, t1 :| Eval(e, t0) && ExecFor(x, body, n, t1, o) && t == t0 + t1;
      EvalWithin(e, t0);
      ExecForWithin(x, body, n, t1, o);
    case Match(e, cases) =>
      var t0, t1 :| Eval(e, t0) && ExecArms(cases, t1, o) && t == t0 + t1;
      EvalWithin(e, t0);
      ExecArmsWithin(cases, t1, o);
  }

  lemma {:induction false} ExecAllWithin(ss: Stmts, t: Trace, o: Outcome)
    requires ExecAll(ss, t, o)
    ensures Within(t, EventsAll(ss))
    decreases ss, 0
  {
    match ss
    case SNil =>
    case SCons(s, rest) =>
      if o != Normal && Exec(s, t, o) {
        ExecWithin(s, t, o);
      } else {
        var t0, t1 :| Exec(s, t0, Normal) && ExecAll(rest, t1, o) && t == t0 + t1;
        ExecWithin(s, t0, Normal);
        ExecAllWithin(rest, t1, o);
      }
  }

  lemma {:induction false} ExecBlockWithin(ss: Stmts, t: Trace, o: Outcome)
    requires ExecBlock(ss, t, o)
    ensures Within(t, {Enter, Exit} + EventsAll(ss))
    decreases ss, 1
  {
    var t0 :| ExecAll(ss, t0, o) && t == [Enter] + t0 + [Exit];
    ExecAllWithin(ss, t0, o);
  }

  lemma {:induction false} ExecScopedWithin(names: set<string>, ss: Stmts, t: Trace, o: Outcome)
    requires ExecScoped(names, ss, t, o)
    ensures Within(t, {Enter, Exit, Bind(names)} + EventsAll(ss))
    decreases ss, 2
  {
    var t0 :| ExecBlock(ss, t0, o) && t == [Enter, Bind(names)] + t0 + [Exit];
    ExecBlockWithin(ss, t0, o);
  }

  lemma {:induction false} ExecArmsWithin(arms: Arms, t: Trace, o: Outcome)
    requires ExecArms(arms, t, o)
    ensures Within(t, EventsArms(arms))
    decreases arms
  {
    match arms
    case NoElse =>
    case Else(b) => ExecBlockWithin(b, t, o);
    case Arm(c, names, body, rest) =>
      var t0, t1 :| Eval(c, t0) && t == t0 + t1 && (ExecScoped(names, body, t1, o) || ExecArms(rest, t1, o));
      EvalWithin(c, t0);
      if ExecScoped(names, body, t1, o) { ExecScopedWithin(names, body, t1, o); } else { ExecArmsWithin(rest, t1, o); }
  }

  lemma {:induction false} ExecWhileWithin(c: Expr, body: Stmts, n: nat, t: Trace, o: Outcome)
    requires ExecWhile(c, body, n, t, o)
    ensures Within(t, EventsE(c) + {Enter, Exit} + EventsAll(body))
    decreases body, 3, n, 1
  {
    var t0, t1 :| Eval(c, t0) && WhileRest(c, body, n, t1, o) && t == t0 + t1;
    EvalWithin(c, t0);
    WhileRestWithin(c, body, n, t1, o);
  }

  lemma {:induction false} WhileRestWithin(c: Expr, body: Stmts, n: nat, t: Trace, o: Outcome)
    requires WhileRest(c, body, n, t, o)
    ensures Within(t, EventsE(c) + {Enter, Exit} + EventsAll(body))
    decreases body, 3, n, 0
  {
    if n > 0 {
      var t0, o0, t1 :| ExecBlock(body, t0, o0) && WhileNext(c, body, n - 1, o0, t1, o) && t == t0 + t1;
      ExecBlockWithin(body, t0, o0);
      if LoopsOn(o0) { ExecWhileWithin(c, body, n - 1, t1, o); }
    }
  }

  lemma {:induction false} ExecForWithin(x: string, body: Stmts, n: nat, t: Trace, o: Outcome)
    requires ExecFor(x, body, n, t, o)
    ensures Within(t, {Enter, Exit, Bind({x})} + EventsAll(body))
    decreases body, 3, n
  {
    if n > 0 {
      var t0, o0, t1 :| ExecScoped({x}, body, t0, o0) && ForNext(x, body, n - 1, o0, t1, o) && t == t0 + t1;
      ExecScopedWithin({x}, body, t0, o0);
      if LoopsOn(o0) { ExecForWithin(x, body, n - 1, t1, o); }
    }
  }
}
