/**
 Definite assignment (src/analyzer/init_check.c): the walk over a mutable array of "definitely
 assigned" flags with snapshots merged at branches. This module holds the walk as a function on
 states, the run-time meaning of a read before assignment, and the conditions on programs the
 theorems speak about.
 */
module InitCheck {
  import opened IronCore
  import opened Options

  const MAX_UNINIT_VARS := 256

  /** An E0314 report: the identifier node that may be read too early. */
  datatype Report = Report(name: string, site: nat)

  /** The state of the walk: how many uninitialised vars were registered, their names, those
      definitely assigned here, and the flags and reports of the context. */
  datatype State = State(count: nat, tracked: set<string>, done: set<string>, hasReturn: bool, capNoted: bool,
                         reports: set<Report>)

  /** The state a function body is walked from. */
  function Start(): State { State(0, {}, {}, false, false, {}) }

  /** `x` is tracked and not definitely assigned. */
  predicate Unset(tracked: set<string>, done: set<string>, x: string) {
    x in tracked && x !in done
  }

  /** The reads check_expr_uses reports in a state: it does not look inside an enum construction. */
  function UseReports(e: Expr, tracked: set<string>, done: set<string>): (r: set<Report>) {
    match e
    case Leaf => {}
    case Ident(x, n) => if Unset(tracked, done, x) then {Report(x, n)} else {}
    case Await(h, _) => UseReports(h, tracked, done)
    case Logical(l, r) => UseReports(l, tracked, done) + UseReports(r, tracked, done)
    case Compound(k, es) => if k == EnumConstruct then {} else UseReportsAll(es, tracked, done)
  }

  function UseReportsAll(es: Exprs, tracked: set<string>, done: set<string>): (r: set<Report>) {
    match es
    case ENil => {}
    case ECons(e, rest) => UseReports(e, tracked, done) + UseReportsAll(rest, tracked, done)
  }

  function Use(e: Expr, st: State): State {
    st.(reports := st.reports + UseReports(e, st.tracked, st.done))
  }

  /** A second var of the same name takes a slot, but lookups keep finding the first one. */
  function Register(x: string, st: State): State {
    if st.count < MAX_UNINIT_VARS then
      st.(count := st.count + 1, tracked := st.tracked + {x}, done := if x in st.tracked then st.done else st.done - {x})
    else
      st.(capNoted := true)
  }

  function Mark(x: string, st: State): State {
    if x in st.tracked then st.(done := st.done + {x}) else st
  }

  /** Walking branch after branch: the state so far and the flags in all branches that did
      not return (None while every branch returned). */
  datatype Merge = Merge(st: State, common: Option<set<string>>)

  /** What a walk keeps of the state it started from. */
  ghost predicate Extends(st: State, st': State) {
    && st.tracked <= st'.tracked
    && st.reports <= st'.reports
    && (st.capNoted ==> st'.capNoted)
  }

  /** Flags of names tracked already are never taken back by what runs after. */
  ghost predicate Grows(st: State, st': State) {
    st.tracked * st.done <= st'.done
  }

  function WalkStmt(s: Stmt, st: State): (r: State)
    ensures Extends(st, r) && Grows(st, r)
    decreases s
  {
    match s
    case Decl(x, NoInit) => Register(x, st)
    case Decl(_, Zeroed) => st
    case Decl(_, Value(e)) => Use(e, st)
    case Spawn(_) => st
    case Assign(target, _, value) =>
      var st1 := Use(value, st);
      if target.Ident? then Mark(target.name, st1) else st1
    case Return(e) => Use(e, st).(hasReturn := true)
    case Break => st.(hasReturn := true)
    case Continue => st.(hasReturn := true)
    case ExprStmt(e) => Use(e, st)
    case Block(ss) => WalkAll(ss, st)
    case If(c, body, rest) =>
      var st1 := Use(c, st);
      if HasElse(rest) then
        Finish(st1.done, WalkArms(rest, st1.done, WalkBranch(Leaf, body, st1.done, Merge(st1, None))))
      else
        WalkAside(body, st1)
    case While(c, body) => WalkAside(body, Use(c, st))
    case For(_, e, body) => WalkAside(body, Use(e, st))
    case Match(e, cases) =>
      var st1 := Use(e, st);
      if HasElse(cases) && cases.Arm? then
        Finish(st1.done, WalkArms(cases, st1.done, Merge(st1, None)))
      else
        WalkLoose(cases, st1.done, st1)
  }

  function WalkAll(ss: Stmts, st: State): (r: State)
    ensures Extends(st, r) && Grows(st, r)
    decreases ss, 0
  {
    match ss
    case SNil => st
    case SCons(s, rest) => WalkAll(rest, WalkStmt(s, st))
  }

  /** A body that may not run: its assignments are forgotten. */
  function WalkAside(ss: Stmts, st: State): (r: State)
    ensures Extends(st, r)
    decreases ss, 1
  {
    WalkAll(ss, st.(hasReturn := false)).(done := st.done, hasReturn := false)
  }

  /** A name some earlier branch left unset stays unset in the merge. */
  ghost predicate Narrows(a: Option<set<string>>, b: Option<set<string>>) {
    a.Some? ==> b.Some? && b.value <= a.value
  }

  function WalkBranch(c: Expr, body: Stmts, before: set<string>, m: Merge): (r: Merge)
    ensures Extends(m.st, r.st) && Narrows(m.common, r.common)
    decreases body, 1
  {
    var st := WalkAll(body, Use(c, m.st.(done := before)).(hasReturn := false));
    Merge(st, if st.hasReturn then m.common
              else if m.common.None? then Some(st.done)
              else Some(m.common.value * st.done))
  }

  function WalkArms(arms: Arms, before: set<string>, m: Merge): (r: Merge)
    ensures Extends(m.st, r.st) && Narrows(m.common, r.common)
    decreases arms
  {
    match arms
    case NoElse => m
    case Else(b) => WalkBranch(Leaf, b, before, m)
    case Arm(c, _, b, rest) => WalkArms(rest, before, WalkBranch(c, b, before, m))
  }

  function Finish(before: set<string>, m: Merge): (r: State)
    ensures Extends(m.st, r)
  {
    if m.common.None? then m.st.(done := before, hasReturn := true)
    else m.st.(done := before + m.common.value, hasReturn := false)
  }

  /** The cases of a match without else, or the else of a match without cases. (The condition of
      a match case is Leaf, so using it does nothing.) */
  function WalkLoose(arms: Arms, before: set<string>, st: State): (r: State)
    ensures Extends(st, r) && r.done == before && !r.hasReturn
    decreases arms
  {
    match arms
    case NoElse => st.(done := before, hasReturn := false)
    case Else(b) => WalkAll(b, st.(done := before)).(done := before, hasReturn := false)
    case Arm(c, _, b, rest) => WalkLoose(rest, before, WalkAll(b, Use(c, st.(done := before))))
  }

  // ---------------------------------------------------------------- the meaning of a read too early

  /** What one open scope knows about the name in question. */
  datatype Cell = Unbound | Blank | Filled

  /** The open scopes, innermost first. */
  datatype Env = Outside | Scope(cell: Cell, outer: Env)

  /** The binding an occurrence of the name refers to. */
  function Lookup(env: Env): Cell {
    match env
    case Outside => Unbound
    case Scope(c, o) => if c == Unbound then Lookup(o) else c
  }

  function Store(env: Env): Env {
    match env
    case Outside => env
    case Scope(c, o) => if c == Unbound then Scope(c, Store(o)) else Scope(Filled, o)
  }

  function Put(env: Env, c: Cell): Env {
    if env.Scope? then Scope(c, env.outer) else env
  }

  function Step(x: string, env: Env, ev: Event): Env {
    match ev
    case Write(y) => if y == x then Store(env) else env
    case Declare(y) => if y == x then Put(env, Blank) else env
    case Bind(ys) => if x in ys then Put(env, Filled) else env
    case Enter => Scope(Unbound, env)
    case Exit => if env.Scope? then env.outer else env
    case Read(_, _) => env
    case Awaited(_, _) => env
  }

  function Steps(x: string, env: Env, t: Trace): Env
    decreases |t|
  {
    if t == [] then env else Steps(x, Step(x, env, t[0]), t[1..])
  }

  /** The sites where the run `t` reads `x` while its binding has not been assigned. */
  function EarlyReads(x: string, env: Env, t: Trace): set<nat>
    decreases |t|
  {
    if t == [] then {}
    else (if t[0].Read? && t[0].name == x && Lookup(env) == Blank then {t[0].site} else {})
         + EarlyReads(x, Step(x, env, t[0]), t[1..])
  }

  // ---------------------------------------------------------------- conditions on the program

  /** The event is about the name `x`. */
  predicate About(ev: Event, x: string) {
    match ev
    case Read(y, _) => y == x
    case Write(y) => y == x
    case Declare(y) => y == x
    case Bind(ys) => x in ys
    case Awaited(y, _) => y == x
    case Enter => false
    case Exit => false
  }

  /** `x` occurs in a piece of program with these events. */
  predicate Mentioned(evs: set<Event>, x: string) {
    exists ev :: ev in evs && About(ev, x)
  }

  /** `x` does not occur where check_expr_uses does not look. */
  predicate SeenE(e: Expr, x: string) {
    match e
    case Leaf => true
    case Ident(_, _) => true
    case Await(h, _) => SeenE(h, x)
    case Logical(l, r) => SeenE(l, x) && SeenE(r, x)
    case Compound(k, es) => if k == EnumConstruct then !Mentioned(EventsEs(es), x) else SeenEs(es, x)
  }

  predicate SeenEs(es: Exprs, x: string) {
    match es
    case ENil => true
    case ECons(e, rest) => SeenE(e, x) && SeenEs(rest, x)
  }

  /** How many binders named `x` the statement holds. */
  function Binders(s: Stmt, x: string): nat
    decreases s
  {
    match s
    case Decl(y, _) => if y == x then 1 else 0
    case Spawn(h) => if h == x then 1 else 0
    case Block(ss) => BindersAll(ss, x)
    case If(_, b, rest) => BindersAll(b, x) + BindersArms(rest, x)
    case While(_, b) => BindersAll(b, x)
    case For(y, _, b) => (if y == x then 1 else 0) + BindersAll(b, x)
    case Match(_, cases) => BindersArms(cases, x)
    case _ => 0
  }

  function BindersAll(ss: Stmts, x: string): nat
    decreases ss
  {
    match ss
    case SNil => 0
    case SCons(s, rest) => Binders(s, x) + BindersAll(rest, x)
  }

  function BindersArms(arms: Arms, x: string): nat
    decreases arms
  {
    match arms
    case NoElse => 0
    case Else(b) => BindersAll(b, x)
    case Arm(_, ys, b, rest) => (if x in ys then 1 else 0) + BindersAll(b, x) + BindersArms(rest, x)
  }

  /** `x` is nowhere the walk does not look: in an enum construction, in an assignment target other
      than a plain `x = e`, or in an elif arm of an `if` without else. */
  predicate Seen(s: Stmt, x: string)
    decreases s
  {
    match s
    case Decl(_, i) => i.Value? ==> SeenE(i.e, x)
    case Spawn(_) => true
    case Assign(target, compound, v) =>
      && SeenE(v, x)
      && (if target.Ident? then target.name == x ==> !compound else !Mentioned(EventsE(target), x))
    case Return(e) => SeenE(e, x)
    case Break => true
    case Continue => true
    case ExprStmt(e) => SeenE(e, x)
    case Block(ss) => SeenAll(ss, x)
    case If(c, b, rest) =>
      SeenE(c, x) && SeenAll(b, x) && (if HasElse(rest) then SeenArms(rest, x) else !Mentioned(EventsArms(rest), x))
    case While(c, b) => SeenE(c, x) && SeenAll(b, x)
    case For(_, e, b) => SeenE(e, x) && SeenAll(b, x)
    case Match(e, cases) => SeenE(e, x) && SeenArms(cases, x)
  }

  predicate SeenAll(ss: Stmts, x: string)
    decreases ss
  {
    match ss
    case SNil => true
    case SCons(s, rest) => Seen(s, x) && SeenAll(rest, x)
  }

  predicate SeenArms(arms: Arms, x: string)
    decreases arms
  {
    match arms
    case NoElse => true
    case Else(b) => SeenAll(b, x)
    case Arm(c, _, b, rest) => SeenE(c, x) && SeenAll(b, x) && SeenArms(rest, x)
  }

  /** No statement comes after one that always leaves, and no match consists of its else alone. */
  predicate Live(s: Stmt)
    decreases s
  {
    match s
    case Block(ss) => LiveAll(ss)
    case If(_, b, rest) => LiveAll(b) && LiveArms(rest)
    case While(_, b) => LiveAll(b)
    case For(_, _, b) => LiveAll(b)
    case Match(_, cases) => !cases.Else? && LiveArms(cases)
    case _ => true
  }

  predicate LiveAll(ss: Stmts)
    decreases ss
  {
    ss.SCons? ==> Live(ss.head) && LiveAll(ss.tail) && (ss.tail.SCons? ==> !Exits(ss.head))
  }

  predicate LiveArms(arms: Arms)
    decreases arms
  {
    match arms
    case NoElse => true
    case Else(b) => LiveAll(b)
    case Arm(_, _, b, rest) => LiveAll(b) && LiveArms(rest)
  }

  /** Outside the scope of its uninitialised `var`, the name `x` neither occurs nor is bound. */
  predicate Scoped(s: Stmt, x: string)
    decreases s
  {
    match s
    case Block(ss) => ScopedAll(ss, x)
    case If(c, b, rest) => !Mentioned(EventsE(c), x) && ScopedAll(b, x) && ScopedArms(rest, x)
    case While(c, b) => !Mentioned(EventsE(c), x) && ScopedAll(b, x)
    case For(y, e, b) => y != x && !Mentioned(EventsE(e), x) && ScopedAll(b, x)
    case Match(e, cases) => !Mentioned(EventsE(e), x) && ScopedArms(cases, x)
    case _ => !Mentioned(Events(s), x)
  }

  predicate ScopedAll(ss: Stmts, x: string)
    decreases ss
  {
    ss.SCons? && ss.head != Decl(x, NoInit) ==> Scoped(ss.head, x) && ScopedAll(ss.tail, x)
  }

  predicate ScopedArms(arms: Arms, x: string)
    decreases arms
  {
    match arms
    case NoElse => true
    case Else(b) => ScopedAll(b, x)
    case Arm(c, ys, b, rest) => !Mentioned(EventsE(c), x) && x !in ys && ScopedAll(b, x) && ScopedArms(rest, x)
  }

  // ---------------------------------------------------------------- the number of uninitialised variables

  /** The declarations without initializer that are checked: all but those in the elif arms of an `if` without
      else. */
  function Uninit(s: Stmt): nat
    decreases s
  {
    match s
    case Decl(_, NoInit) => 1
    case Block(ss) => UninitAll(ss)
    case If(_, b, rest) => UninitAll(b) + if HasElse(rest) then UninitArms(rest) else 0
    case While(_, b) => UninitAll(b)
    case For(_, _, b) => UninitAll(b)
    case Match(_, cases) => UninitArms(cases)
    case _ => 0
  }

  function UninitAll(ss: Stmts): nat
    decreases ss
  {
    if ss.SNil? then 0 else Uninit(ss.head) + UninitAll(ss.tail)
  }

  function UninitArms(arms: Arms): nat
    decreases arms
  {
    match arms
    case NoElse => 0
    case Else(b) => UninitAll(b)
    case Arm(_, _, b, rest) => UninitAll(b) + UninitArms(rest)
  }

  /** `k` more declarations: at most 256 are registered, and the note says whether there were more. */
  ghost predicate Counted(k: nat, st: State, st': State) {
    && st'.count == (if st.count + k <= 256 then st.count + k else 256)
    && (st'.capNoted <==> st.capNoted || st.count + k > 256)
  }

  lemma {:induction false} CountStmt(s: Stmt, st: State)
    requires st.count <= 256
    ensures Counted(Uninit(s), st, WalkStmt(s, st))
    decreases s
  {
    match s
    case Block(ss) => CountAll(ss, st);
    case If(c, b, rest) =>
      var st1 := Use(c, st);
      if HasElse(rest) {
        CountBranch(Leaf, b, st1.done, Merge(st1, None));
        CountArms(rest, st1.done, WalkBranch(Leaf, b, st1.done, Merge(st1, None)));
      } else {
        CountAll(b, st1.(hasReturn := false));
      }
    case While(c, b) => CountAll(b, Use(c, st).(hasReturn := false));
    case For(_, e, b) => CountAll(b, Use(e, st).(hasReturn := false));
    case Match(e, cases) =>
      var st1 := Use(e, st);
      if HasElse(cases) && cases.Arm? { CountArms(cases, st1.done, Merge(st1, None)); } else { CountLoose(cases, st1.done, st1); }
    case _ =>
  }

  lemma {:induction false} CountAll(ss: Stmts, st: State)
    requires st.count <= 256
    ensures Counted(UninitAll(ss), st, WalkAll(ss, st))
    decreases ss, 0
  {
    if ss.SCons? {
      CountStmt(ss.head, st);
      CountAll(ss.tail, WalkStmt(ss.head, st));
    }
  }

  lemma {:induction false} CountBranch(c: Expr, body: Stmts, before: set<string>, m: Merge)
    requires m.st.count <= 256
    ensures Counted(UninitAll(body), m.st, WalkBranch(c, body, before, m).st)
    decreases body, 1
  {
    CountAll(body, Use(c, m.st.(done := before)).(hasReturn := false));
  }

  lemma {:induction false} CountArms(arms: Arms, before: set<string>, m: Merge)
    requires m.st.count <= 256
    ensures Counted(UninitArms(arms), m.st, WalkArms(arms, before, m).st)
    decreases arms
  {
    match arms
    case NoElse =>
    case Else(b) => CountBranch(Leaf, b, before, m);
    case Arm(c, _, b, rest) =>
      CountBranch(c, b, before, m);
      CountArms(rest, before, WalkBranch(c, b, before, m));
  }

  lemma {:induction false} CountLoose(arms: Arms, before: set<string>, st: State)
    requires st.count <= 256
    ensures Counted(UninitArms(arms), st, WalkLoose(arms, before, st))
    decreases arms
  {
    match arms
    case NoElse =>
    case Else(b) => CountAll(b, st.(done := before));
    case Arm(c, _, b, rest) =>
      var st1 := Use(c, st.(done := before));
      CountAll(b, st1);
      CountLoose(rest, before, WalkAll(b, st1));
  }

  /** The note is given exactly when more than 256 uninitialised variables are declared. */
  lemma CapExact(body: Stmts)
    ensures WalkAll(body, Start()).capNoted <==> UninitAll(body) > 256
  {
    CountAll(body, Start());
  }
}
