/**
 Runs of list programs, and the single owner of every buffer in all of them (the promise of
 src/analyzer/list_ownership.c and of section 6.8 of docs/language_definition.md).
 */
module ListRuns {
  import opened Options
  import opened ListHeap
  import opened ListOwnership

  /** A run may be cut after any number of steps, so that what holds of the last store of every run
      holds at every point of every run. */
  datatype Machine = Machine(st: Store, steps: nat)

  /** Conditions and indices, by the steps left and the depth in a place. */
  type Oracle = (nat, nat) -> nat

  /** A local or temporary's own slot, or a borrowed place: a parameter, a loop variable, a global. */
  datatype Binding = Mine(slot: nat) | Borrowed(at: Addr)

  type Env = seq<(nat, Binding)>

  /** An expression leaves its value in a new slot. */
  datatype Eval = Got(slot: nat, m: Machine) | Halt(m: Machine)

  datatype Args = Passed(places: seq<Addr>, temps: seq<nat>, m: Machine) | NoArgs(m: Machine)

  datatype Outcome = Normal | Broke | Continued | Returned(slot: nat) | Stopped

  datatype Res = Res(out: Outcome, env: Env, m: Machine)

  function Lookup(env: Env, x: nat): Option<Binding>
    decreases |env|
  {
    if env == [] then None
    else if env[|env| - 1].0 == x then Some(env[|env| - 1].1)
    else Lookup(env[..|env| - 1], x)
  }

  /** Where a place is; an index out of range is a panic. */
  function Locate(o: Oracle, place: Place, env: Env, m: Machine, depth: nat): Option<Addr> {
    match place
    case Var(x, _, _) =>
      (match Lookup(env, x)
       case None => None
       case Some(Mine(s)) => Some(Addr(Slot(s), []))
       case Some(Borrowed(a)) => Some(a))
    case Field(of, i, _) =>
      (match Locate(o, of, env, m, depth + 1)
       case None => None
       case Some(a) => Some(Addr(a.base, a.path + [i])))
    case Index(of, _) =>
      (match Locate(o, of, env, m, depth + 1)
       case None => None
       case Some(a) =>
         match ReadAt(m.st, a)
         case Some(ListV(b)) =>
           if b in m.st.heap && o(m.steps, depth) < |m.st.heap[b]| then Some(Addr(Elem(b, o(m.steps, depth)), [])) else None
         case _ => None)
  }

  predicate HasType(v: Value, t: Type)
    decreases t
  {
    match t
    case ScalarT => v == Scalar
    case ListT(_) => v.ListV?
    case ObjT(fields) => v.ObjV? && |v.fields| == |fields| && forall i :: 0 <= i < |fields| ==> HasType(v.fields[i], fields[i])
  }

  lemma {:induction false} PlainType(v: Value, t: Type)
    requires HasType(v, t) && !HoldsList(t)
    ensures Plain(v)
    decreases t
  {
    forall path, b: nat
      ensures At(v, path) != Some(ListV(b))
    {
      if t.ObjT? && path != [] && path[0] < |v.fields| {
        PlainType(v.fields[path[0]], t.fields[path[0]]);
        assert At(v.fields[path[0]], path[1..]) != Some(ListV(b));
      }
    }
  }

  // ---- expressions

  /** `copy()`: an independent copy, following the static type. */
  function Copy(st: Store, a: Addr, t: Type): Option<(nat, Store)>
    decreases t, 2, 0
  {
    match t
    case ScalarT => if ReadAt(st, a) == Some(Scalar) then Some((st.next, AddValue(st, Scalar))) else None
    case ListT(elem) =>
      (match ReadAt(st, a)
       case Some(ListV(b)) => if b in st.heap then CopyElems(NewList(st), b, |st.heap[b]|, st.next, elem) else None
       case _ => None)
    case ObjT(_) => CopyFields(AddValue(st, ObjV([])), a, 0, st.next, t)
  }

  /** The last `left` elements of buffer `b`, pushed one by one onto the list in slot `n`. */
  function CopyElems(st: Store, b: nat, left: nat, n: nat, elem: Type): Option<(nat, Store)>
    decreases elem, 3, left
  {
    if left == 0 then Some((n, st))
    else if b !in st.heap || left > |st.heap[b]| then None
    else
      match Copy(st, Addr(Elem(b, |st.heap[b]| - left), []), elem)
      case None => None
      case Some((s, st')) =>
        if CanPush(st', Addr(Slot(n), []), s) then CopyElems(Push(st', Addr(Slot(n), []), s), b, left - 1, n, elem) else None
  }

  function CopyFields(st: Store, a: Addr, i: nat, n: nat, t: Type): Option<(nat, Store)>
    requires t.ObjT?
    decreases t, 1, |t.fields| - i
  {
    if i >= |t.fields| then Some((n, st))
    else
      match Copy(st, Addr(a.base, a.path + [i]), t.fields[i])
      case None => None
      case Some((s, st')) => if CanAddField(st', n, s) then CopyFields(AddField(st', n, s), a, i + 1, n, t) else None
  }

  /** The program, the choices of a run, and the module globals: borrowed by every function. */
  datatype World = World(p: Program, o: Oracle, globals: Env)

  /** The value of an expression, in a new slot. */
  ghost function EvalOwned(w: World, e: Expr, env: Env, m0: Machine): (r: Eval)
    ensures r.m.steps <= m0.steps
    decreases m0.steps, e, 0
  {
    if m0.steps == 0 then Halt(m0) else
    var m := m0.(steps := m0.steps - 1);
    match e
    case Const => Got(m.st.next, m.(st := AddValue(m.st, Scalar)))
    case Read(place) => ReadShallow(w, place, env, m)
    case ListLit(elems) => PushAll(w, elems, env, m.st.next, m.(st := NewList(m.st)))
    case Construct(args) => FillAll(w, args, env, m.st.next, m.(st := AddValue(m.st, ObjV([]))))
    case CopyOf(place) => CopyPlace(w, place, env, m)
    case TakeOf(place) => TakePlace(w, place, env, m)
    case Call(f, args) =>
      if f >= |w.p| then Halt(m) else
      match EvalArgs(w, args, env, m)
      case NoArgs(m1) => Halt(m1)
      case Passed(places, temps, m1) =>
        if |places| != |w.p[f].params| then Halt(m1) else
        var r := ExecBlock(w, w.p[f].body, w.globals + Bind(w.p[f].params, places), m1);
        AfterCall(r, temps)
  }

  /** The result of a call; the temporaries lent to it are dropped. */
  ghost function AfterCall(r: Res, temps: seq<nat>): (e: Eval)
    ensures e.m.steps == r.m.steps
  {
    match r.out
    case Returned(s) => Got(s, r.m.(st := DropTemps(r.m.st, temps, s)))
    case Stopped => Halt(r.m)
    case _ => Got(r.m.st.next, r.m.(st := DropTemps(AddValue(r.m.st, Scalar), temps, r.m.st.next)))
  }

  /** A place as a value: what is there, header and all, is duplicated. */
  function ReadShallow(w: World, place: Place, env: Env, m: Machine): (r: Eval)
    ensures r.m.steps == m.steps
  {
    match Locate(w.o, place, env, m, 1)
    case None => Halt(m)
    case Some(a) =>
      var v := ReadAt(m.st, a);
      if v.Some? && HasType(v.value, place.t) then Got(m.st.next, m.(st := AddValue(m.st, v.value))) else Halt(m)
  }

  function CopyPlace(w: World, place: Place, env: Env, m: Machine): (r: Eval)
    ensures r.m.steps == m.steps
  {
    match Locate(w.o, place, env, m, 1)
    case None => Halt(m)
    case Some(a) =>
      match Copy(m.st, a, place.t)
      case None => Halt(m)
      case Some((s, st)) => Got(s, m.(st := st))
  }

  /** `take()`: the list moves out and an empty one stays. */
  function TakePlace(w: World, place: Place, env: Env, m: Machine): (r: Eval)
    ensures r.m.steps == m.steps
  {
    match Locate(w.o, place, env, m, 1)
    case None => Halt(m)
    case Some(a) =>
      var st := NewList(m.st);
      if CanSwap(st, a, m.st.next) && HasType(ReadAt(Without(st, m.st.next), a).value, ListT(ScalarT))
      then Got(m.st.next, m.(st := Swap(st, a, m.st.next))) else Halt(m)
  }

  /** The elements of a literal, each pushed onto the list in slot `n`. */
  ghost function PushAll(w: World, es: Exprs, env: Env, n: nat, m: Machine): (r: Eval)
    ensures r.m.steps <= m.steps
    decreases m.steps, es
  {
    match es
    case ENone => Got(n, m)
    case EMore(first, rest) =>
      match EvalOwned(w, first, env, m)
      case Halt(m1) => Halt(m1)
      case Got(s, m1) =>
        if CanPush(m1.st, Addr(Slot(n), []), s) then PushAll(w, rest, env, n, m1.(st := Push(m1.st, Addr(Slot(n), []), s))) else Halt(m1)
  }

  /** The arguments of a constructor, each a field of the object in slot `n`. */
  ghost function FillAll(w: World, es: Exprs, env: Env, n: nat, m: Machine): (r: Eval)
    ensures r.m.steps <= m.steps
    decreases m.steps, es
  {
    match es
    case ENone => Got(n, m)
    case EMore(first, rest) =>
      match EvalOwned(w, first, env, m)
      case Halt(m1) => Halt(m1)
      case Got(s, m1) =>
        if CanAddField(m1.st, n, s) then FillAll(w, rest, env, n, m1.(st := AddField(m1.st, n, s))) else Halt(m1)
  }

  /** Arguments are lent: a place as it is, any other value in a temporary. */
  ghost function EvalArgs(w: World, es: Exprs, env: Env, m: Machine): (r: Args)
    ensures r.m.steps <= m.steps
    decreases m.steps, es
  {
    match es
    case ENone => Passed([], [], m)
    case EMore(first, rest) =>
      if first.Read? then
        match Locate(w.o, first.place, env, m, 1)
        case None => NoArgs(m)
        case Some(a) => WithArg(a, [], EvalArgs(w, rest, env, m))
      else
        match EvalOwned(w, first, env, m)
        case Halt(m1) => NoArgs(m1)
        case Got(s, m1) => WithArg(Addr(Slot(s), []), [s], EvalArgs(w, rest, env, m1))
  }

  function WithArg(a: Addr, temp: seq<nat>, rest: Args): (r: Args)
    ensures r.m == rest.m
  {
    if rest.NoArgs? then rest else Passed([a] + rest.places, temp + rest.temps, rest.m)
  }

  function Bind(params: seq<nat>, places: seq<Addr>): Env
    requires |params| == |places|
  {
    if params == [] then [] else [(params[0], Borrowed(places[0]))] + Bind(params[1..], places[1..])
  }

  ghost function DropTemps(st: Store, temps: seq<nat>, keep: nat): Store
    decreases |temps|
  {
    if temps == [] then st
    else DropTemps(if temps[0] == keep then st else Drop(st, temps[0]), temps[1..], keep)
  }

  // ---- statements

  ghost function Exec(w: World, s: Stmt, env: Env, m0: Machine): (r: Res)
    ensures r.m.steps <= m0.steps && (m0.steps > 0 ==> r.m.steps < m0.steps)
    decreases m0.steps, s
  {
    if m0.steps == 0 then Res(Stopped, env, m0) else
    var m := m0.(steps := m0.steps - 1);
    match s
    case Let(x, init) =>
      (match EvalOwned(w, init, env, m)
       case Halt(m1) => Res(Stopped, env, m1)
       case Got(n, m1) => Res(Normal, env + [(x, Mine(n))], m1))
    case AssignTo(target, value) =>
      (match EvalOwned(w, value, env, m)
       case Halt(m1) => Res(Stopped, env, m1)
       case Got(n, m1) => AssignSlot(w, target, n, env, m1))
    case Append(target, value) =>
      (match EvalOwned(w, value, env, m)
       case Halt(m1) => Res(Stopped, env, m1)
       case Got(n, m1) => PushSlot(w, target, n, env, m1))
    case Return(value) => ExecReturn(w, value, env, m)
    case Do(value) =>
      if value.Read? then Res(Normal, env, m) else
      (match EvalOwned(w, value, env, m)
       case Halt(m1) => Res(Stopped, env, m1)
       case Got(n, m1) => Res(Normal, env, m1.(st := Drop(m1.st, n))))
    case Break => Res(Broke, env, m)
    case Continue => Res(Continued, env, m)
    case Block(body) => ExecBlock(w, body, env, m)
    case If(yes, no) => if w.o(m.steps, 0) > 0 then ExecBlock(w, yes, env, m) else ExecBlock(w, no, env, m)
    case While(body) =>
      if w.o(m.steps, 0) == 0 then Res(Normal, env, m) else
      var r := ExecBlock(w, body, env, m);
      if r.out == Normal || r.out == Continued then Exec(w, s, env, r.m)
      else Res(if r.out == Broke then Normal else r.out, env, r.m)
    case For(x, over, body) =>
      match Locate(w.o, over, env, m, 1)
      case None => Res(Stopped, env, m)
      case Some(a) => ExecFor(w, x, a, 0, body, env, m)
  }

  /** The value in slot `n` replaces what is at the target, which is dropped. */
  ghost function AssignSlot(w: World, target: Place, n: nat, env: Env, m: Machine): (r: Res)
    ensures r.m.steps == m.steps
  {
    match Locate(w.o, target, env, m, 1)
    case None => Res(Stopped, env, m)
    case Some(a) =>
      if CanSwap(m.st, a, n) then Res(Normal, env, m.(st := Drop(Swap(m.st, a, n), n))) else Res(Stopped, env, m)
  }

  function PushSlot(w: World, target: Place, n: nat, env: Env, m: Machine): (r: Res)
    ensures r.m.steps == m.steps
  {
    match Locate(w.o, target, env, m, 1)
    case None => Res(Stopped, env, m)
    case Some(a) => if CanPush(m.st, a, n) then Res(Normal, env, m.(st := Push(m.st, a, n))) else Res(Stopped, env, m)
  }

  /** A returned local is moved out: its slot is the result. */
  ghost function ExecReturn(w: World, value: Expr, env: Env, m: Machine): (r: Res)
    ensures r.m.steps <= m.steps
    decreases m.steps, value, 1
  {
    if value.Read? && value.place.Var? && value.place.kind == Local then
      match Lookup(env, value.place.x)
      case Some(Mine(n)) => Res(Returned(n), env, m)
      case _ => Res(Stopped, env, m)
    else
      match EvalOwned(w, value, env, m)
      case Halt(m1) => Res(Stopped, env, m1)
      case Got(n, m1) => Res(Returned(n), env, m1)
  }

  /** The rest of a loop over the list at `a`, from element `i`, which the loop variable borrows. */
  ghost function ExecFor(w: World, x: nat, a: Addr, i: nat, body: Stmts, env: Env, m0: Machine): (r: Res)
    ensures r.m.steps <= m0.steps
    decreases m0.steps, body
  {
    if m0.steps == 0 then Res(Stopped, env, m0) else
    var m := m0.(steps := m0.steps - 1);
    match ReadAt(m.st, a)
    case Some(ListV(b)) =>
      if b !in m.st.heap then Res(Stopped, env, m)
      else if i >= |m.st.heap[b]| then Res(Normal, env, m)
      else
        var r := ExecBlock(w, body, env + [(x, Borrowed(Addr(Elem(b, i), [])))], m);
        if r.out == Normal || r.out == Continued then ExecFor(w, x, a, i + 1, body, env, r.m)
        else Res(if r.out == Broke then Normal else r.out, env, r.m)
    case _ => Res(Stopped, env, m)
  }

  /** A block drops its own bindings at its end, but not the value returned. */
  ghost function ExecBlock(w: World, ss: Stmts, env: Env, m: Machine): (r: Res)
    ensures r.m.steps <= m.steps
    decreases m.steps, ss, 1
  {
    var r := ExecAll(w, ss, env, m);
    if r.out == Stopped then Res(Stopped, env, r.m) else Res(r.out, env, r.m.(st := DropScope(r.m.st, r.env, |env|, r.out)))
  }

  ghost function ExecAll(w: World, ss: Stmts, env: Env, m: Machine): (r: Res)
    ensures r.m.steps <= m.steps
    decreases m.steps, ss, 0
  {
    match ss
    case SNone => Res(Normal, env, m)
    case SMore(first, rest) =>
      var r := Exec(w, first, env, m);
      if r.out == Normal then ExecAll(w, rest, r.env, r.m) else r
  }

  ghost function DropScope(st: Store, env: Env, n: nat, out: Outcome): Store
    decreases |env|
  {
    if |env| <= n then st
    else
      var last := env[|env| - 1].1;
      DropScope(if last.Mine? && out != Returned(last.slot) then Drop(st, last.slot) else st, env[..|env| - 1], n, out)
  }

  // ---- the invariant

  lemma {:induction false} DropTempsSound(st: Store, temps: seq<nat>, keep: nat)
    requires Sound(st)
    ensures Sound(DropTemps(st, temps, keep))
    decreases |temps|
  {
    if temps != [] {
      DropSound(st, temps[0]);
      DropTempsSound(if temps[0] == keep then st else Drop(st, temps[0]), temps[1..], keep);
    }
  }

  lemma {:induction false} DropScopeSound(st: Store, env: Env, n: nat, out: Outcome)
    requires Sound(st)
    ensures Sound(DropScope(st, env, n, out))
    decreases |env|
  {
    if |env| > n {
      var last := env[|env| - 1].1;
      if last.Mine? { DropSound(st, last.slot); }
      DropScopeSound(if last.Mine? && out != Returned(last.slot) then Drop(st, last.slot) else st, env[..|env| - 1], n, out);
    }
  }

  lemma PlainScalar()
    ensures Plain(Scalar) && Plain(ObjV([]))
  {
  }

  lemma {:induction false} CopySound(st: Store, a: Addr, t: Type)
    requires Sound(st)
    ensures Copy(st, a, t).Some? ==> Sound(Copy(st, a, t).value.1)
    decreases t, 2, 0
  {
    PlainScalar();
    match t
    case ScalarT => AddPlainSound(st, Scalar);
    case ListT(elem) =>
      NewListSound(st);
      match ReadAt(st, a) {
        case Some(ListV(b)) => if b in st.heap { CopyElemsSound(NewList(st), b, |st.heap[b]|, st.next, elem); }
        case _ =>
      }
    case ObjT(_) =>
      AddPlainSound(st, ObjV([]));
      CopyFieldsSound(AddValue(st, ObjV([])), a, 0, st.next, t);
  }

  lemma {:induction false} CopyElemsSound(st: Store, b: nat, left: nat, n: nat, elem: Type)
    requires Sound(st)
    ensures CopyElems(st, b, left, n, elem).Some? ==> Sound(CopyElems(st, b, left, n, elem).value.1)
    decreases elem, 3, left
  {
    if left > 0 && b in st.heap && left <= |st.heap[b]| {
      var from := Addr(Elem(b, |st.heap[b]| - left), []);
      CopySound(st, from, elem);
      match Copy(st, from, elem)
      case None =>
      case Some((s, st')) =>
        if CanPush(st', Addr(Slot(n), []), s) {
          PushSound(st', Addr(Slot(n), []), s);
          CopyElemsSound(Push(st', Addr(Slot(n), []), s), b, left - 1, n, elem);
        }
    }
  }

  lemma {:induction false} CopyFieldsSound(st: Store, a: Addr, i: nat, n: nat, t: Type)
    requires Sound(st) && t.ObjT?
    ensures CopyFields(st, a, i, n, t).Some? ==> Sound(CopyFields(st, a, i, n, t).value.1)
    decreases t, 1, |t.fields| - i
  {
    if i < |t.fields| {
      var from := Addr(a.base, a.path + [i]);
      CopySound(st, from, t.fields[i]);
      match Copy(st, from, t.fields[i])
      case None =>
      case Some((s, st')) =>
        if CanAddField(st', n, s) {
          AddFieldSound(st', n, s);
          CopyFieldsSound(AddField(st', n, s), a, i + 1, n, t);
        }
    }
  }

  lemma ReadShallowSound(w: World, place: Place, env: Env, m: Machine)
    requires Sound(m.st) && !HoldsList(place.t)
    ensures Sound(ReadShallow(w, place, env, m).m.st)
  {
    match Locate(w.o, place, env, m, 1)
    case None =>
    case Some(a) =>
      var v := ReadAt(m.st, a);
      if v.Some? && HasType(v.value, place.t) {
        PlainType(v.value, place.t);
        AddPlainSound(m.st, v.value);
      }
  }

  lemma CopyPlaceSound(w: World, place: Place, env: Env, m: Machine)
    requires Sound(m.st)
    ensures Sound(CopyPlace(w, place, env, m).m.st)
  {
    match Locate(w.o, place, env, m, 1)
    case None =>
    case Some(a) => CopySound(m.st, a, place.t);
  }

  lemma TakePlaceSound(w: World, place: Place, env: Env, m: Machine)
    requires Sound(m.st)
    ensures Sound(TakePlace(w, place, env, m).m.st)
  {
    match Locate(w.o, place, env, m, 1)
    case None =>
    case Some(a) =>
      NewListSound(m.st);
      var st := NewList(m.st);
      if CanSwap(st, a, m.st.next) { SwapSound(st, a, m.st.next); }
  }

  /** Every function body obeys the discipline. */
  ghost predicate Obeys(w: World) { forall k :: 0 <= k < |w.p| ==> CleanBody(w.p[k].body) }

  lemma {:induction false} EvalSound(w: World, e: Expr, env: Env, m0: Machine)
    requires Obeys(w) && Sound(m0.st) && Clean(e) && Moves(e)
    ensures Sound(EvalOwned(w, e, env, m0).m.st)
    decreases m0.steps, e, 0
  {
    if m0.steps > 0 {
      var m := m0.(steps := m0.steps - 1);
      PlainScalar();
      match e
      case Const => AddPlainSound(m.st, Scalar);
      case Read(place) => ReadShallowSound(w, place, env, m);
      case ListLit(elems) =>
        NewListSound(m.st);
        PushAllSound(w, elems, env, m.st.next, m.(st := NewList(m.st)));
      case Construct(args) =>
        AddPlainSound(m.st, ObjV([]));
        FillAllSound(w, args, env, m.st.next, m.(st := AddValue(m.st, ObjV([]))));
      case CopyOf(place) => CopyPlaceSound(w, place, env, m);
      case TakeOf(place) => TakePlaceSound(w, place, env, m);
      case Call(f, args) => CallSound(w, f, args, env, m0);
    }
  }

  lemma {:induction false} CallSound(w: World, f: nat, args: Exprs, env: Env, m0: Machine)
    requires Obeys(w) && Sound(m0.st) && CleanAll(args) && m0.steps > 0
    ensures Sound(EvalOwned(w, Call(f, args), env, m0).m.st)
    decreases m0.steps, args, 0
  {
    var m := m0.(steps := m0.steps - 1);
    if f < |w.p| {
      ArgsSound(w, args, env, m);
      match EvalArgs(w, args, env, m)
      case NoArgs(m1) =>
      case Passed(places, temps, m1) =>
        if |places| == |w.p[f].params| {
          var inner := w.globals + Bind(w.p[f].params, places);
          BlockSound(w, w.p[f].body, inner, m1);
          AfterCallSound(ExecBlock(w, w.p[f].body, inner, m1), temps);
        }
    }
  }

  lemma AfterCallSound(r: Res, temps: seq<nat>)
    requires Sound(r.m.st)
    ensures Sound(AfterCall(r, temps).m.st)
  {
    match r.out
    case Returned(s) => DropTempsSound(r.m.st, temps, s);
    case Stopped =>
    case _ =>
      PlainScalar();
      AddPlainSound(r.m.st, Scalar);
      DropTempsSound(AddValue(r.m.st, Scalar), temps, r.m.st.next);
  }

  lemma {:induction false} PushAllSound(w: World, es: Exprs, env: Env, n: nat, m: Machine)
    requires Obeys(w) && Sound(m.st) && CleanAll(es) && MovesAll(es)
    ensures Sound(PushAll(w, es, env, n, m).m.st)
    decreases m.steps, es
  {
    match es
    case ENone =>
    case EMore(first, rest) =>
      EvalSound(w, first, env, m);
      match EvalOwned(w, first, env, m)
      case Halt(_) =>
      case Got(s, m1) =>
        if CanPush(m1.st, Addr(Slot(n), []), s) {
          PushSound(m1.st, Addr(Slot(n), []), s);
          PushAllSound(w, rest, env, n, m1.(st := Push(m1.st, Addr(Slot(n), []), s)));
        }
  }

  lemma {:induction false} FillAllSound(w: World, es: Exprs, env: Env, n: nat, m: Machine)
    requires Obeys(w) && Sound(m.st) && CleanAll(es) && MovesAll(es)
    ensures Sound(FillAll(w, es, env, n, m).m.st)
    decreases m.steps, es
  {
    match es
    case ENone =>
    case EMore(first, rest) =>
      EvalSound(w, first, env, m);
      match EvalOwned(w, first, env, m)
      case Halt(_) =>
      case Got(s, m1) =>
        if CanAddField(m1.st, n, s) {
          AddFieldSound(m1.st, n, s);
          FillAllSound(w, rest, env, n, m1.(st := AddField(m1.st, n, s)));
        }
  }

  lemma {:induction false} ArgsSound(w: World, es: Exprs, env: Env, m: Machine)
    requires Obeys(w) && Sound(m.st) && CleanAll(es)
    ensures Sound(EvalArgs(w, es, env, m).m.st)
    decreases m.steps, es
  {
    match es
    case ENone =>
    case EMore(first, rest) =>
      if first.Read? {
        ArgsSound(w, rest, env, m);
      } else {
        EvalSound(w, first, env, m);
        match EvalOwned(w, first, env, m)
        case Halt(_) =>
        case Got(s, m1) => ArgsSound(w, rest, env, m1);
      }
  }

  lemma AssignSlotSound(w: World, target: Place, n: nat, env: Env, m: Machine)
    requires Sound(m.st)
    ensures Sound(AssignSlot(w, target, n, env, m).m.st)
  {
    match Locate(w.o, target, env, m, 1)
    case None =>
    case Some(a) =>
      if CanSwap(m.st, a, n) {
        SwapSound(m.st, a, n);
        DropSound(Swap(m.st, a, n), n);
      }
  }

  lemma PushSlotSound(w: World, target: Place, n: nat, env: Env, m: Machine)
    requires Sound(m.st)
    ensures Sound(PushSlot(w, target, n, env, m).m.st)
  {
    match Locate(w.o, target, env, m, 1)
    case None =>
    case Some(a) => if CanPush(m.st, a, n) { PushSound(m.st, a, n); }
  }

  /** One statement and what it calls. */
  lemma {:induction false} ExecSound(w: World, s: Stmt, env: Env, m0: Machine)
    requires Obeys(w) && Sound(m0.st) && CleanStmt(s)
    ensures Sound(Exec(w, s, env, m0).m.st)
    decreases m0.steps, s
  {
    if m0.steps > 0 {
      var m := m0.(steps := m0.steps - 1);
      match s
      case Let(x, init) => EvalSound(w, init, env, m);
      case AssignTo(target, value) =>
        EvalSound(w, value, env, m);
        match EvalOwned(w, value, env, m) {
          case Halt(_) =>
          case Got(n, m1) => AssignSlotSound(w, target, n, env, m1);
        }
      case Append(target, value) =>
        EvalSound(w, value, env, m);
        match EvalOwned(w, value, env, m) {
          case Halt(_) =>
          case Got(n, m1) => PushSlotSound(w, target, n, env, m1);
        }
      case Return(value) => if Moves(value) { EvalSound(w, value, env, m); }
      case Do(value) => if !value.Read? { DoSound(w, value, env, m); }
      case Break =>
      case Continue =>
      case Block(body) => BlockSound(w, body, env, m);
      case If(yes, no) => BlockSound(w, yes, env, m); BlockSound(w, no, env, m);
      case While(body) =>
        if w.o(m.steps, 0) > 0 {
          BlockSound(w, body, env, m);
          ExecSound(w, s, env, ExecBlock(w, body, env, m).m);
        }
      case For(x, over, body) =>
        match Locate(w.o, over, env, m, 1)
        case None =>
        case Some(a) => ForSound(w, x, a, 0, body, env, m);
    }
  }

  lemma {:induction false} DoSound(w: World, e: Expr, env: Env, m: Machine)
    requires Obeys(w) && Sound(m.st) && Clean(e) && Moves(e)
    ensures Sound(EvalOwned(w, e, env, m).m.st)
    ensures EvalOwned(w, e, env, m).Got? ==> Sound(Drop(EvalOwned(w, e, env, m).m.st, EvalOwned(w, e, env, m).slot))
    decreases m.steps, e, 1
  {
    EvalSound(w, e, env, m);
    match EvalOwned(w, e, env, m)
    case Halt(_) =>
    case Got(n, m1) => DropSound(m1.st, n);
  }

  lemma {:induction false} ForSound(w: World, x: nat, a: Addr, i: nat, body: Stmts, env: Env, m0: Machine)
    requires Obeys(w) && Sound(m0.st) && CleanBody(body)
    ensures Sound(ExecFor(w, x, a, i, body, env, m0).m.st)
    decreases m0.steps, body
  {
    if m0.steps > 0 {
      var m := m0.(steps := m0.steps - 1);
      match ReadAt(m.st, a) {
        case Some(ListV(b)) =>
          if b in m.st.heap && i < |m.st.heap[b]| {
            var inner := env + [(x, Borrowed(Addr(Elem(b, i), [])))];
            BlockSound(w, body, inner, m);
            ForSound(w, x, a, i + 1, body, env, ExecBlock(w, body, inner, m).m);
          }
        case _ =>
      }
    }
  }

  lemma {:induction false} BlockSound(w: World, ss: Stmts, env: Env, m: Machine)
    requires Obeys(w) && Sound(m.st) && CleanBody(ss)
    ensures Sound(ExecBlock(w, ss, env, m).m.st)
    decreases m.steps, ss, 1
  {
    AllSound(w, ss, env, m);
    var r := ExecAll(w, ss, env, m);
    DropScopeSound(r.m.st, r.env, |env|, r.out);
  }

  lemma {:induction false} AllSound(w: World, ss: Stmts, env: Env, m: Machine)
    requires Obeys(w) && Sound(m.st) && CleanBody(ss)
    ensures Sound(ExecAll(w, ss, env, m).m.st)
    decreases m.steps, ss, 0
  {
    if ss.SMore? {
      ExecSound(w, ss.first, env, m);
      var r := Exec(w, ss.first, env, m);
      if r.out == Normal { AllSound(w, ss.rest, r.env, r.m); }
    }
  }

  /** The store after `steps` steps of a run of function `f` of the program. */
  ghost function StoreAfter(w: World, f: nat, st: Store, steps: nat): Store
    requires f < |w.p|
  {
    ExecBlock(w, w.p[f].body, w.globals, Machine(st, steps)).m.st
  }

  /** Single owner: at every point of every run of a program the check accepts, no two bindings, fields or
      elements own the same buffer, and none refers to a freed one. */
  lemma SingleOwnerHolds(w: World, f: nat, st: Store, steps: nat)
    requires forall k :: 0 <= k < |w.p| ==> ShallowBody(w.p[k].body) && BodyOffences(w.p[k].body) == []
    requires f < |w.p| && Sound(st)
    ensures SingleOwner(StoreAfter(w, f, st, steps)) && Live(StoreAfter(w, f, st, steps))
  {
    forall k | 0 <= k < |w.p|
      ensures CleanBody(w.p[k].body)
    {
      CheckExact(w.p[k].body);
    }
    BlockSound(w, w.p[f].body, w.globals, Machine(st, steps));
  }

  const EMPTY: Store := Store(map[], map[], 0)
  const ONE: Store := Store(map[0 := ListV(0)], map[0 := []], 1)
  const FIRST: Place := Var(0, Local, ListT(ScalarT))

  lemma LetList(w: World)
    ensures Exec(w, Let(0, ListLit(ENone)), [], Machine(EMPTY, 4)) == Res(Normal, [(0, Mine(0))], Machine(ONE, 2))
  {
    assert NewList(EMPTY) == ONE;
    assert EvalOwned(w, ListLit(ENone), [], Machine(EMPTY, 3)) == Got(0, Machine(ONE, 2));
  }

  lemma LetSecond(w: World)
    ensures Exec(w, Let(1, Read(FIRST)), [(0, Mine(0))], Machine(ONE, 2))
              == Res(Normal, [(0, Mine(0)), (1, Mine(1))], Machine(AddValue(ONE, ListV(0)), 0))
  {
    var env: Env := [(0, Mine(0))];
    assert Locate(w.o, FIRST, env, Machine(ONE, 0), 1) == Some(Addr(Slot(0), []));
    assert EvalOwned(w, Read(FIRST), env, Machine(ONE, 1)) == Got(1, Machine(AddValue(ONE, ListV(0)), 0));
  }

  /** `val a = []`, `val b = a`, and one more statement: reported, and were it run, `a` and `b` would own
      one buffer. */
  lemma DuplicateBreaks(o: Oracle) returns (w: World)
    ensures |w.p| == 1 && BodyOffences(w.p[0].body) == [Read(FIRST)]
    ensures !SingleOwner(StoreAfter(w, 0, EMPTY, 4))
  {
    var third := SMore(Do(Const), SNone);
    var second := SMore(Let(1, Read(FIRST)), third);
    w := World([Fun([], SMore(Let(0, ListLit(ENone)), second))], o, []);
    LetList(w);
    LetSecond(w);
    var st := AddValue(ONE, ListV(0));
    assert ExecAll(w, second, [(0, Mine(0))], Machine(ONE, 2)) == Res(Stopped, [(0, Mine(0)), (1, Mine(1))], Machine(st, 0));
    assert StoreAfter(w, 0, EMPTY, 4) == st;
    assert Owns(st, Addr(Slot(0), []), 0) && Owns(st, Addr(Slot(1), []), 0);
  }
}
