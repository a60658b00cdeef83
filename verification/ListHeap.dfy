/**
 List buffers and who owns them (the invariant behind src/analyzer/list_ownership.c). A list value is a
 header that names its buffer; objects hold their fields inline. Growing a list moves its elements to a
 new buffer and frees the old one, and dropping a value frees every buffer it owns.
 */
module ListHeap {
  import opened Options
  import opened Graph

  datatype Value = Scalar | ListV(buffer: nat) | ObjV(fields: seq<Value>)

  /** Where a value is kept: a binding or temporary, or an element of a buffer. */
  datatype Base = Slot(slot: nat) | Elem(buffer: nat, index: nat)

  /** A place: a base and the fields taken from there. */
  datatype Addr = Addr(base: Base, path: seq<nat>)

  datatype Store = Store(slots: map<nat, Value>, heap: map<nat, seq<Value>>, next: nat)

  function At(v: Value, path: seq<nat>): Option<Value>
    decreases |path|
  {
    if path == [] then Some(v)
    else if v.ObjV? && path[0] < |v.fields| then At(v.fields[path[0]], path[1..])
    else None
  }

  function WriteIn(v: Value, path: seq<nat>, w: Value): Value
    requires At(v, path).Some?
    decreases |path|
  {
    if path == [] then w else ObjV(v.fields[path[0] := WriteIn(v.fields[path[0]], path[1..], w)])
  }

  function BaseValue(st: Store, base: Base): Option<Value> {
    match base
    case Slot(s) => if s in st.slots then Some(st.slots[s]) else None
    case Elem(b, i) => if b in st.heap && i < |st.heap[b]| then Some(st.heap[b][i]) else None
  }

  function ReadAt(st: Store, a: Addr): Option<Value> {
    match BaseValue(st, a.base)
    case None => None
    case Some(v) => At(v, a.path)
  }

  function WriteBase(st: Store, base: Base, v: Value): Store
    requires BaseValue(st, base).Some?
  {
    match base
    case Slot(s) => st.(slots := st.slots[s := v])
    case Elem(b, i) => st.(heap := st.heap[b := st.heap[b][i := v]])
  }

  function WriteAt(st: Store, a: Addr, w: Value): Store
    requires ReadAt(st, a).Some?
  {
    WriteBase(st, a.base, WriteIn(BaseValue(st, a.base).value, a.path, w))
  }

  // ---- ownership

  /** The binding, field or element at `a` owns buffer `b`. */
  ghost predicate Owns(st: Store, a: Addr, b: nat) { ReadAt(st, a) == Some(ListV(b)) }

  ghost predicate SingleOwner(st: Store) {
    forall a, a', b :: Owns(st, a, b) && Owns(st, a', b) ==> a == a'
  }

  /** No owner refers to a freed buffer. */
  ghost predicate Live(st: Store) { forall a, b :: Owns(st, a, b) ==> b in st.heap }

  ghost predicate Numbered(st: Store) {
    (forall s :: s in st.slots ==> s < st.next) && (forall b :: b in st.heap ==> b < st.next)
  }

  ghost predicate Sound(st: Store) { SingleOwner(st) && Live(st) && Numbered(st) }

  /** The value holds no list. */
  ghost predicate Plain(v: Value) { forall path, b :: At(v, path) != Some(ListV(b)) }

  predicate Under(a: Addr, a': Addr) { a.base == a'.base && a.path <= a'.path }

  lemma {:induction false} AtWritten(v: Value, path: seq<nat>, w: Value, q: seq<nat>, b: nat)
    requires At(v, path).Some?
    ensures At(WriteIn(v, path, w), q) == Some(ListV(b)) <==>
              if path <= q then At(w, q[|path|..]) == Some(ListV(b)) else At(v, q) == Some(ListV(b))
    decreases |path|
  {
    if path != [] && q != [] {
      if q[0] == path[0] {
        AtWritten(v.fields[path[0]], path[1..], w, q[1..], b);
        assert path <= q <==> path[1..] <= q[1..] by {
          assert path == [path[0]] + path[1..] && q == [q[0]] + q[1..];
        }
        if path <= q { assert q[1..][|path[1..]|..] == q[|path|..]; }
      }
    } else if path == [] {
      assert q[0..] == q;
    }
  }

  /** Who owns what after a write. */
  lemma OwnsWritten(st: Store, a: Addr, w: Value, a': Addr, b: nat)
    requires ReadAt(st, a).Some?
    ensures Owns(WriteAt(st, a, w), a', b) <==>
              if Under(a, a') then At(w, a'.path[|a.path|..]) == Some(ListV(b)) else Owns(st, a', b)
  {
    if a.base == a'.base { AtWritten(BaseValue(st, a.base).value, a.path, w, a'.path, b); }
  }

  lemma {:induction false} AtAppend(v: Value, p: seq<nat>, q: seq<nat>)
    requires At(v, p).Some?
    ensures At(v, p + q) == At(At(v, p).value, q)
    decreases |p|
  {
    if p == [] { assert p + q == q; } else {
      assert (p + q)[1..] == p[1..] + q;
      AtAppend(v.fields[p[0]], p[1..], q);
    }
  }

  lemma NextIsFresh(st: Store)
    requires Live(st) && Numbered(st)
    ensures forall a, b: nat :: Owns(st, a, b) ==> b < st.next
  {
  }

  // ---- the steps of a run

  /** A value without lists in a new slot. */
  function AddValue(st: Store, v: Value): Store {
    Store(st.slots[st.next := v], st.heap, st.next + 1)
  }

  lemma AddPlainSound(st: Store, v: Value)
    requires Sound(st) && Plain(v)
    ensures Sound(AddValue(st, v))
  {
    var st' := AddValue(st, v);
    forall a, b: nat
      ensures Owns(st', a, b) ==> Owns(st, a, b)
    {
      assert At(v, a.path) != Some(ListV(b));
    }
  }

  /** A new empty list in a new slot. */
  function NewList(st: Store): Store {
    Store(st.slots[st.next := ListV(st.next)], st.heap[st.next := []], st.next + 1)
  }

  lemma NewListSound(st: Store)
    requires Sound(st)
    ensures Sound(NewList(st))
  {
    var st' := NewList(st);
    NextIsFresh(st);
    forall a, b: nat | Owns(st', a, b)
      ensures if a.base == Slot(st.next) then b == st.next && a.path == [] else Owns(st, a, b)
    {
    }
  }

  function Without(st: Store, s: nat): Store { st.(slots := st.slots - {s}) }

  lemma WithoutOwns(st: Store, s: nat, a: Addr, b: nat)
    ensures Owns(Without(st, s), a, b) <==> a.base != Slot(s) && Owns(st, a, b)
  {
  }

  /** The values at `a` and in slot `s` change places. */
  predicate CanSwap(st: Store, a: Addr, s: nat) { s in st.slots && ReadAt(Without(st, s), a).Some? }

  function Swap(st: Store, a: Addr, s: nat): Store
    requires CanSwap(st, a, s)
  {
    var w := WriteAt(Without(st, s), a, st.slots[s]);
    w.(slots := w.slots[s := ReadAt(Without(st, s), a).value])
  }

  lemma SwapOwns(st: Store, a: Addr, s: nat, a': Addr, b: nat)
    requires CanSwap(st, a, s)
    ensures Owns(Swap(st, a, s), a', b) <==> Owns(st, SwapBack(a, s, a'), b)
  {
    var rest := Without(st, s);
    OwnsWritten(rest, a, st.slots[s], a', b);
    WithoutOwns(st, s, a', b);
    if a'.base == Slot(s) { AtAppend(BaseValue(rest, a.base).value, a.path, a'.path); }
  }

  function SwapBack(a: Addr, s: nat, a': Addr): Addr {
    if a'.base == Slot(s) then Addr(a.base, a.path + a'.path)
    else if Under(a, a') then Addr(Slot(s), a'.path[|a.path|..])
    else a'
  }

  lemma SwapBackInjective(a: Addr, s: nat, x: Addr, y: Addr)
    requires a.base != Slot(s) && SwapBack(a, s, x) == SwapBack(a, s, y)
    ensures x == y
  {
    if x.base == Slot(s) && y.base == Slot(s) {
      assert x.path == (a.path + x.path)[|a.path|..] && y.path == (a.path + y.path)[|a.path|..];
    } else if x.base != Slot(s) && y.base != Slot(s) && Under(a, x) && Under(a, y) {
      assert x.path == a.path + x.path[|a.path|..] && y.path == a.path + y.path[|a.path|..];
    }
  }

  lemma SwapSound(st: Store, a: Addr, s: nat)
    requires Sound(st) && CanSwap(st, a, s)
    ensures Sound(Swap(st, a, s))
  {
    var st' := Swap(st, a, s);
    NextIsFresh(st);
    forall x, b
      ensures Owns(st', x, b) <==> Owns(st, SwapBack(a, s, x), b)
    {
      SwapOwns(st, a, s, x, b);
    }
    forall x, y, b | Owns(st', x, b) && Owns(st', y, b)
      ensures x == y
    {
      SwapBackInjective(a, s, x, y);
    }
  }

  // ---- freeing

  /** Buffer `c` is owned by an element of buffer `b`, directly or in a field. */
  ghost predicate Inside(st: Store, b: nat, c: nat) {
    exists i: nat, path :: Owns(st, Addr(Elem(b, i), path), c)
  }

  ghost function Nesting(st: Store): Edges {
    set b: nat, c: nat | b in st.heap && c in st.heap && Inside(st, b, c) :: (b, c)
  }

  ghost predicate HeldBy(v: Value, b: nat) { exists path :: At(v, path) == Some(ListV(b)) }

  ghost function Held(st: Store, v: Value): set<nat> { set b: nat | b in st.heap && HeldBy(v, b) }

  /** The buffers a value owns, directly and through the elements of those. */
  ghost function Tree(st: Store, v: Value): set<nat> {
    set b: nat | b in st.heap && Reach(Nesting(st), Held(st, v), b)
  }

  /** The value in slot `s` goes, and every buffer it owns is freed. */
  ghost function Drop(st: Store, s: nat): Store {
    if s in st.slots then Without(st, s).(heap := st.heap - Tree(st, st.slots[s])) else st
  }

  /** A freed buffer was held by the value, or inside another freed one. */
  lemma TreeStep(st: Store, v: Value, b: nat)
    requires b in Tree(st, v)
    ensures HeldBy(v, b) || exists c :: c in Tree(st, v) && Inside(st, c, b)
  {
    var r, held := Nesting(st), Held(st, v);
    var p :| Leads(r, held, b, p);
    if |p| > 1 {
      var c := p[|p| - 2];
      assert (p[|p| - 2], p[|p| - 2 + 1]) in r;
      assert Leads(r, held, c, p[..|p| - 1]);
      assert c in Tree(st, v) && Inside(st, c, b);
    }
  }

  /** What is freed had its one owner among what went. */
  lemma DropSound(st: Store, s: nat)
    requires Sound(st)
    ensures Sound(Drop(st, s))
  {
    if s in st.slots {
      var st', v := Drop(st, s), st.slots[s];
      forall a, b: nat | Owns(st', a, b)
        ensures Owns(st, a, b) && b in st'.heap
      {
        assert Owns(st, a, b);
        if b in Tree(st, v) { OwnerGone(st, s, a, b); }
      }
    }
  }

  lemma OwnerGone(st: Store, s: nat, a: Addr, b: nat)
    requires Sound(st) && s in st.slots && b in Tree(st, st.slots[s]) && Owns(st, a, b)
    ensures BaseValue(Drop(st, s), a.base).None?
  {
    var v := st.slots[s];
    TreeStep(st, v, b);
    if HeldBy(v, b) {
      var path :| At(v, path) == Some(ListV(b));
      assert Owns(st, Addr(Slot(s), path), b);
    } else {
      var c :| c in Tree(st, v) && Inside(st, c, b);
      var i: nat, path :| Owns(st, Addr(Elem(c, i), path), b);
    }
  }

  // ---- growing

  /** The list at `a`, and slot `s` to be moved to its end. The list is not inside its own buffer. */
  predicate CanPush(st: Store, a: Addr, s: nat) {
    && s in st.slots && ReadAt(Without(st, s), a).Some? && ReadAt(Without(st, s), a).value.ListV?
    && var b := ReadAt(Without(st, s), a).value.buffer;
       b in st.heap && ReadAt(Freed(st, s, b), a).Some?
  }

  function Freed(st: Store, s: nat, b: nat): Store { Without(st, s).(heap := st.heap - {b}) }

  /** The elements and the new one move to a new buffer; the old buffer is freed. */
  function Push(st: Store, a: Addr, s: nat): Store
    requires CanPush(st, a, s)
  {
    var b := ReadAt(Without(st, s), a).value.buffer;
    var w := WriteAt(Freed(st, s, b), a, ListV(st.next));
    Store(w.slots, w.heap[st.next := st.heap[b] + [st.slots[s]]], st.next + 1)
  }

  /** Where an owner after the growth was before. */
  function PushBack(st: Store, b: nat, s: nat, x: Addr): Addr
    requires b in st.heap
  {
    if x.base.Elem? && x.base.buffer == st.next then
      if x.base.index == |st.heap[b]| then Addr(Slot(s), x.path) else Addr(Elem(b, x.base.index), x.path)
    else x
  }

  lemma PushOwns(st: Store, a: Addr, s: nat, x: Addr, c: nat)
    requires Sound(st) && CanPush(st, a, s) && Owns(Push(st, a, s), x, c)
    ensures
      var b := ReadAt(Without(st, s), a).value.buffer;
      (c == st.next && x == a) || (c != st.next && c != b && x != a && Owns(st, PushBack(st, b, s, x), c))
  {
    var b := ReadAt(Without(st, s), a).value.buffer;
    var freed := Freed(st, s, b);
    NextIsFresh(st);
    assert Owns(st, a, b);
    if x.base.Elem? && x.base.buffer == st.next {
      assert Owns(st, PushBack(st, b, s, x), c);
    } else {
      OwnsWritten(freed, a, ListV(st.next), x, c);
      assert Owns(WriteAt(freed, a, ListV(st.next)), x, c);
      if Under(a, x) {
        assert x.path == a.path + x.path[|a.path|..];
      } else {
        assert Owns(st, x, c);
      }
    }
  }

  lemma PushSound(st: Store, a: Addr, s: nat)
    requires Sound(st) && CanPush(st, a, s)
    ensures Sound(Push(st, a, s))
  {
    var st' := Push(st, a, s);
    var b := ReadAt(Without(st, s), a).value.buffer;
    NextIsFresh(st);
    forall x, y, c | Owns(st', x, c) && Owns(st', y, c)
      ensures x == y && c in st'.heap
    {
      PushOwns(st, a, s, x, c);
      PushOwns(st, a, s, y, c);
      if c != st.next {
        assert Owns(st, PushBack(st, b, s, x), c) && Owns(st, PushBack(st, b, s, y), c);
        PushBackInjective(st, b, s, x, y, a, c);
      }
    }
  }

  lemma PushBackInjective(st: Store, b: nat, s: nat, x: Addr, y: Addr, a: Addr, c: nat)
    requires Sound(st) && CanPush(st, a, s) && b == ReadAt(Without(st, s), a).value.buffer
    requires Owns(Push(st, a, s), x, c) && Owns(Push(st, a, s), y, c) && x != a && y != a
    requires PushBack(st, b, s, x) == PushBack(st, b, s, y)
    ensures x == y
  {
    var st' := Push(st, a, s);
    assert s !in st'.slots && b !in st'.heap;
  }

  // ---- building objects

  /** The value in slot `s` becomes the next field of the object in slot `n`. */
  predicate CanAddField(st: Store, n: nat, s: nat) {
    s in st.slots && n in st.slots && n != s && st.slots[n].ObjV?
  }

  function AddField(st: Store, n: nat, s: nat): Store
    requires CanAddField(st, n, s)
  {
    var rest := Without(st, s);
    rest.(slots := rest.slots[n := ObjV(st.slots[n].fields + [st.slots[s]])])
  }

  function FieldBack(st: Store, n: nat, s: nat, x: Addr): Addr
    requires n in st.slots && st.slots[n].ObjV?
  {
    if x.base == Slot(n) && x.path != [] && x.path[0] == |st.slots[n].fields| then Addr(Slot(s), x.path[1..]) else x
  }

  lemma AddFieldSound(st: Store, n: nat, s: nat)
    requires Sound(st) && CanAddField(st, n, s)
    ensures Sound(AddField(st, n, s))
  {
    var st' := AddField(st, n, s);
    NextIsFresh(st);
    forall x, b: nat | Owns(st', x, b)
      ensures Owns(st, FieldBack(st, n, s, x), b)
    {
    }
    forall x, y, b: nat | Owns(st', x, b) && Owns(st', y, b) && FieldBack(st, n, s, x) == FieldBack(st, n, s, y)
      ensures x == y
    {
      assert s !in st'.slots;
      if x.path != [] && y.path != [] { assert x.path == [x.path[0]] + x.path[1..] && y.path == [y.path[0]] + y.path[1..]; }
    }
  }
}
