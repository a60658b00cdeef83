/**
 What `copy()` and `take()` give: a copy has the same contents in buffers of its own and changes nothing
 that was there; a taken list moves as it is and an empty one stays behind.
 */
module ListCopy {
  import opened Options
  import opened ListHeap
  import opened ListOwnership
  import opened ListRuns

  /** `v` in `st` and `w` in `st'` have the same contents, and both have the type. */
  ghost predicate Same(st: Store, v: Value, st': Store, w: Value, t: Type)
    decreases t
  {
    match t
    case ScalarT => v == Scalar && w == Scalar
    case ListT(elem) =>
      && v.ListV? && w.ListV? && v.buffer in st.heap && w.buffer in st'.heap
      && |st.heap[v.buffer]| == |st'.heap[w.buffer]|
      && forall i :: 0 <= i < |st.heap[v.buffer]| ==> Same(st, st.heap[v.buffer][i], st', st'.heap[w.buffer][i], elem)
    case ObjT(fields) =>
      && v.ObjV? && w.ObjV? && |v.fields| == |fields| == |w.fields|
      && forall i :: 0 <= i < |fields| ==> Same(st, v.fields[i], st', w.fields[i], fields[i])
  }

  /** The value has the type, all the way down. */
  ghost predicate Typed(st: Store, v: Value, t: Type) { Same(st, v, st, v, t) }

  /** Nothing of `st` has changed in `st'`. */
  ghost predicate Keeps(st: Store, st': Store) {
    && st.next <= st'.next
    && (forall s :: s in st.slots ==> s in st'.slots && st'.slots[s] == st.slots[s])
    && (forall b :: b in st.heap ==> b in st'.heap && st'.heap[b] == st.heap[b])
  }

  lemma {:induction false} SameLater(st: Store, v: Value, y: Store, y': Store, w: Value, t: Type)
    requires Same(st, v, y, w, t) && Keeps(y, y')
    ensures Same(st, v, y', w, t)
    decreases t
  {
    match t
    case ScalarT =>
    case ListT(elem) =>
      forall i | 0 <= i < |st.heap[v.buffer]|
        ensures Same(st, st.heap[v.buffer][i], y', y'.heap[w.buffer][i], elem)
      {
        SameLater(st, st.heap[v.buffer][i], y, y', y.heap[w.buffer][i], elem);
      }
    case ObjT(fields) =>
      forall i | 0 <= i < |fields|
        ensures Same(st, v.fields[i], y', w.fields[i], fields[i])
      {
        SameLater(st, v.fields[i], y, y', w.fields[i], fields[i]);
      }
  }

  lemma {:induction false} TypedLater(st: Store, st': Store, v: Value, t: Type)
    requires Typed(st, v, t) && Keeps(st, st')
    ensures Typed(st', v, t)
    decreases t
  {
    match t
    case ScalarT =>
    case ListT(elem) =>
      forall i | 0 <= i < |st.heap[v.buffer]|
        ensures Typed(st', st'.heap[v.buffer][i], elem)
      {
        TypedLater(st, st', st.heap[v.buffer][i], elem);
      }
    case ObjT(fields) =>
      forall i | 0 <= i < |fields|
        ensures Typed(st', v.fields[i], fields[i])
      {
        TypedLater(st, st', v.fields[i], fields[i]);
      }
  }

  /** What is the same as a value of `st`, seen from a later store, is the same seen from `st`. */
  lemma {:induction false} SameBack(st: Store, st': Store, v: Value, y: Store, w: Value, t: Type)
    requires Typed(st, v, t) && Keeps(st, st') && Same(st', v, y, w, t)
    ensures Same(st, v, y, w, t)
    decreases t
  {
    match t
    case ScalarT =>
    case ListT(elem) =>
      forall i | 0 <= i < |st.heap[v.buffer]|
        ensures Same(st, st.heap[v.buffer][i], y, y.heap[w.buffer][i], elem)
      {
        SameBack(st, st', st.heap[v.buffer][i], y, y.heap[w.buffer][i], elem);
      }
    case ObjT(fields) =>
      forall i | 0 <= i < |fields|
        ensures Same(st, v.fields[i], y, w.fields[i], fields[i])
      {
        SameBack(st, st', v.fields[i], y, w.fields[i], fields[i]);
      }
  }

  /** Freeing a buffer owned elsewhere does not touch a value. */
  lemma {:induction false} SameWithout(st: Store, v: Value, y: Store, a: Addr, w: Value, y': Store, n: nat, t: Type)
    requires Same(st, v, y, w, t) && ReadAt(y, a) == Some(w) && SingleOwner(y)
    requires n in y.slots && y.slots[n].ListV? && a.base != Slot(n)
    requires forall b :: b in y.heap && b != y.slots[n].buffer ==> b in y'.heap && y'.heap[b] == y.heap[b]
    ensures Same(st, v, y', w, t)
    decreases t
  {
    match t
    case ScalarT =>
    case ListT(elem) =>
      var b := w.buffer;
      assert Owns(y, a, b) && Owns(y, Addr(Slot(n), []), y.slots[n].buffer);
      forall i | 0 <= i < |st.heap[v.buffer]|
        ensures Same(st, st.heap[v.buffer][i], y', y'.heap[b][i], elem)
      {
        SameWithout(st, st.heap[v.buffer][i], y, Addr(Elem(b, i), []), y.heap[b][i], y', n, elem);
      }
    case ObjT(fields) =>
      forall i | 0 <= i < |fields|
        ensures Same(st, v.fields[i], y', w.fields[i], fields[i])
      {
        AtAppend(BaseValue(y, a.base).value, a.path, [i]);
        assert At(w, [i]) == Some(w.fields[i]) by { assert [i][1..] == []; }
        SameWithout(st, v.fields[i], y, Addr(a.base, a.path + [i]), w.fields[i], y', n, fields[i]);
      }
  }

  /** The copy is made: a new slot with the same contents, and nothing else changed. */
  ghost predicate Copied(st: Store, v: Value, t: Type, r: Option<(nat, Store)>) {
    && r.Some? && Sound(r.value.1) && Keeps(st, r.value.1)
    && r.value.0 >= st.next && r.value.0 in r.value.1.slots
    && Same(st, v, r.value.1, r.value.1.slots[r.value.0], t)
  }

  /** copy() succeeds on every value that has its type. */
  lemma {:induction false} CopyRight(st: Store, a: Addr, t: Type)
    requires Sound(st) && ReadAt(st, a).Some? && Typed(st, ReadAt(st, a).value, t)
    ensures Copied(st, ReadAt(st, a).value, t, Copy(st, a, t))
    decreases t, 2, 0
  {
    var v := ReadAt(st, a).value;
    PlainScalar();
    match t
    case ScalarT => AddPlainSound(st, Scalar);
    case ListT(elem) =>
      NewListSound(st);
      ElemsRight(st, NewList(st), v.buffer, |st.heap[v.buffer]|, st.next, elem);
    case ObjT(_) =>
      AddPlainSound(st, ObjV([]));
      FieldsRight(st, AddValue(st, ObjV([])), a, v, 0, st.next, t);
  }

  /** All but the last `left` elements of buffer `b` have been copied onto the list in slot `n`. */
  ghost predicate CopiedUpTo(st0: Store, st: Store, b: nat, left: nat, n: nat, elem: Type) {
    && Sound(st) && Keeps(st0, st) && b in st0.heap && left <= |st0.heap[b]|
    && st0.next <= n && n in st.slots && st.slots[n].ListV?
    && var c := st.slots[n].buffer;
       && st0.next <= c && c in st.heap && |st.heap[c]| == |st0.heap[b]| - left
       && forall k :: 0 <= k < |st.heap[c]| ==> Same(st0, st0.heap[b][k], st, st.heap[c][k], elem)
  }

  lemma {:induction false} ElemsRight(st0: Store, st: Store, b: nat, left: nat, n: nat, elem: Type)
    requires Sound(st0) && CopiedUpTo(st0, st, b, left, n, elem)
    requires forall k :: 0 <= k < |st0.heap[b]| ==> Typed(st0, st0.heap[b][k], elem)
    ensures var r := CopyElems(st, b, left, n, elem);
            r.Some? && r.value.0 == n && CopiedUpTo(st0, r.value.1, b, 0, n, elem)
    decreases elem, 3, left
  {
    if left > 0 {
      var r := ElemNext(st0, st, b, left, n, elem);
      ElemsRight(st0, Push(r.value.1, Addr(Slot(n), []), r.value.0), b, left - 1, n, elem);
    }
  }

  /** The next element is copied and pushed. */
  lemma {:induction false} ElemNext(st0: Store, st: Store, b: nat, left: nat, n: nat, elem: Type) returns (r: Option<(nat, Store)>)
    requires Sound(st0) && CopiedUpTo(st0, st, b, left, n, elem) && left > 0
    requires forall k :: 0 <= k < |st0.heap[b]| ==> Typed(st0, st0.heap[b][k], elem)
    ensures r == Copy(st, Addr(Elem(b, |st.heap[b]| - left), []), elem) && r.Some?
    ensures CanPush(r.value.1, Addr(Slot(n), []), r.value.0)
    ensures CopiedUpTo(st0, Push(r.value.1, Addr(Slot(n), []), r.value.0), b, left - 1, n, elem)
    decreases elem, 2, 1
  {
    var k := |st0.heap[b]| - left;
    TypedLater(st0, st, st0.heap[b][k], elem);
    CopyRight(st, Addr(Elem(b, k), []), elem);
    r := Copy(st, Addr(Elem(b, k), []), elem);
    PushRight(st0, st, b, left, n, elem, r.value.0, r.value.1);
  }

  lemma PushRight(st0: Store, st: Store, b: nat, left: nat, n: nat, elem: Type, s: nat, st1: Store)
    requires Sound(st0) && CopiedUpTo(st0, st, b, left, n, elem) && left > 0
    requires forall k :: 0 <= k < |st0.heap[b]| ==> Typed(st0, st0.heap[b][k], elem)
    requires Copied(st, st0.heap[b][|st0.heap[b]| - left], elem, Some((s, st1)))
    ensures CanPush(st1, Addr(Slot(n), []), s)
    ensures CopiedUpTo(st0, Push(st1, Addr(Slot(n), []), s), b, left - 1, n, elem)
  {
    var at := Addr(Slot(n), []);
    var c := st.slots[n].buffer;
    assert ReadAt(Without(st1, s), at) == Some(ListV(c)) && ReadAt(Freed(st1, s, c), at) == Some(ListV(c));
    var st2 := Push(st1, at, s);
    PushSound(st1, at, s);
    var d := st2.slots[n].buffer;
    assert st2.heap[d] == st1.heap[c] + [st1.slots[s]];
    var last := |st0.heap[b]| - left;
    forall k | 0 <= k <= last
      ensures Same(st0, st0.heap[b][k], st2, st2.heap[d][k], elem)
    {
      if k < last {
        SameLater(st0, st0.heap[b][k], st, st1, st.heap[c][k], elem);
        SameWithout(st0, st0.heap[b][k], st1, Addr(Elem(c, k), []), st1.heap[c][k], st2, n, elem);
      } else {
        SameBack(st0, st, st0.heap[b][k], st1, st1.slots[s], elem);
        SameWithout(st0, st0.heap[b][k], st1, Addr(Slot(s), []), st1.slots[s], st2, n, elem);
      }
    }
  }

  /** The first `i` fields of `v` have been copied into the object in slot `n`. */
  ghost predicate FieldsUpTo(st0: Store, st: Store, v: Value, i: nat, n: nat, t: Type) {
    && Sound(st) && Keeps(st0, st) && t.ObjT? && v.ObjV? && |v.fields| == |t.fields| && i <= |t.fields|
    && st0.next <= n && n in st.slots && st.slots[n].ObjV? && |st.slots[n].fields| == i
    && forall k :: 0 <= k < i ==> Same(st0, v.fields[k], st, st.slots[n].fields[k], t.fields[k])
  }

  lemma {:induction false} FieldsRight(st0: Store, st: Store, a: Addr, v: Value, i: nat, n: nat, t: Type)
    requires Sound(st0) && ReadAt(st0, a) == Some(v) && Typed(st0, v, t) && FieldsUpTo(st0, st, v, i, n, t)
    ensures var r := CopyFields(st, a, i, n, t);
            r.Some? && r.value.0 == n && FieldsUpTo(st0, r.value.1, v, |t.fields|, n, t)
    decreases t, 1, |t.fields| - i
  {
    if i < |t.fields| {
      var from := Addr(a.base, a.path + [i]);
      AtAppend(BaseValue(st0, a.base).value, a.path, [i]);
      assert At(v, [i]) == Some(v.fields[i]) by { assert [i][1..] == []; }
      assert ReadAt(st, from) == Some(v.fields[i]);
      TypedLater(st0, st, v.fields[i], t.fields[i]);
      CopyRight(st, from, t.fields[i]);
      var s, st1 := Copy(st, from, t.fields[i]).value.0, Copy(st, from, t.fields[i]).value.1;
      AddRight(st0, st, v, i, n, t, s, st1);
      FieldsRight(st0, AddField(st1, n, s), a, v, i + 1, n, t);
    }
  }

  lemma AddRight(st0: Store, st: Store, v: Value, i: nat, n: nat, t: Type, s: nat, st1: Store)
    requires Sound(st0) && Typed(st0, v, t) && FieldsUpTo(st0, st, v, i, n, t) && i < |t.fields|
    requires Copied(st, v.fields[i], t.fields[i], Some((s, st1)))
    ensures CanAddField(st1, n, s) && FieldsUpTo(st0, AddField(st1, n, s), v, i + 1, n, t)
  {
    AddFieldSound(st1, n, s);
    var st2 := AddField(st1, n, s);
    forall k | 0 <= k <= i
      ensures Same(st0, v.fields[k], st2, st2.slots[n].fields[k], t.fields[k])
    {
      if k < i {
        SameLater(st0, v.fields[k], st, st1, st.slots[n].fields[k], t.fields[k]);
      } else {
        SameBack(st0, st, v.fields[i], st1, st1.slots[s], t.fields[i]);
      }
      SameHeap(st0, v.fields[k], st1, st2, st2.slots[n].fields[k], t.fields[k]);
    }
  }

  lemma {:induction false} SameHeap(st: Store, v: Value, y: Store, y': Store, w: Value, t: Type)
    requires Same(st, v, y, w, t) && y.heap == y'.heap
    ensures Same(st, v, y', w, t)
    decreases t
  {
    match t
    case ScalarT =>
    case ListT(elem) =>
      forall i | 0 <= i < |st.heap[v.buffer]|
        ensures Same(st, st.heap[v.buffer][i], y', y'.heap[w.buffer][i], elem)
      {
        SameHeap(st, st.heap[v.buffer][i], y, y', y.heap[w.buffer][i], elem);
      }
    case ObjT(fields) =>
      forall i | 0 <= i < |fields|
        ensures Same(st, v.fields[i], y', w.fields[i], fields[i])
      {
        SameHeap(st, v.fields[i], y, y', w.fields[i], fields[i]);
      }
  }

  /** take(): the buffer at the place moves to the result, and the place has a new empty one. */
  lemma TakeRight(w: World, place: Place, env: Env, m: Machine, a: Addr, b: nat)
    requires Sound(m.st) && Locate(w.o, place, env, m, 1) == Some(a) && Owns(m.st, a, b)
    ensures var r := TakePlace(w, place, env, m);
            && r.Got? && Owns(r.m.st, Addr(Slot(r.slot), []), b)
            && Owns(r.m.st, a, m.st.next) && r.m.st.heap[m.st.next] == []
  {
    var st, s := NewList(m.st), m.st.next;
    assert ReadAt(Without(st, s), a) == ReadAt(m.st, a);
    assert Owns(st, a, b) && Owns(st, Addr(Slot(s), []), s);
    SwapOwns(st, a, s, Addr(Slot(s), []), b);
    SwapOwns(st, a, s, a, s);
    assert a.path + [] == a.path && a.path[|a.path|..] == [];
  }
}
