/**
  Iterators that survive changes of the list, on values: an iterator is a slot, the address of
  a next pointer, and the node it will return next, which is the one the slot addresses or the
  one after it.
*/
module ListCursor {
  import opened Common

  /** The slot before item `k`; the next item is `k` or `k + 1`. */
  datatype Cursor = Cursor(k: nat, d: nat)

  predicate CursorOk(c: Cursor, n: nat) {
    c.d <= 1 && c.k + c.d <= n
  }

  /** After an item is put in slot `j`. */
  function Created(c: Cursor, j: nat): Cursor {
    if c.k >= j then Cursor(c.k + 1, c.d) else c
  }

  /** After the item in slot `j` is taken out. */
  function Destroyed(c: Cursor, j: nat): Cursor {
    if c.k > j then Cursor(c.k - 1, c.d) else if c.k + c.d >= j then Cursor(j, 0) else c
  }

  /** After list_next in a list of `n`. */
  function Advanced(c: Cursor, n: nat): Cursor {
    if c.k + c.d < n then Cursor(c.k + c.d, 1) else Cursor(n, 0)
  }

  function PutAt<T>(items: seq<T>, j: nat, x: T): seq<T>
    requires j <= |items|
  {
    items[..j] + [x] + items[j..]
  }

  function TakeAt<T>(items: seq<T>, j: nat): seq<T>
    requires j < |items|
  {
    items[..j] + items[j + 1..]
  }

  // ---- parts of a sequence ----

  /** The elements that satisfy `p`, in order. */
  function Filter<T>(s: seq<T>, p: T -> bool): seq<T> {
    if s == [] then [] else if p(s[0]) then [s[0]] + Filter(s[1..], p) else Filter(s[1..], p)
  }

  lemma {:induction false} FilterConcat<T>(s: seq<T>, t: seq<T>, p: T -> bool)
    ensures Filter(s + t, p) == Filter(s, p) + Filter(t, p)
  {
    if s == [] {
      assert s + t == t;
    } else {
      FilterConcat(s[1..], t, p);
      assert (s + t)[1..] == s[1..] + t;
    }
  }

  lemma FilterOne<T>(x: T, p: T -> bool)
    ensures Filter([x], p) == if p(x) then [x] else []
  {
    assert [x][1..] == [];
  }

  lemma FilterAround<T>(s: seq<T>, x: T, t: seq<T>, p: T -> bool)
    requires !p(x)
    ensures Filter(s + [x] + t, p) == Filter(s + t, p)
  {
    FilterConcat(s + [x], t, p);
    FilterConcat(s, [x], p);
    FilterOne(x, p);
    FilterConcat(s, t, p);
    assert Filter(s, p) + [] == Filter(s, p);
  }

  /** An element outside `p` more or less makes no difference. */
  lemma FilterPut<T>(s: seq<T>, j: nat, x: T, p: T -> bool)
    requires j <= |s| && !p(x)
    ensures Filter(PutAt(s, j, x), p) == Filter(s, p)
  {
    FilterAround(s[..j], x, s[j..], p);
    assert s[..j] + s[j..] == s;
  }

  lemma FilterTake<T>(s: seq<T>, j: nat, p: T -> bool)
    requires j < |s| && !p(s[j])
    ensures Filter(TakeAt(s, j), p) == Filter(s, p)
  {
    FilterPut(TakeAt(s, j), j, s[j], p);
    assert PutAt(TakeAt(s, j), j, s[j]) == s;
  }

  // ---- a traversal while the list changes ----

  /** The list, the iterator, and what list_next has returned through it. */
  datatype Walk<T> = Walk(items: seq<T>, c: Cursor, out: seq<T>)

  /** What any thread may do; insertions and removals through the iterator itself are among them. */
  datatype Step<T> = Insert(j: nat, x: T) | Delete(j: nat) | Advance

  ghost predicate Can<T(!new)>(w: Walk<T>, a: Step<T>) {
    match a
    case Insert(j, x) => j <= |w.items| && x !in w.items
    case Delete(j) => j < |w.items|
    case Advance => true
  }

  ghost function After<T(!new)>(w: Walk<T>, a: Step<T>): Walk<T>
    requires Can(w, a)
  {
    match a
    case Insert(j, x) => Walk(PutAt(w.items, j, x), Created(w.c, j), w.out)
    case Delete(j) => Walk(TakeAt(w.items, j), Destroyed(w.c, j), w.out)
    case Advance =>
      Walk(w.items, Advanced(w.c, |w.items|),
           if w.c.k + w.c.d < |w.items| then w.out + [w.items[w.c.k + w.c.d]] else w.out)
  }

  /** A traversal from list_iterator_reset on. */
  ghost predicate Run<T(!new)>(ws: seq<Walk<T>>, acts: seq<Step<T>>) {
    && |ws| == |acts| + 1 && Distinct(ws[0].items) && ws[0].c == Cursor(0, 0) && ws[0].out == []
    && forall i :: 0 <= i < |acts| ==> Can(ws[i], acts[i]) && ws[i + 1] == After(ws[i], acts[i])
  }

  ghost function Ahead<T>(w: Walk<T>): seq<T>
    requires CursorOk(w.c, |w.items|)
  {
    w.items[w.c.k + w.c.d..]
  }

  /** In no list of the run is `x` missing. */
  ghost predicate Throughout<T(!new)>(ws: seq<Walk<T>>, n: nat, x: T)
    requires n < |ws|
  {
    forall i :: 0 <= i <= n ==> x in ws[i].items
  }

  /** An insertion is made before the next item or after it, and a removal likewise. */
  lemma AheadAfterInsert<T(!new)>(w: Walk<T>, j: nat, x: T)
    requires CursorOk(w.c, |w.items|) && j <= |w.items|
    ensures var t := Walk(PutAt(w.items, j, x), Created(w.c, j), w.out); var q := w.c.k + w.c.d;
      && CursorOk(t.c, |t.items|)
      && Ahead(t) == if q <= j && w.c.k < j then PutAt(Ahead(w), j - q, x) else Ahead(w)
  {
  }

  lemma AheadAfterDelete<T(!new)>(w: Walk<T>, j: nat)
    requires CursorOk(w.c, |w.items|) && j < |w.items|
    ensures var t := Walk(TakeAt(w.items, j), Destroyed(w.c, j), w.out); var q := w.c.k + w.c.d;
      && CursorOk(t.c, |t.items|)
      && Ahead(t) == if q <= j then TakeAt(Ahead(w), j - q) else Ahead(w)
  {
  }

  lemma InsertStep<T(!new)>(w: Walk<T>, j: nat, x: T, p: T -> bool)
    requires CursorOk(w.c, |w.items|) && Can(w, Insert(j, x)) && !p(x)
    ensures var t := After(w, Insert(j, x)); CursorOk(t.c, |t.items|) && Filter(Ahead(t), p) == Filter(Ahead(w), p)
  {
    AheadAfterInsert(w, j, x);
    var q := w.c.k + w.c.d;
    if q <= j && w.c.k < j {
      FilterPut(Ahead(w), j - q, x, p);
    }
  }

  lemma DeleteStep<T(!new)>(w: Walk<T>, j: nat, p: T -> bool)
    requires CursorOk(w.c, |w.items|) && Can(w, Delete(j)) && !p(w.items[j])
    ensures var t := After(w, Delete(j)); CursorOk(t.c, |t.items|) && Filter(Ahead(t), p) == Filter(Ahead(w), p)
  {
    AheadAfterDelete(w, j);
    var q := w.c.k + w.c.d;
    if q <= j {
      FilterTake(Ahead(w), j - q, p);
    }
  }

  lemma AdvanceStep<T(!new)>(w: Walk<T>, p: T -> bool)
    requires CursorOk(w.c, |w.items|)
    ensures var t := After(w, Advance); CursorOk(t.c, |t.items|) && t.out + Ahead(t) == w.out + Ahead(w)
  {
    var q := w.c.k + w.c.d;
    if q < |w.items| {
      assert w.items[q..] == [w.items[q]] + w.items[q + 1..];
    }
  }

  /** Distinct items stay distinct. */
  lemma PutDistinct<T(!new)>(q: seq<T>, j: nat, x: T)
    requires Distinct(q) && j <= |q| && x !in q
    ensures Distinct(PutAt(q, j, x))
  {
    var t := PutAt(q, j, x);
    forall a, b | 0 <= a < b < |t| ensures t[a] != t[b] {
      assert t[a] == if a < j then q[a] else if a == j then x else q[a - 1];
      assert t[b] == if b < j then q[b] else if b == j then x else q[b - 1];
    }
  }

  lemma TakeDistinct<T(!new)>(q: seq<T>, j: nat)
    requires Distinct(q) && j < |q|
    ensures Distinct(TakeAt(q, j)) && q[j] !in TakeAt(q, j)
  {
    var t := TakeAt(q, j);
    forall a | 0 <= a < |t| ensures t[a] == if a < j then q[a] else q[a + 1] {
    }
  }

  lemma ItemsDistinct<T(!new)>(w: Walk<T>, a: Step<T>)
    requires Distinct(w.items) && Can(w, a)
    ensures Distinct(After(w, a).items)
    ensures a.Delete? ==> w.items[a.j] !in After(w, a).items
  {
    match a
    case Insert(j, x) => PutDistinct(w.items, j, x);
    case Delete(j) => TakeDistinct(w.items, j);
    case Advance =>
  }

  lemma StepKeeps<T(!new)>(w: Walk<T>, a: Step<T>, p: T -> bool)
    requires CursorOk(w.c, |w.items|) && Distinct(w.items) && Can(w, a)
    requires forall x :: p(x) ==> x in w.items && x in After(w, a).items
    ensures var t := After(w, a);
      CursorOk(t.c, |t.items|) && Filter(t.out + Ahead(t), p) == Filter(w.out + Ahead(w), p)
  {
    var t := After(w, a);
    ItemsDistinct(w, a);
    match a {
      case Insert(j, x) => InsertStep(w, j, x, p);
      case Delete(j) => DeleteStep(w, j, p);
      case Advance => AdvanceStep(w, p);
    }
    if !a.Advance? {
      FilterConcat(w.out, Ahead(w), p);
      FilterConcat(t.out, Ahead(t), p);
    }
  }

  /** What was returned and what lies ahead hold the lasting items in their order, each once. */
  ghost predicate Kept<T(!new)>(w: Walk<T>, p: T -> bool, lasting: seq<T>) {
    CursorOk(w.c, |w.items|) && Distinct(w.items) && Filter(w.out + Ahead(w), p) == lasting
  }

  lemma KeptOn<T(!new)>(w: Walk<T>, a: Step<T>, t: Walk<T>, p: T -> bool, lasting: seq<T>)
    requires Kept(w, p, lasting) && Can(w, a) && t == After(w, a)
    requires forall x :: p(x) ==> x in w.items && x in t.items
    ensures Kept(t, p, lasting)
  {
    ItemsDistinct(w, a);
    StepKeeps(w, a, p);
  }

  lemma {:induction false} RunKeeps<T(!new)>(ws: seq<Walk<T>>, acts: seq<Step<T>>, n: nat, p: T -> bool)
    requires Run(ws, acts) && n < |ws| && forall x :: p(x) ==> Throughout(ws, n, x)
    ensures Kept(ws[n], p, Filter(ws[0].items, p))
  {
    if n == 0 {
      assert ws[0].out + Ahead(ws[0]) == ws[0].items;
    } else {
      forall x | p(x) ensures Throughout(ws, n - 1, x) && x in ws[n - 1].items && x in ws[n].items {
        assert Throughout(ws, n, x);
      }
      RunKeeps(ws, acts, n - 1, p);
      KeptOn(ws[n - 1], acts[n - 1], ws[n], p, Filter(ws[0].items, p));
    }
  }

  /**
    When list_next comes to the end, the items that were in the list all along have been
    returned exactly once each, in list order, whatever was inserted and removed meanwhile.
  */
  lemma TraversalComplete<T(!new)>(ws: seq<Walk<T>>, acts: seq<Step<T>>, n: nat, p: T -> bool)
    requires Run(ws, acts) && n < |ws| && forall x :: p(x) <==> Throughout(ws, n, x)
    requires ws[n].c.k + ws[n].c.d == |ws[n].items|
    ensures Filter(ws[n].out, p) == Filter(ws[0].items, p)
    ensures Distinct(Filter(ws[n].out, p))
    ensures forall x :: Throughout(ws, n, x) <==> x in Filter(ws[n].out, p)
  {
    RunKeeps(ws, acts, n, p);
    assert ws[n].out + Ahead(ws[n]) == ws[n].out;
    FilterDistinct(ws[0].items, p);
    forall x ensures Throughout(ws, n, x) <==> x in Filter(ws[0].items, p) {
      FilterMember(ws[0].items, p, x);
    }
  }

  lemma {:induction false} FilterMember<T>(s: seq<T>, p: T -> bool, x: T)
    ensures x in Filter(s, p) <==> x in s && p(x)
  {
    if s != [] {
      FilterMember(s[1..], p, x);
    }
  }

  lemma {:induction false} FilterDistinct<T>(s: seq<T>, p: T -> bool)
    requires Distinct(s)
    ensures Distinct(Filter(s, p))
  {
    if s != [] {
      FilterDistinct(s[1..], p);
      FilterMember(s[1..], p, s[0]);
    }
  }
}
