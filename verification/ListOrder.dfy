/** Moving one item back into its place, the step of list_sort, on values. */
module ListOrder {
  import opened Common
  import opened ListCursor

  type Cmp = (nat, nat) -> int

  predicate Less(f: Cmp, a: nat, b: nat) {
    f(a, b) < 0
  }

  predicate Equal(f: Cmp, a: nat, b: nat) {
    !Less(f, a, b) && !Less(f, b, a)
  }

  /** What a comparison function owes: a strict order with ties. */
  ghost predicate Ordered(f: Cmp) {
    && (forall a, b :: Less(f, a, b) ==> !Less(f, b, a))
    && (forall a, b, c :: !Less(f, b, a) && !Less(f, c, b) ==> !Less(f, c, a))
  }

  ghost predicate Pair<T>(s: seq<T>, key: T -> nat, f: Cmp, i: int, j: int) {
    0 <= i < j < |s| ==> !Less(f, key(s[j]), key(s[i]))
  }

  /** The first `m` items are in order. */
  ghost predicate SortedTo<T>(s: seq<T>, key: T -> nat, f: Cmp, m: nat) {
    forall i, j {:trigger Pair(s, key, f, i, j)} :: j < m ==> Pair(s, key, f, i, j)
  }

  /** The items tied with any value come in the order they came in. */
  ghost predicate StableOf<T>(s: seq<T>, t: seq<T>, key: T -> nat, f: Cmp) {
    forall a :: Tied(t, key, f, a) == Tied(s, key, f, a)
  }

  ghost function Tied<T>(s: seq<T>, key: T -> nat, f: Cmp, a: nat): seq<T> {
    Filter(s, x => Equal(f, key(x), a))
  }

  /** Item `m` goes to place `q`, in front of the items from there on. */
  function Move<T>(s: seq<T>, m: nat, q: nat): seq<T>
    requires q <= m < |s|
  {
    s[..q] + [s[m]] + s[q..m] + s[m + 1..]
  }

  /** `q` is the first place whose item is greater than item `m`. */
  ghost predicate Place<T>(s: seq<T>, key: T -> nat, f: Cmp, m: nat, q: nat)
    requires q <= m < |s|
  {
    && (q < m ==> Less(f, key(s[m]), key(s[q])))
    && forall i :: 0 <= i < q ==> !Less(f, key(s[m]), key(s[i]))
  }

  lemma LessAfter<T>(s: seq<T>, key: T -> nat, f: Cmp, m: nat, q: nat, i: nat)
    requires Ordered(f) && q <= i < m < |s| && SortedTo(s, key, f, m) && Place(s, key, f, m, q)
    ensures Less(f, key(s[m]), key(s[i]))
  {
    assert Pair(s, key, f, q, i);
  }

  lemma MoveSorts<T>(s: seq<T>, key: T -> nat, f: Cmp, m: nat, q: nat)
    requires Ordered(f) && q <= m < |s| && SortedTo(s, key, f, m) && Place(s, key, f, m, q)
    ensures SortedTo(Move(s, m, q), key, f, m + 1)
  {
    var t := Move(s, m, q);
    forall i, j | j < m + 1 ensures Pair(t, key, f, i, j) {
      if 0 <= i < j {
        MovedPair(s, key, f, m, q, i, j);
      }
    }
  }

  lemma MovedPair<T>(s: seq<T>, key: T -> nat, f: Cmp, m: nat, q: nat, i: nat, j: nat)
    requires Ordered(f) && q <= m < |s| && SortedTo(s, key, f, m) && Place(s, key, f, m, q) && i < j <= m
    ensures Pair(Move(s, m, q), key, f, i, j)
  {
    var t := Move(s, m, q);
    if j < q {
      assert Pair(s, key, f, i, j) && t[i] == s[i] && t[j] == s[j];
    } else if j == q {
      assert t[i] == s[i] && t[j] == s[m];
    } else if i == q {
      LessAfter(s, key, f, m, q, j - 1);
      assert t[i] == s[m] && t[j] == s[j - 1];
    } else {
      var k := if i < q then i else i - 1;
      assert t[i] == s[k] && t[j] == s[j - 1];
      assert Pair(s, key, f, k, j - 1);
    }
  }

  lemma {:induction false} FilterNone<T>(s: seq<T>, p: T -> bool)
    requires forall i :: 0 <= i < |s| ==> !p(s[i])
    ensures Filter(s, p) == []
  {
    if s != [] {
      FilterNone(s[1..], p);
    }
  }

  /** Passing items that do not count leaves the filtered sequence. */
  lemma FilterSwap<T>(a: seq<T>, b: seq<T>, x: T, c: seq<T>, p: T -> bool)
    requires p(x) ==> Filter(b, p) == []
    ensures Filter(a + [x] + b + c, p) == Filter(a + b + [x] + c, p)
  {
    FilterConcat(a + [x] + b, c, p);
    FilterConcat(a + [x], b, p);
    FilterConcat(a, [x], p);
    FilterConcat(a + b + [x], c, p);
    FilterConcat(a + b, [x], p);
    FilterConcat(a, b, p);
    FilterOne(x, p);
  }

  lemma MoveTied<T>(s: seq<T>, key: T -> nat, f: Cmp, m: nat, q: nat, a: nat)
    requires Ordered(f) && q <= m < |s| && SortedTo(s, key, f, m) && Place(s, key, f, m, q)
    ensures Tied(Move(s, m, q), key, f, a) == Tied(s, key, f, a)
  {
    var p := x => Equal(f, key(x), a);
    if p(s[m]) {
      forall i | 0 <= i < m - q ensures !p(s[q..m][i]) {
        LessAfter(s, key, f, m, q, q + i);
        assert s[q..m][i] == s[q + i];
      }
      FilterNone(s[q..m], p);
    }
    FilterSwap(s[..q], s[q..m], s[m], s[m + 1..], p);
    assert s == s[..q] + s[q..m] + [s[m]] + s[m + 1..];
  }

  lemma MoveStable<T>(s0: seq<T>, s: seq<T>, key: T -> nat, f: Cmp, m: nat, q: nat)
    requires Ordered(f) && q <= m < |s| && SortedTo(s, key, f, m) && Place(s, key, f, m, q) && StableOf(s0, s, key, f)
    ensures StableOf(s0, Move(s, m, q), key, f)
  {
    forall a ensures Tied(Move(s, m, q), key, f, a) == Tied(s0, key, f, a) {
      MoveTied(s, key, f, m, q, a);
      assert Tied(s, key, f, a) == Tied(s0, key, f, a);
    }
  }

  lemma MovePermutes<T>(s: seq<T>, m: nat, q: nat)
    requires q <= m < |s|
    ensures multiset(Move(s, m, q)) == multiset(s)
  {
    assert s == s[..q] + s[q..m] + [s[m]] + s[m + 1..];
  }
}
