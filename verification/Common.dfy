/** Small shared definitions: an option type and facts about sequences without repetition. */
module Common {

  datatype Option<+T> = None | Some(value: T)

  /** No value occurs twice in `q`. */
  ghost predicate Distinct<T>(q: seq<T>) {
    forall i, j :: 0 <= i < j < |q| ==> q[i] != q[j]
  }

  ghost predicate PairApart<T>(q: seq<T>, i: int, j: int) {
    0 <= i < j < |q| ==> q[i] != q[j]
  }

  /** The same, in a form that is used only where `PairApart` is mentioned: cheaper for linked nodes. */
  ghost predicate Separate<T>(q: seq<T>) {
    forall i, j {:trigger PairApart(q, i, j)} :: PairApart(q, i, j)
  }

  lemma Assoc<T>(a: seq<T>, b: seq<T>, c: seq<T>)
    ensures a + b + c == a + (b + c)
  {
  }

  /** `q` without its first occurrence of `x`. */
  function Without<T(==)>(q: seq<T>, x: T): (r: seq<T>) {
    if q == [] then [] else if q[0] == x then q[1..] else [q[0]] + Without(q[1..], x)
  }

  /** In a sequence without repetition, `Without` removes exactly `x`. */
  lemma {:induction false} WithoutMembers<T>(q: seq<T>, x: T)
    requires Distinct(q)
    ensures Distinct(Without(q, x))
    ensures forall y :: y in Without(q, x) <==> y in q && y != x
  {
    if q != [] {
      WithoutMembers(q[1..], x);
      assert q == [q[0]] + q[1..];
      if q[0] != x {
        var t := Without(q[1..], x);
        assert q[0] !in t;
        assert forall y :: y in [q[0]] + t <==> y == q[0] || y in t;
      }
    }
  }
}
