/**
  Sequences of hostranges: the hosts they stand for, and the facts about splitting, joining and
  permuting ranges that the hostlist operations rest on.
*/
module HostSeq {
  import opened HostRange

  function All(hr: seq<Range>): (h: seq<Host>)
  {
    if hr == [] then [] else Expand(hr[0]) + All(hr[1..])
  }

  function Total(hr: seq<Range>): int {
    if hr == [] then 0 else Count(hr[0]) + Total(hr[1..])
  }

  predicate AllWellFormed(hr: seq<Range>) {
    forall r :: r in hr ==> WellFormed(r)
  }

  lemma {:induction false} AllConcat(a: seq<Range>, b: seq<Range>)
    ensures All(a + b) == All(a) + All(b)
    ensures Total(a + b) == Total(a) + Total(b)
  {
    if a == [] {
      assert a + b == b;
    } else {
      assert (a + b)[1..] == a[1..] + b;
      AllConcat(a[1..], b);
    }
  }

  /** The hosts of a list around one of its ranges. */
  lemma {:induction false} AllAround(pre: seq<Range>, mid: seq<Range>, post: seq<Range>)
    ensures All(pre + mid + post) == All(pre) + All(mid) + All(post)
    ensures Total(pre + mid + post) == Total(pre) + Total(mid) + Total(post)
  {
    AllConcat(pre + mid, post);
    AllConcat(pre, mid);
  }

  lemma {:induction false} AllOne(r: Range)
    ensures All([r]) == Expand(r) && Total([r]) == Count(r)
  {
    assert [r][1..] == [];
  }

  lemma {:induction false} TotalCounts(hr: seq<Range>)
    requires AllWellFormed(hr)
    ensures |All(hr)| == Total(hr)
  {
    if hr != [] {
      assert WellFormed(hr[0]);
      TotalCounts(hr[1..]);
    }
  }

  // ---- counting a host ----

  /** How often `x` is a host of `r`. */
  function One(r: Range, x: Host): nat {
    match x
    case Named(name) => if r.single && r.prefix == name then 1 else 0
    case Numbered(prefix, num, len) =>
      if !r.single && r.prefix == prefix && r.lo <= num <= r.hi && len == Len(num, r.width) then 1 else 0
  }

  function Occ(hr: seq<Range>, x: Host): nat {
    if hr == [] then 0 else One(hr[0], x) + Occ(hr[1..], x)
  }

  lemma {:induction false} OccConcat(a: seq<Range>, b: seq<Range>, x: Host)
    ensures Occ(a + b, x) == Occ(a, x) + Occ(b, x)
  {
    if a == [] {
      assert a + b == b;
    } else {
      assert (a + b)[1..] == a[1..] + b;
      OccConcat(a[1..], b, x);
    }
  }

  lemma {:induction false} HostsCount(prefix: string, lo: nat, hi: nat, w: nat, x: Host)
    ensures multiset(Hosts(prefix, lo, hi, w))[x] == One(Range(prefix, lo, hi, w, false), x)
    decreases hi - lo
  {
    if lo > hi {
      assert Hosts(prefix, lo, hi, w) == [];
    } else {
      HostsCount(prefix, lo + 1, hi, w, x);
      CountCons(Numbered(prefix, lo, Len(lo, w)), Hosts(prefix, lo + 1, hi, w), x);
      OneCons(prefix, lo, hi, w, x, Len(lo, w));
    }
  }

  lemma {:induction false} OneCons(prefix: string, lo: nat, hi: nat, w: nat, x: Host, len: nat)
    requires lo <= hi && len == Len(lo, w)
    ensures One(Range(prefix, lo, hi, w, false), x) ==
              (if x == Numbered(prefix, lo, len) then 1 else 0) + One(Range(prefix, lo + 1, hi, w, false), x)
  {
  }

  lemma {:induction false} CountCons(h: Host, t: seq<Host>, x: Host)
    ensures multiset([h] + t)[x] == (if h == x then 1 else 0) + multiset(t)[x]
  {
  }

  lemma {:induction false} ExpandCount(r: Range, x: Host)
    ensures multiset(Expand(r))[x] == One(r, x)
  {
    if !r.single {
      HostsCount(r.prefix, r.lo, r.hi, r.width, x);
    }
  }

  lemma {:induction false} OccIsCount(hr: seq<Range>, x: Host)
    ensures multiset(All(hr))[x] == Occ(hr, x)
  {
    if hr != [] {
      OccIsCount(hr[1..], x);
      ExpandCount(hr[0], x);
    }
  }

  /** Lists that count every host alike hold the same hosts. */
  lemma {:induction false} SameBag(a: seq<Range>, b: seq<Range>)
    requires forall x :: Occ(a, x) == Occ(b, x)
    ensures multiset(All(a)) == multiset(All(b)) && |All(a)| == |All(b)|
  {
    forall x: Host ensures multiset(All(a))[x] == multiset(All(b))[x] {
      OccIsCount(a, x);
      OccIsCount(b, x);
    }
    assert |multiset(All(a))| == |All(a)| && |multiset(All(b))| == |All(b)|;
  }

  // ---- order ----

  predicate Link(a: Range, b: Range) {
    Le(a, b) && Near(a, b)
  }

  /** Each range may follow the one before it, and hostrange_cmp says so. */
  predicate Sorted(hr: seq<Range>) {
    forall k :: 0 < k < |hr| ==> Link(hr[k - 1], hr[k])
  }

  lemma {:induction false} SortedPairs(hr: seq<Range>, i: nat, j: nat)
    requires Sorted(hr) && i < j < |hr|
    ensures Le(hr[i], hr[j])
  {
    assert Link(hr[j - 1], hr[j]);
    if i < j - 1 {
      SortedPairs(hr, i, j - 1);
      LeTrans(hr[i], hr[j - 1], hr[j]);
    }
  }

  /** hostrange_cmp orders every two ranges of the list. */
  predicate Comparable(hr: seq<Range>) {
    forall a, b :: a in hr && b in hr ==> Near(a, b)
  }

  lemma {:induction false} SortedConcat(a: seq<Range>, b: seq<Range>)
    requires Sorted(a) && Sorted(b) && (a != [] && b != [] ==> Link(a[|a| - 1], b[0]))
    ensures Sorted(a + b)
  {
  }

  /** Ranges of one prefix have one width. */
  predicate Uniform(hr: seq<Range>) {
    forall a, b :: a in hr && b in hr ==> SameWidth(a, b)
  }

  predicate SameWidth(a: Range, b: Range) {
    a.prefix == b.prefix && !a.single && !b.single ==> a.width == b.width
  }

  predicate SameShape(a: Range, b: Range) {
    a.prefix == b.prefix && a.single == b.single && a.width == b.width
  }

  /** Every width in `t` is one that `hr` has for the same prefix. */
  predicate ShapesFrom(t: seq<Range>, hr: seq<Range>) {
    forall x :: x in t ==> exists y :: y in hr && SameShape(x, y)
  }

  lemma {:induction false} UniformFrom(t: seq<Range>, hr: seq<Range>)
    requires Uniform(hr) && ShapesFrom(t, hr)
    ensures Uniform(t)
  {
    forall a, b | a in t && b in t ensures SameWidth(a, b) {
      var a' :| a' in hr && SameShape(a, a');
      var b' :| b' in hr && SameShape(b, b');
      assert SameWidth(a', b');
    }
  }

  lemma {:induction false} ShapesTrans(u: seq<Range>, t: seq<Range>, hr: seq<Range>)
    requires ShapesFrom(u, t) && ShapesFrom(t, hr)
    ensures ShapesFrom(u, hr)
  {
    forall x | x in u ensures exists y :: y in hr && SameShape(x, y) {
      var y :| y in t && SameShape(x, y);
      var z :| z in hr && SameShape(y, z);
    }
  }

  // ---- permutation ----

  function Canons(hr: seq<Range>): (c: seq<Range>)
    ensures |c| == |hr| && forall k :: 0 <= k < |c| ==> c[k] == Canon(hr[k])
  {
    seq(|hr|, k requires 0 <= k < |hr| => Canon(hr[k]))
  }

  /** `t` holds the ranges of `hr` in another order, with widths that print the same. */
  predicate Rearranged(hr: seq<Range>, t: seq<Range>) {
    && multiset(Canons(t)) == multiset(Canons(hr))
    && ShapesFrom(t, hr)
  }

  lemma {:induction false} CanonsExpand(hr: seq<Range>)
    requires AllWellFormed(hr)
    ensures All(Canons(hr)) == All(hr) && Total(Canons(hr)) == Total(hr)
  {
    if hr != [] {
      CanonExpands(hr[0]);
      assert Canons(hr)[1..] == Canons(hr[1..]);
      CanonsExpand(hr[1..]);
    }
  }

  /** Rearranging ranges rearranges their hosts. */
  lemma {:induction false} SameOcc(a: seq<Range>, b: seq<Range>, x: Host)
    requires multiset(a) == multiset(b)
    ensures Occ(a, x) == Occ(b, x)
  {
    if a == [] {
      assert |multiset(b)| == 0;
    } else {
      assert a[0] in multiset(b);
      var k :| 0 <= k < |b| && b[k] == a[0];
      var pre, post := b[..k], b[k + 1..];
      Removed(a, b, k);
      SameOcc(a[1..], pre + post, x);
      assert b == pre + ([b[k]] + post);
      OccConcat(pre, [b[k]] + post, x);
      OccConcat(pre, post, x);
      assert ([b[k]] + post)[1..] == post;
    }
  }

  lemma {:induction false} Removed(a: seq<Range>, b: seq<Range>, k: nat)
    requires multiset(a) == multiset(b) && a != [] && k < |b| && b[k] == a[0]
    ensures multiset(a[1..]) == multiset(b[..k] + b[k + 1..])
  {
    assert a == [a[0]] + a[1..];
    assert b == b[..k] + [b[k]] + b[k + 1..];
    assert multiset(a[1..]) == multiset(a) - multiset{a[0]} == multiset(b[..k] + b[k + 1..]);
  }

  /** Rearranging a list keeps its hosts and its well-formedness. */
  lemma {:induction false} RearrangedHosts(hr: seq<Range>, t: seq<Range>)
    requires AllWellFormed(hr) && Rearranged(hr, t)
    ensures AllWellFormed(t)
    ensures multiset(All(t)) == multiset(All(hr)) && Total(t) == Total(hr)
  {
    TotalCounts(hr);
    forall x | x in t ensures WellFormed(x) {
      var k :| 0 <= k < |t| && t[k] == x;
      assert Canons(t)[k] in multiset(Canons(hr));
      var j :| 0 <= j < |hr| && Canons(hr)[j] == Canon(x);
      assert WellFormed(hr[j]);
      var y :| y in hr && SameShape(x, y);
      assert WellFormed(y);
    }
    CanonsExpand(hr);
    CanonsExpand(t);
    forall x ensures Occ(Canons(t), x) == Occ(Canons(hr), x) {
      SameOcc(Canons(t), Canons(hr), x);
    }
    SameBag(Canons(hr), Canons(t));
    TotalCounts(t);
  }

  // ---- joining and splitting ----

  lemma {:induction false} HostsSplit(prefix: string, lo: nat, k: int, hi: int, w: nat)
    requires lo <= k + 1 <= hi + 1
    ensures Hosts(prefix, lo, hi, w) == Hosts(prefix, lo, k, w) + Hosts(prefix, k + 1, hi, w)
  {
  }

  /** Ranges that print at one width and meet can be written as one. */
  lemma {:induction false} JoinExpands(a: Range, b: Range)
    requires WellFormed(a) && WellFormed(b) && !a.single && !b.single
    requires a.prefix == b.prefix && a.width == b.width && a.hi + 1 == b.lo
    ensures Expand(a.(hi := b.hi)) == Expand(a) + Expand(b)
  {
    HostsSplit(a.prefix, a.lo, a.hi, b.hi, a.width);
  }

  lemma {:induction false} RewidthExpands(a: Range, b: Range, w: nat)
    requires WellFormed(a) && Rewidth(a, b, w) && (a.single ==> w == 0)
    ensures WellFormed(b) && Expand(b) == Expand(a)
  {
    CanonExpands(a);
    CanonExpands(b);
  }

  lemma {:induction false} InExpand(r: Range, x: Host)
    ensures x in Expand(r) <==> One(r, x) == 1
  {
    ExpandCount(r, x);
    assert x in Expand(r) <==> x in multiset(Expand(r));
  }

  /** Ranges that print at one width and overlap or meet cover together what one range covers. */
  lemma {:induction false} UnionExpands(a: Range, b: Range, x: Host)
    requires WellFormed(a) && WellFormed(b) && !a.single && !b.single
    requires a.prefix == b.prefix && a.width == b.width && a.lo <= b.lo <= a.hi + 1
    ensures x in Expand(a.(hi := Max(a.hi, b.hi))) <==> x in Expand(a) || x in Expand(b)
  {
    InExpand(a, x);
    InExpand(b, x);
    InExpand(a.(hi := Max(a.hi, b.hi)), x);
  }
}
