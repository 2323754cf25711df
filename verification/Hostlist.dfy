/**
  The hostlist object: push, sort with coalesce and collapse, uniq, and delete, each with the
  loops of hostlist.c, against the hosts the list stands for.
*/
module Hostlist {
  import opened Common
  import opened HostRange
  import opened HostSeq
  import opened HostSort
  import opened HostUniq
  import opened HostPush
  import T = HostText
  import RT = HostRoundTrip

  /** `c` stands for the hosts of both. */
  ghost predicate Covers(c: Range, a: Range, b: Range) {
    forall x :: x in Expand(c) <==> x in Expand(a) || x in Expand(b)
  }

  /** `c` stands for the hosts they have in common. */
  ghost predicate Meets(c: Range, a: Range, b: Range) {
    forall x :: x in Expand(c) <==> x in Expand(a) && x in Expand(b)
  }

  /** hostrange_intersect, which asserts that the comparison has put its arguments in order.  The
      result is the common part exactly when their lower ends are in order too. */
  method Intersect(a: Range, b: Range) returns (n: Option<Range>, a': Range, b': Range)
    requires WellFormed(a) && WellFormed(b) && (!a.single && !b.single ==> CmpResult(a, b) <= 0)
    ensures Rewidth(a, a', b.width) && Rewidth(b, b', a.width)
    ensures SameWidth(a, b) ==> a' == a && b' == b
    ensures n.Some? <==> Overlap(a, b) && Combines(a.lo, a.width, b.lo, b.width)
    ensures n.Some? ==> WellFormed(n.value) && (Meets(n.value, a, b) <==> a.lo <= b.lo)
    ensures SameWidth(a, b) && n.Some? ==> n.value == a.(lo := b.lo, hi := Min(a.hi, b.hi))
  {
    a', b', n := a, b, None;
    if a.single || b.single {
      return;
    }
    var c;
    c, a', b' := Compare(a, b);
    RewidthCombines(a, a', b, b');
    assert c <= 0;
    if PrefixCmp(a', b') == 0 && a'.hi > b'.lo {
      var ok, wa, wb := WidthEquiv(a'.lo, a'.width, b'.lo, b'.width);
      a', b' := a'.(width := wa), b'.(width := wb);
      if ok {
        n := Some(a'.(lo := b'.lo, hi := if b'.hi < a'.hi then b'.hi else a'.hi));
        RewidthExpands(a, a', b.width);
        RewidthExpands(b, b', a.width);
        CommonExactly(a', b', n.value);
      }
    }
  }

  /** Whether widths combine does not depend on widths that print the same. */
  lemma {:induction false} RewidthCombines(a: Range, a': Range, b: Range, b': Range)
    requires Canon(a) == Canon(a') && Canon(b) == Canon(b')
    ensures Combines(a'.lo, a'.width, b'.lo, b'.width) <==> Combines(a.lo, a.width, b.lo, b.width)
  {
  }

  lemma {:induction false} CommonExactly(a: Range, b: Range, n: Range)
    requires WellFormed(a) && WellFormed(b) && SameShape(a, b) && !a.single && a.hi > b.lo
    requires n == a.(lo := b.lo, hi := Min(a.hi, b.hi))
    ensures Meets(n, a, b) <==> a.lo <= b.lo
  {
    forall x ensures a.lo <= b.lo ==> (x in Expand(n) <==> x in Expand(a) && x in Expand(b)) {
      InExpand(n, x);
      InExpand(a, x);
      InExpand(b, x);
    }
    var low := Numbered(b.prefix, b.lo, Len(b.lo, b.width));
    InExpand(n, low);
    InExpand(a, low);
  }

  /** The first range ends at ULONG_MAX and the second starts at 0, which comes next on an unsigned long. */
  predicate Around(a: Range, b: Range) {
    !a.single && a.hi == ULONG_MAX && b.lo == 0
  }

  /** What hostrange_join makes of two ranges that touch. */
  function JoinedRange(a: Range, b: Range): Range {
    if a.single then a else if Around(a, b) then a.(hi := b.hi) else a.(hi := Max(a.hi, b.hi))
  }

  /** The number of duplicates it returns, cut to an int. */
  function Dup(a: Range, b: Range): int {
    Int32(Count(a) + Count(b) - Count(JoinedRange(a, b)))
  }

  /** The lower ends are in order; or the first range runs from 0 to ULONG_MAX, and the second too. */
  predicate GoodJoin(a: Range, b: Range) {
    a.single || if Around(a, b) then a.lo == 0 && b.hi == ULONG_MAX else a.lo <= b.lo
  }

  /** What a successful hostrange_join leaves of its first argument. */
  predicate JoinShape(a: Range, b: Range, a': Range) {
    && Canon(a') == Canon(JoinedRange(a, b)) && a.prefix == b.prefix && a.single == b.single
    && (a'.width == a.width || a'.width == b.width)
  }

  /** hostrange_join, which asserts that the comparison has put its arguments in order.  Ranges that
      touch become one range; it stands for the hosts of both exactly if the join is a good one. */
  method Join(a: Range, b: Range) returns (dup: int, a': Range, b': Range)
    requires WellFormed(a) && WellFormed(b) && CmpResult(a, b) <= 0
    ensures Joinable(a, b) ==> JoinShape(a, b, a') && dup == Dup(a, b)
    ensures Joinable(a, b) ==> (Covers(a', a, b) <==> GoodJoin(a, b))
    ensures Joinable(a, b) ==> Rewidth(b, b', a.width)
    ensures !Joinable(a, b) ==> dup == -1 && Rewidth(a, a', b.width) && Rewidth(b, b', a.width)
    ensures PrefixCmp(a, b) != 0 ==> a' == a && b' == b
  {
    dup := -1;
    var c;
    c, a', b' := Compare(a, b);
    RewidthCombines(a, a', b, b');
    assert c <= 0;
    if PrefixCmp(a', b') == 0 {
      var ok, wa, wb := WidthEquiv(a'.lo, a'.width, b'.lo, b'.width);
      a', b' := a'.(width := wa), b'.(width := wb);
      if ok {
        RewidthExpands(a, a', b.width);
        RewidthExpands(b, b', a.width);
        ghost var p := a';
        dup, a' := JoinAlike(a', b');
        JoinMoved(a, b, p, b', a');
      }
    }
  }

  /** Joining does not depend on widths that print the same. */
  lemma {:induction false} JoinMoved(a: Range, b: Range, p: Range, q: Range, r: Range)
    requires Canon(a) == Canon(p) && Canon(b) == Canon(q) && SameShape(p, q) && (p.width == a.width || p.width == b.width)
    requires Expand(a) == Expand(p) && Expand(b) == Expand(q)
    ensures GoodJoin(p, q) <==> GoodJoin(a, b)
    ensures Dup(p, q) == Dup(a, b)
    ensures Covers(r, p, q) <==> Covers(r, a, b)
    ensures r == JoinedRange(p, q) ==> JoinShape(a, b, r)
  {
  }

  /** The inner branches of hostrange_join, for ranges of one prefix and one width. */
  method JoinAlike(a: Range, b: Range) returns (dup: int, a': Range)
    requires WellFormed(a) && WellFormed(b) && SameShape(a, b)
    ensures a.single || a.hi + 1 >= b.lo ==>
              a' == JoinedRange(a, b) && dup == Dup(a, b) && (Covers(a', a, b) <==> GoodJoin(a, b))
    ensures !(a.single || a.hi + 1 >= b.lo) ==> dup == -1 && a' == a
  {
    dup, a' := -1, a;
    if a.single && b.single {
      dup := 1;
      DupIs(a, b, 1);
    } else if a.hi == Pred(b.lo) {
      CoversExactly(a, b);
      a' := a.(hi := b.hi);
      dup := 0;
      DupNone(a, b);
    } else if a.hi >= b.lo {
      CoversExactly(a, b);
      if a.hi < b.hi {
        dup := Int32(a.hi - b.lo + 1);
        a' := a.(hi := b.hi);
        DupIs(a, b, a.hi - b.lo + 1);
      } else {
        dup := Int32(UCount(b));
        DupIs(a, b, Count(b));
        UCountSame(0, b);
      }
    }
  }

  lemma {:induction false} DupIs(a: Range, b: Range, d: int)
    requires d == Count(a) + Count(b) - Count(JoinedRange(a, b))
    ensures Dup(a, b) == Int32(d) && (d == 1 ==> Int32(d) == 1)
  {
    if d == 1 { Int32Small(1); }
  }

  /** A perfect join, around ULONG_MAX or not, has no duplicates. */
  lemma {:induction false} DupNone(a: Range, b: Range)
    requires WellFormed(a) && WellFormed(b) && !a.single && !b.single && a.hi == Pred(b.lo)
    ensures Dup(a, b) == 0
  {
    var d := Count(a) + Count(b) - Count(JoinedRange(a, b));
    DupIs(a, b, d);
    assert d == if b.lo == 0 then INT_RANGE * INT_RANGE else 0;
    Int32Same(d, 0, if b.lo == 0 then INT_RANGE else 0);
    Int32Small(0);
  }

  lemma {:induction false} CoversExactly(a: Range, b: Range)
    requires WellFormed(a) && WellFormed(b) && !a.single && SameShape(a, b) && b.lo <= a.hi + 1
    ensures Covers(JoinedRange(a, b), a, b) <==> GoodJoin(a, b)
  {
    var c := JoinedRange(a, b);
    if GoodJoin(a, b) {
      UnionCovers(a, b);
    } else {
      var low, top := Numbered(b.prefix, b.lo, Len(b.lo, b.width)), Numbered(a.prefix, a.hi, Len(a.hi, a.width));
      InExpand(b, low);
      InExpand(c, low);
      InExpand(a, top);
      InExpand(c, top);
    }
  }

  lemma {:induction false} UnionCovers(a: Range, b: Range)
    requires WellFormed(a) && WellFormed(b) && !a.single && !b.single
    requires a.prefix == b.prefix && a.width == b.width && a.lo <= b.lo <= a.hi + 1
    ensures forall x :: x in Expand(a.(hi := Max(a.hi, b.hi))) <==> x in Expand(a) || x in Expand(b)
  {
    forall x ensures x in Expand(a.(hi := Max(a.hi, b.hi))) <==> x in Expand(a) || x in Expand(b) {
      UnionExpands(a, b, x);
    }
  }

  /** Stands for qsort with hostrange_cmp: a rearrangement in key order is all the callers use. */
  method Qsort(hr: seq<Range>) returns (t: seq<Range>)
    requires Comparable(hr)
    ensures Rearranged(hr, t) && Sorted(t)
  {
    t := hr;
    var i := 0;
    assert forall x :: x in hr ==> SameShape(x, x);
    while i < |t|
      invariant i <= |t| == |hr| && Rearranged(hr, t) && Sorted(t[..i])
      decreases |t| - i
    {
      t := Insert(t, i, hr);
      i := i + 1;
    }
    assert t[..i] == t;
  }

  /** Sinks element `i` into the sorted part before it. */
  method Insert(s: seq<Range>, i: nat, ghost hr: seq<Range>) returns (t: seq<Range>)
    requires Comparable(hr) && Rearranged(hr, s) && i < |s| && Sorted(s[..i])
    ensures Rearranged(hr, t) && |t| == |s| && Sorted(t[..i + 1])
  {
    t := s;
    var j := i;
    while j > 0
      invariant 0 <= j <= i && |t| == |s| && Rearranged(hr, t)
      invariant Sorted(t[..j]) && Sorted(t[j..i + 1])
      invariant 0 < j < i ==> Link(t[j - 1], t[j + 1])
    {
      var c, a, b := Compare(t[j - 1], t[j]);
      MembersNear(hr, t, j);
      PutBack(hr, t, j, a, b);
      if c <= 0 {
        SinkEnds(t, i, j, a, b);
        t := t[j - 1 := a][j := b];
        return;
      }
      SinkGoesOn(t, i, j, a, b);
      t := t[j - 1 := b][j := a];
      j := j - 1;
    }
  }

  lemma {:induction false} MembersNear(hr: seq<Range>, t: seq<Range>, j: nat)
    requires Comparable(hr) && Rearranged(hr, t) && 0 < j < |t|
    ensures Near(t[j - 1], t[j])
  {
    assert Canons(t)[j - 1] in multiset(Canons(t)) && Canons(t)[j] in multiset(Canons(t));
    var x :| 0 <= x < |hr| && Canons(hr)[x] == Canon(t[j - 1]);
    var y :| 0 <= y < |hr| && Canons(hr)[y] == Canon(t[j]);
    assert Near(hr[x], hr[y]);
  }

  lemma {:induction false} PutBack(hr: seq<Range>, t: seq<Range>, j: nat, a: Range, b: Range)
    requires Rearranged(hr, t) && 0 < j < |t|
    requires Rewidth(t[j - 1], a, t[j].width) && Rewidth(t[j], b, t[j - 1].width)
    requires PrefixCmp(t[j - 1], t[j]) != 0 ==> a == t[j - 1] && b == t[j]
    ensures Rearranged(hr, t[j - 1 := a][j := b]) && Rearranged(hr, t[j - 1 := b][j := a])
  {
    var kept, swapped := t[j - 1 := a][j := b], t[j - 1 := b][j := a];
    assert Canons(kept) == Canons(t);
    assert Canons(swapped) == Canons(t)[j - 1 := Canon(b)][j := Canon(a)];
    assert SameShape(a, t[j - 1]) || SameShape(a, t[j]);
    assert SameShape(b, t[j - 1]) || SameShape(b, t[j]);
    forall x | x in kept || x in swapped ensures exists y :: y in t && SameShape(x, y) {
      if x != a && x != b { assert x in t && SameShape(x, x); }
    }
    ShapesTrans(kept, t, hr);
    ShapesTrans(swapped, t, hr);
  }

  lemma {:induction false} SinkEnds(t: seq<Range>, i: nat, j: nat, a: Range, b: Range)
    requires 0 < j <= i < |t| && Sorted(t[..j]) && Sorted(t[j..i + 1])
    requires Canon(a) == Canon(t[j - 1]) && Canon(b) == Canon(t[j]) && Link(t[j - 1], t[j])
    ensures Sorted(t[j - 1 := a][j := b][..i + 1])
  {
    var u := t[j - 1 := a][j := b];
    forall k | 0 < k < i + 1 ensures Link(u[k - 1], u[k]) {
      if k < j {
        assert Link(t[..j][k - 1], t[..j][k]);
      } else if k > j {
        assert Link(t[j..i + 1][k - j - 1], t[j..i + 1][k - j]);
      }
    }
  }

  lemma {:induction false} SinkGoesOn(t: seq<Range>, i: nat, j: nat, a: Range, b: Range)
    requires 0 < j <= i < |t| && Sorted(t[..j]) && Sorted(t[j..i + 1])
    requires j < i ==> Link(t[j - 1], t[j + 1])
    requires Canon(a) == Canon(t[j - 1]) && Canon(b) == Canon(t[j])
    requires Near(t[j - 1], t[j]) && !Le(t[j - 1], t[j])
    ensures var u := t[j - 1 := b][j := a];
            Sorted(u[..j - 1]) && Sorted(u[j - 1..i + 1]) && (j > 1 ==> Link(u[j - 2], u[j]))
  {
    var u := t[j - 1 := b][j := a];
    forall k | 0 < k < j - 1 ensures Link(u[k - 1], u[k]) {
      assert Link(t[..j][k - 1], t[..j][k]);
    }
    if j > 1 {
      assert Link(t[..j][j - 2], t[..j][j - 1]);
      LinkMoves(t[j - 2], t[j - 1], a);
    }
    forall k | j - 1 < k < i + 1 ensures Link(u[k - 1], u[k]) {
      SinkLink(t, i, j, a, b, k);
    }
  }

  lemma {:induction false} LinkMoves(z: Range, p: Range, a: Range)
    requires Link(z, p) && Canon(a) == Canon(p)
    ensures Link(z, a)
  {
  }

  lemma {:induction false} SinkLink(t: seq<Range>, i: nat, j: nat, a: Range, b: Range, k: nat)
    requires 0 < j <= i < |t| && Sorted(t[j..i + 1]) && j <= k <= i
    requires j < i ==> Link(t[j - 1], t[j + 1])
    requires Canon(a) == Canon(t[j - 1]) && Canon(b) == Canon(t[j])
    requires Near(t[j - 1], t[j]) && !Le(t[j - 1], t[j])
    ensures Link(t[j - 1 := b][j := a][k - 1], t[j - 1 := b][j := a][k])
  {
    if k > j + 1 {
      assert Link(t[j..i + 1][k - j - 1], t[j..i + 1][k - j]);
    } else if k == j {
      LeTotal(t[j - 1], t[j]);
    }
  }

  lemma {:induction false} MiddleStep(prefix: string, w: nat, c: nat, m: nat, k: nat, done: seq<Range>)
    requires c <= k <= m
    ensures var one := [Range(prefix, k, k, w, false)];
            var one' := if k > c then done + one else done;
            done + Middle(prefix, w, c, m, k) == (if k < m then one' + one else one') + Middle(prefix, w, c, m, k + 1)
  {
    var one, rest := [Range(prefix, k, k, w, false)], Middle(prefix, w, c, m, k + 1);
    var first, second := if k > c then one else [], if k < m then one else [];
    assert Middle(prefix, w, c, m, k) == first + second + rest;
    Assoc(done, first + second, rest);
    Assoc(done, first, second);
  }

  lemma {:induction false} PutBetween(base: seq<Range>, done: seq<Range>, r: Range, right: seq<Range>)
    ensures var s, n := base + done + right, |base + done|;
            s[..n] + [r] + s[n..] == base + (done + [r]) + right
  {
    var s, n := base + done + right, |base + done|;
    assert s[..n] == base + done && s[n..] == right;
  }

  lemma {:induction false} NthRange(hr: seq<Range>, i: nat)
    requires AllWellFormed(hr) && i < |hr|
    ensures All(hr) == All(hr[..i]) + Expand(hr[i]) + All(hr[i + 1..])
    ensures |All(hr[..i])| == Total(hr[..i]) && |Expand(hr[i])| == Count(hr[i])
    ensures Total(hr[..i + 1]) == Total(hr[..i]) + Count(hr[i])
  {
    assert hr == hr[..i] + [hr[i]] + hr[i + 1..] && hr[..i + 1] == hr[..i] + [hr[i]];
    AllAround(hr[..i], [hr[i]], hr[i + 1..]);
    AllConcat(hr[..i], [hr[i]]);
    AllOne(hr[i]);
    TotalCounts(hr[..i]);
    TotalCounts([hr[i]]);
  }

  /** Without host `k`, which is host `d` of the middle part. */
  lemma {:induction false} DropHost(t: seq<Host>, h: seq<Host>, pre: seq<Host>, mid: seq<Host>, post: seq<Host>,
                                    d: nat, rest: seq<Host>, k: nat)
    requires d < |mid| && h == pre + mid + post && rest == mid[..d] + mid[d + 1..] && t == pre + rest + post
    requires k == |pre| + d
    ensures k < |h| && t == h[..k] + h[k + 1..]
  {
    assert h[..k] == pre + mid[..d] && h[k + 1..] == mid[d + 1..] + post;
    Assoc(pre, mid[..d], mid[d + 1..]);
    Assoc(pre + mid[..d], mid[d + 1..], post);
  }

  /** What hostlist_delete_nth leaves of a range without its host `d`. */
  function Leftover(r: Range, d: nat): seq<Range>
    requires WellFormed(r) && d < Count(r)
  {
    if r.single || r.lo == r.hi then []
    else if d == 0 then [r.(lo := r.lo + 1)]
    else if r.lo + d == r.hi then [r.(hi := r.hi - 1)]
    else [r.(hi := r.lo + d - 1), r.(lo := r.lo + d + 1)]
  }

  lemma {:induction false} HeadExpands(r: Range, d: nat)
    requires WellFormed(r) && !r.single && 0 < d < Count(r)
    ensures Expand(r.(hi := r.lo + d - 1)) == Expand(r)[..d]
  {
  }

  lemma {:induction false} RestExpands(r: Range, d: nat)
    requires WellFormed(r) && !r.single && d + 1 < Count(r)
    ensures Expand(r.(lo := r.lo + d + 1)) == Expand(r)[d + 1..]
  {
  }

  lemma {:induction false} LeftoverExpands(r: Range, d: nat)
    requires WellFormed(r) && d < Count(r)
    ensures All(Leftover(r, d)) == Expand(r)[..d] + Expand(r)[d + 1..]
    ensures AllWellFormed(Leftover(r, d))
  {
    if !r.single && r.lo < r.hi {
      var rest := r.(lo := r.lo + d + 1);
      if r.lo + d < r.hi {
        RestExpands(r, d);
        AllOne(rest);
      }
      if d > 0 {
        var head := r.(hi := r.lo + d - 1);
        HeadExpands(r, d);
        AllOne(head);
        if r.lo + d < r.hi {
          assert Leftover(r, d) == [head] + [rest];
          AllConcat([head], [rest]);
        }
      }
    }
  }

  lemma {:induction false} WellFormedAround(hr: seq<Range>, i: nat, rest: seq<Range>)
    requires AllWellFormed(hr) && AllWellFormed(rest) && i < |hr|
    ensures AllWellFormed(hr[..i] + rest + hr[i + 1..])
  {
  }

  lemma {:induction false} RangeReplaced(hr: seq<Range>, pre: seq<Range>, r: Range, post: seq<Range>, rest: seq<Range>,
                                         d: nat, k: nat)
    requires hr == pre + [r] + post && d < |Expand(r)| && All(rest) == Expand(r)[..d] + Expand(r)[d + 1..]
    requires k == |All(pre)| + d
    ensures k < |All(hr)| && All(pre + rest + post) == All(hr)[..k] + All(hr)[k + 1..]
  {
    AllAround(pre, [r], post);
    AllOne(r);
    AllAround(pre, rest, post);
    DropHost(All(pre + rest + post), All(hr), All(pre), Expand(r), All(post), d, All(rest), k);
  }

  lemma {:induction false} LeftoverHosts(hr: seq<Range>, i: nat, d: nat)
    requires AllWellFormed(hr) && i < |hr| && d < Count(hr[i])
    ensures var t, k := hr[..i] + Leftover(hr[i], d) + hr[i + 1..], Total(hr[..i]) + d;
            && AllWellFormed(t) && 0 <= k < |All(hr)|
            && All(t) == All(hr)[..k] + All(hr)[k + 1..]
  {
    var pre, r, post := hr[..i], hr[i], hr[i + 1..];
    assert hr == pre + [r] + post;
    TotalCounts(pre);
    LeftoverExpands(r, d);
    WellFormedAround(hr, i, Leftover(r, d));
    RangeReplaced(hr, pre, r, post, Leftover(r, d), d, Total(pre) + d);
  }

  /** The first host of a range of two or more that ends at ULONG_MAX. */
  ghost predicate TopFirst(hr: seq<Range>, n: nat) {
    exists k :: 0 <= k < |hr| && Top(hr[k]) && Total(hr[..k]) == n
  }

  lemma {:induction false} TotalNext(hr: seq<Range>, j: nat)
    requires AllWellFormed(hr) && j < |hr|
    ensures Total(hr[..j]) < Total(hr[..j + 1])
  {
    assert WellFormed(hr[j]) && hr[..j + 1] == hr[..j] + [hr[j]];
    AllConcat(hr[..j], [hr[j]]);
    AllOne(hr[j]);
  }

  lemma {:induction false} TotalGrows(hr: seq<Range>, i: nat, j: nat)
    requires AllWellFormed(hr) && i < j <= |hr|
    ensures Total(hr[..i]) < Total(hr[..j])
    decreases j
  {
    TotalNext(hr, j - 1);
    if i < j - 1 { TotalGrows(hr, i, j - 1); }
  }

  lemma {:induction false} FirstIs(hr: seq<Range>, i: nat, d: nat, n: nat)
    requires AllWellFormed(hr) && i < |hr| && d < Count(hr[i]) && n == Total(hr[..i]) + d
    ensures TopFirst(hr, n) <==> d == 0 && Top(hr[i])
  {
    NthRange(hr, i);
    forall k | 0 <= k < |hr| && Total(hr[..k]) == n ensures k == i {
      if k < i {
        TotalGrows(hr, k, i);
      } else if k > i + 1 {
        TotalGrows(hr, i + 1, k);
      }
    }
  }

  lemma {:induction false} NoFirst(hr: seq<Range>, n: nat)
    requires AllWellFormed(hr) && n >= Total(hr)
    ensures !TopFirst(hr, n)
  {
    assert hr[..|hr|] == hr;
    forall k | 0 <= k < |hr| ensures Total(hr[..k]) != n { TotalGrows(hr, k, |hr|); }
  }

  lemma {:induction false} RangeGone(hr: seq<Range>, i: nat)
    requires AllWellFormed(hr) && i < |hr| && Top(hr[i])
    ensures AllWellFormed(hr[..i] + [] + hr[i + 1..]) && Total(hr[..i] + [] + hr[i + 1..]) < Total(hr) - 1
  {
    assert hr == hr[..i] + [hr[i]] + hr[i + 1..];
    AllAround(hr[..i], [hr[i]], hr[i + 1..]);
    AllAround(hr[..i], [], hr[i + 1..]);
    AllOne(hr[i]);
  }

  /** n[18446744073709551614-18446744073709551615]: deleting the first host deletes both. */
  lemma {:induction false} FirstTakesAll(r: Range)
    requires r == Range("n", ULONG_MAX - 1, ULONG_MAX, 20, false)
    ensures WellFormed(r) && |All([r])| == 2 && TopFirst([r], 0)
  {
    AllOne(r);
    assert [r][..0] == [];
    assert Top([r][0]) && Total([r][..0]) == 0;
  }

  /** Ranges in key order that are near compare as they should. */
  lemma {:induction false} LinkCompares(a: Range, b: Range)
    requires Link(a, b)
    ensures CmpResult(a, b) <= 0 && PrefixCmp(a, b) <= 0
  {
    CmpIsKeyOrder(a, b);
  }

  /** The comparison has put two ranges in an order that is not that of their lower ends. */
  predicate Swapped(a: Range, b: Range) {
    !a.single && b.lo < a.lo
  }

  /** The list has fewer than 2^31 hosts, so that the count of type int is exact. */
  predicate Small(hr: seq<Range>) {
    Total(hr) < INT_RANGE / 2
  }

  lemma {:induction false} LinkOrdered(a: Range, b: Range)
    requires Link(a, b) && Joinable(a, b)
    ensures !Swapped(a, b)
  {
    if b.lo < a.lo { CombinedOrder(b.lo, b.width, a.lo, a.width); }
  }

  /** In a sorted list that is small every join is a good one. */
  lemma {:induction false} LinkGood(a: Range, b: Range)
    requires WellFormed(a) && WellFormed(b) && Link(a, b) && Joinable(a, b) && Count(a) + Count(b) < INT_RANGE / 2
    ensures GoodJoin(a, b)
  {
    LinkOrdered(a, b);
  }

  /** The duplicates of two ranges that are small are counted exactly. */
  lemma {:induction false} Fits(a: Range, b: Range, r: Range)
    requires WellFormed(a) && WellFormed(b) && Joinable(a, b) && CmpResult(a, b) <= 0 && Count(a) + Count(b) < INT_RANGE / 2
    requires JoinShape(a, b, r) && (Covers(r, a, b) <==> GoodJoin(a, b))
    ensures Dup(a, b) >= 0
    ensures GoodJoin(a, b) ==> Joined(a, b, r, Dup(a, b))
  {
    if Around(a, b) {
      DupNone(a, b);
    } else {
      var d := Count(a) + Count(b) - Count(JoinedRange(a, b));
      if Swapped(a, b) { FarSwapped(a, b); }
      DupIs(a, b, d);
      Int32Small(d);
    }
  }

  /** Ranges that compare the wrong way round are far apart. */
  lemma {:induction false} FarSwapped(a: Range, b: Range)
    requires Joinable(a, b) && CmpResult(a, b) <= 0 && Swapped(a, b)
    ensures a.lo - b.lo >= INT_RANGE / 2
  {
    Int32Sign(a.lo - b.lo);
  }

  /** Where the duplicates are negative as an int, both ranges stay and the hosts with them. */
  lemma {:induction false} BothStay(a: Range, b: Range, r: Range, x: Host)
    requires WellFormed(a) && WellFormed(b) && Joinable(a, b) && JoinShape(a, b, r) && Dup(a, b) < 0
    requires Covers(r, a, b) <==> GoodJoin(a, b)
    ensures x in Expand(r) || x in Expand(b) <==> x in Expand(a) || x in Expand(b)
  {
    if Around(a, b) { DupNone(a, b); }
    if a.single { DupIs(a, b, 1); }
    assert !a.single && !Around(a, b);
    if !GoodJoin(a, b) {
      CanonExpands(r);
      CanonExpands(JoinedRange(a, b));
      StayingHosts(a, b, x);
    }
  }

  lemma {:induction false} StayingHosts(a: Range, b: Range, x: Host)
    requires WellFormed(a) && WellFormed(b) && !a.single && Joinable(a, b) && !Around(a, b) && b.lo < a.lo
    ensures x in Expand(JoinedRange(a, b)) || x in Expand(b) <==> x in Expand(a) || x in Expand(b)
  {
    var w := EquivWidth(a.lo, a.width, b.width);
    ExtendedWidth(a, b);
    var a', b' := a.(width := w), b.(width := w);
    CanonExpands(a);
    CanonExpands(a');
    CanonExpands(b);
    CanonExpands(b');
    CanonExpands(JoinedRange(a, b));
    CanonExpands(JoinedRange(a', b'));
    InExpand(JoinedRange(a', b'), x);
    InExpand(a', x);
    InExpand(b', x);
  }

  /** The place of a range in the list depends on no width that prints the same. */
  lemma {:induction false} CanonsMerged(hr: seq<Range>, i: nat, r: Range, q: Range)
    requires 0 < i < |hr| && Canon(r) == Canon(q)
    ensures Canons(Merged(hr, i, r)) == Canons(Merged(hr, i, q)) && |Merged(hr, i, r)| == |hr| - 1
  {
    var t, u := Merged(hr, i, r), Merged(hr, i, q);
    forall k | 0 <= k < |t| ensures Canon(t[k]) == Canon(u[k]) {
      assert t[k] == if k < i - 1 then hr[k] else if k == i - 1 then r else hr[k + 1];
      assert u[k] == if k < i - 1 then hr[k] else if k == i - 1 then q else hr[k + 1];
    }
  }

  /** What joining, or trying to, keeps of a sorted and comparable list. */
  ghost predicate KeepsOrder(hr: seq<Range>, t: seq<Range>, loc: nat, joined: bool) {
    Sorted(hr) && Comparable(hr) && Small(hr) ==>
      && Sorted(t) && Comparable(t) && ShapesFrom(t, hr) && (Gaps(hr, loc) ==> Gaps(t, loc))
      && (!joined && Gaps(hr, loc + 1) ==> Gaps(t, loc + 1))
  }

  // ---- ranges whose lower ends are 2^31 or more apart ----

  /** The comparison of two ranges in turned order, with other widths that print the same. */
  lemma {:induction false} CmpTurned(a: Range, b: Range, a': Range, b': Range)
    requires Canon(a) == Canon(a') && Canon(b) == Canon(b')
    ensures CmpResult(a, b) <= 0 ==> CmpResult(a', b') <= 0
    ensures CmpResult(a, b) > 0 ==> CmpResult(b', a') <= 0
    ensures Joinable(a', b') <==> Joinable(a, b)
  {
    RewidthCombines(a, a', b, b');
    StrcmpAntisym(a.prefix, b.prefix);
    if PrefixCmp(a, b) == 0 {
      if Combines(a.lo, a.width, b.lo, b.width) {
        Int32Turned(a.lo - b.lo);
      } else {
        SeparateOrder(a.lo, a.width, b.lo, b.width);
        SeparateOrder(a'.lo, a'.width, b'.lo, b'.width);
      }
    }
  }

  lemma {:induction false} Int32Turned(d: int)
    ensures Int32(d) > 0 ==> Int32(-d) < 0
  {
    var q, m := (d + INT_RANGE / 2) / INT_RANGE, (d + INT_RANGE / 2) % INT_RANGE;
    if m > INT_RANGE / 2 {
      RemainderIs(-d + INT_RANGE / 2, -q, INT_RANGE - m);
    }
  }

  /** In the order the comparison puts them, hostlist_uniq joins two ranges and loses hosts. */
  predicate Loses(a: Range, b: Range) {
    if CmpResult(a, b) <= 0 then BadJoin(a, b) else BadJoin(b, a)
  }

  predicate BadJoin(a: Range, b: Range) {
    Joinable(a, b) && Dup(a, b) >= 0 && !GoodJoin(a, b)
  }

  lemma {:induction false} BadJoinMoved(a: Range, b: Range, p: Range, q: Range)
    requires Canon(a) == Canon(p) && Canon(b) == Canon(q)
    ensures BadJoin(p, q) <==> BadJoin(a, b)
  {
    RewidthCombines(a, p, b, q);
  }

  /** Two ranges in the order of the comparison. */
  method SortPair(a: Range, b: Range) returns (p: Range, q: Range)
    requires WellFormed(a) && WellFormed(b)
    ensures WellFormed(p) && WellFormed(q) && CmpResult(p, q) <= 0
    ensures forall x :: x in Expand(p) || x in Expand(q) <==> x in Expand(a) || x in Expand(b)
    ensures Loses(a, b) <==> BadJoin(p, q)
  {
    var c;
    c, p, q := Compare(a, b);
    CmpTurned(a, b, p, q);
    CmpTurned(b, a, q, p);
    RewidthPairExpands(a, b, p, q);
    BadJoinMoved(a, b, p, q);
    BadJoinMoved(b, a, q, p);
    if c > 0 {
      p, q := q, p;
    }
  }

  method JoinPair(p: Range, q: Range) returns (hr: seq<Range>)
    requires WellFormed(p) && WellFormed(q) && CmpResult(p, q) <= 0
    ensures (forall x :: x in All(hr) <==> x in Expand(p) || x in Expand(q)) <==> !BadJoin(p, q)
  {
    var dup, p', q' := Join(p, q);
    if dup >= 0 {
      AllOne(p');
      hr := [p'];
    } else {
      PairMembers(p', q');
      if Joinable(p, q) {
        RewidthExpands(q, q', p.width);
        forall x ensures x in Expand(p') || x in Expand(q') <==> x in Expand(p) || x in Expand(q) {
          BothStay(p, q, p', x);
        }
      } else {
        RewidthPairExpands(p, q, p', q');
      }
      hr := [p', q'];
    }
  }

  /** hostlist_uniq on a list of two ranges: it keeps the set of hosts exactly if the comparison does not
      put two ranges that touch in an order in which joining them loses hosts. */
  method UniqPair(a: Range, b: Range) returns (hr: seq<Range>)
    requires WellFormed(a) && WellFormed(b)
    ensures (forall x :: x in All(hr) <==> x in All([a, b])) <==> !Loses(a, b)
  {
    var p, q := SortPair(a, b);
    hr := JoinPair(p, q);
    PairMembers(a, b);
  }

  /** The ranges of n[0-18446744073709551615] and n[0]: the join around ULONG_MAX leaves one host of 2^64. */
  lemma {:induction false} AroundLoses(a: Range, b: Range)
    requires a == Range("n", 0, ULONG_MAX, 1, false) && b == Range("n", 0, 0, 1, false)
    ensures CmpResult(a, b) <= 0 && a.lo <= b.lo && Loses(a, b) && Expand(JoinedRange(a, b)) == [Numbered("n", 0, Len(0, 1))]
  {
    DupNone(a, b);
  }

  lemma {:induction false} RewidthPairExpands(a: Range, b: Range, a': Range, b': Range)
    requires WellFormed(a) && WellFormed(b) && Rewidth(a, a', b.width) && Rewidth(b, b', a.width)
    requires PrefixCmp(a, b) != 0 ==> a' == a && b' == b
    ensures WellFormed(a') && WellFormed(b') && Expand(a') == Expand(a) && Expand(b') == Expand(b)
  {
    if PrefixCmp(a, b) == 0 {
      RewidthExpands(a, a', b.width);
      RewidthExpands(b, b', a.width);
    }
  }

  lemma {:induction false} PairMembers(a: Range, b: Range)
    ensures forall x :: x in All([a, b]) <==> x in Expand(a) || x in Expand(b)
  {
    assert [a, b] == [a] + [b];
    AllConcat([a], [b]);
    AllOne(a);
    AllOne(b);
  }

  /** n[3221225472,0000000000]: the comparison puts the larger number first, hostlist_uniq loses
      n0000000000, and hostlist_coalesce frees the range it goes on to read. */
  lemma {:induction false} FarApart()
    ensures var a, b := Range("n", 3221225472, 3221225472, 10, false), Range("n", 0, 0, 10, false);
            && WellFormed(a) && WellFormed(b) && Uniform([a, b])
            && CmpResult(a, b) < 0 && Loses(a, b) && Overlap(a, b) && b.lo < a.lo
            && Numbered("n", 0, 10) in All([a, b]) && Numbered("n", 0, 10) !in All([a])
  {
    var a, b := Range("n", 3221225472, 3221225472, 10, false), Range("n", 0, 0, 10, false);
    PairMembers(a, b);
    AllOne(a);
    assert NDigits(0) == 1;
    InExpand(b, Numbered("n", 0, 10));
    InExpand(a, Numbered("n", 0, 10));
  }

  /** f[01],f0[1]: two hosts of one name that hostlist_uniq cannot tell, because their prefixes differ. */
  lemma {:induction false} OneNameTwice()
    ensures var a, b := Range("f", 1, 1, 2, false), Range("f0", 1, 1, 1, false);
            && WellFormed(a) && WellFormed(b) && Uniform([a, b]) && Comparable([a, b])
            && !Joinable(a, b) && !Joinable(b, a)
            && Expand(a) == [Numbered("f", 1, 2)] && Expand(b) == [Numbered("f0", 1, 1)]
            && T.Name(Numbered("f", 1, 2)) == T.Name(Numbered("f0", 1, 1)) == "f01"
  {
    assert NDigits(1) == 1;
    assert T.PadTo(1, 1) == "1";
    assert T.PadTo(1, 2) == "01";
    assert "f" + "01" == "f01" == "f0" + "1";
    assert "f" != "f0" by { assert |"f"| != |"f0"|; }
  }

  /** Neighbours in order that cannot be joined have a gap between them, if they share a width. */
  lemma {:induction false} NextGap(hr: seq<Range>, i: nat)
    requires AllWellFormed(hr) && 0 < i < |hr| && Sorted(hr)
    ensures !Joinable(hr[i - 1], hr[i]) && Uniform(hr) && Gaps(hr, i) ==> Gaps(hr, i + 1)
  {
    assert Link(hr[i - 1], hr[i]) && WellFormed(hr[i - 1]) && WellFormed(hr[i]);
    if !Joinable(hr[i - 1], hr[i]) && Uniform(hr) {
      assert SameWidth(hr[i - 1], hr[i]) && Gap(hr[i - 1], hr[i]);
    }
  }

  lemma {:induction false} SameMembers(a: seq<Host>, b: seq<Host>)
    requires multiset(a) == multiset(b)
    ensures forall x :: x in a <==> x in b
  {
    forall x ensures x in a <==> x in b {
      assert x in a <==> x in multiset(a);
      assert x in b <==> x in multiset(b);
    }
  }

  lemma {:induction false} SameTotal(hr: seq<Range>, was: seq<Range>)
    requires AllWellFormed(hr) && AllWellFormed(was) && multiset(All(hr)) == multiset(All(was))
    ensures Total(hr) == Total(was)
  {
    TotalCounts(hr);
    TotalCounts(was);
    assert |multiset(All(hr))| == |All(hr)| && |multiset(All(was))| == |All(was)|;
  }

  lemma {:induction false} TwoTopsSame(hr: seq<Range>, t: seq<Range>)
    requires Rearranged(hr, t)
    ensures TwoTops(t) <==> TwoTops(hr)
  {
    forall p ensures Tops(t, p) == Tops(hr, p) { RearrangedTops(hr, t, p); }
    if i, j :| 0 <= i < j < |hr| && Top(hr[i]) && Top(hr[j]) && hr[i].prefix == hr[j].prefix {
      TwoTopsCount(hr, i, j);
      CountTwoTops(t, hr[i].prefix);
    }
    if i, j :| 0 <= i < j < |t| && Top(t[i]) && Top(t[j]) && t[i].prefix == t[j].prefix {
      TwoTopsCount(t, i, j);
      CountTwoTops(hr, t[i].prefix);
    }
  }

  /** n[18446744073709551613-18446744073709551615,18446744073709551614-18446744073709551615]: the parser makes two
      ranges of one width, one apart, and the loop that splits them has no end. */
  lemma {:induction false} EndlessSort(a: Range, b: Range)
    requires a.hi == b.hi == ULONG_MAX && a.lo == a.hi - 2 && b.lo == b.hi - 1
    requires a == Range("n", a.lo, a.hi, Len(a.lo, 1), false) && b == Range("n", b.lo, b.hi, Len(b.lo, 1), false)
    ensures T.ParseRange("n", T.Num(a.lo, 1) + "-" + T.Num(a.hi, 1)) == Some(a)
    ensures T.ParseRange("n", T.Num(b.lo, 1) + "-" + T.Num(b.hi, 1)) == Some(b)
    ensures AllWellFormed([a, b]) && Uniform([a, b]) && Comparable([a, b]) && Sorted([a, b]) && TwoTops([a, b])
    ensures !exists t: nat :: After(b.lo, t) > Min(a.hi, b.hi)
  {
    FewRead(a.lo, a.hi);
    FewRead(b.lo, b.hi);
    TopDigits(a.lo, b.lo);
    SameDigits(a.lo, b.lo);
    CountingEnds(b.lo, Min(a.hi, b.hi));
    EndlessPair(a, b);
  }

  lemma {:induction false} FewRead(lo: nat, hi: nat)
    requires lo <= hi <= ULONG_MAX && hi - lo < 3
    ensures T.ParseRange("n", T.Num(lo, 1) + "-" + T.Num(hi, 1)) == Some(Range("n", lo, hi, Len(lo, 1), false))
  {
    RT.TwoNumbers("n", lo, hi);
  }

  lemma {:induction false} TopDigits(n: nat, m: nat)
    requires n == ULONG_MAX - 2 && m == ULONG_MAX - 1
    ensures n / 10 == m / 10
  {
  }

  lemma {:induction false} SameDigits(n: nat, m: nat)
    requires n >= 10 && m >= 10 && n / 10 == m / 10
    ensures NDigits(n) == NDigits(m) && Len(n, 1) == Len(m, 1)
  {
  }

  lemma {:induction false} EndlessPair(a: Range, b: Range)
    requires WellFormed(a) && WellFormed(b) && SameShape(a, b) && Top(a) && Top(b) && Len(a.lo, a.width) == Len(b.lo, b.width)
    requires a.lo + 1 == b.lo
    ensures AllWellFormed([a, b]) && Uniform([a, b]) && Comparable([a, b]) && Sorted([a, b]) && TwoTops([a, b])
  {
    assert Top([a, b][0]) && Top([a, b][1]);
  }

  // ---- joining neighbours in a list ----

  lemma {:induction false} ReplacedPair(hr: seq<Range>, i: nat, r: Range)
    requires AllWellFormed(hr) && 0 < i < |hr| && Joinable(hr[i - 1], hr[i]) && JoinShape(hr[i - 1], hr[i], r)
    requires Covers(r, hr[i - 1], hr[i]) <==> GoodJoin(hr[i - 1], hr[i])
    ensures var t, q := Merged(hr, i, r), JoinedRange(hr[i - 1], hr[i]);
            && Canons(t) == Canons(Merged(hr, i, q)) && |t| == |hr| - 1
            && Total(t) == Total(hr) - (Count(hr[i - 1]) + Count(hr[i]) - Count(q))
            && (GoodJoin(hr[i - 1], hr[i]) ==> AllWellFormed(t) && forall x :: x in All(t) <==> x in All(hr))
  {
    var a, b, q := hr[i - 1], hr[i], JoinedRange(hr[i - 1], hr[i]);
    assert WellFormed(a) && WellFormed(b);
    CanonsMerged(hr, i, r, q);
    MergedHosts(hr, i, r);
    if GoodJoin(a, b) {
      GoodJoined(a, b, r);
      JoinHosts(hr, i, r, Count(a) + Count(b) - Count(q));
    }
  }

  lemma {:induction false} GoodJoined(a: Range, b: Range, r: Range)
    requires WellFormed(a) && WellFormed(b) && Joinable(a, b) && JoinShape(a, b, r) && GoodJoin(a, b) && Covers(r, a, b)
    ensures Joined(a, b, r, Count(a) + Count(b) - Count(JoinedRange(a, b)))
  {
  }

  lemma {:induction false} ReplacedOrder(hr: seq<Range>, i: nat, r: Range, dup: int)
    requires AllWellFormed(hr) && 0 < i < |hr| && Joinable(hr[i - 1], hr[i]) && CmpResult(hr[i - 1], hr[i]) <= 0
    requires JoinShape(hr[i - 1], hr[i], r) && dup == Dup(hr[i - 1], hr[i]) && GoodJoin(hr[i - 1], hr[i])
    requires Covers(r, hr[i - 1], hr[i])
    ensures KeepsOrder(hr, Merged(hr, i, r), i, true)
  {
    if Sorted(hr) && Comparable(hr) && Small(hr) {
      PairFits(hr, i);
      assert WellFormed(hr[i - 1]) && WellFormed(hr[i]);
      Fits(hr[i - 1], hr[i], r);
      JoinOrder(hr, i, r, dup);
    }
  }

  lemma {:induction false} ReplacedSmall(hr: seq<Range>, i: nat, r: Range)
    requires AllWellFormed(hr) && 0 < i < |hr| && Small(hr) && Joinable(hr[i - 1], hr[i]) && JoinShape(hr[i - 1], hr[i], r)
    ensures AllWellFormed(Merged(hr, i, r)) ==> Small(Merged(hr, i, r))
  {
    PairFits(hr, i);
    MergedHosts(hr, i, r);
    var a, b := hr[i - 1], hr[i];
    assert WellFormed(a) && WellFormed(b) && r in Merged(hr, i, r) by { assert Merged(hr, i, r)[i - 1] == r; }
    if WellFormed(r) { JoinedCount(a, b); }
  }

  /** Two ranges that touch have no more hosts once they are joined, if they are still a range. */
  lemma {:induction false} JoinedCount(a: Range, b: Range)
    requires WellFormed(a) && WellFormed(b) && Joinable(a, b) && WellFormed(JoinedRange(a, b))
    requires Count(a) + Count(b) < INT_RANGE / 2
    ensures Count(JoinedRange(a, b)) <= Count(a) + Count(b)
  {
  }

  /** A C int with `d` taken off. */
  predicate Lowered(n: int, was: int, d: int) {
    n == Int32(was - d)
  }

  lemma {:induction false} TotalReplaced(hr: seq<Range>, i: nat, r: Range)
    requires AllWellFormed(hr) && 0 < i < |hr| && JoinShape(hr[i - 1], hr[i], r)
    ensures Total(Merged(hr, i, r)) == Total(hr) - (Count(hr[i - 1]) + Count(hr[i]) - Count(JoinedRange(hr[i - 1], hr[i])))
  {
    MergedHosts(hr, i, r);
  }

  /** `n` is the number of hosts as a C int. */
  predicate Counts(n: int, hr: seq<Range>) {
    n == Int32(Total(hr))
  }

  lemma {:induction false} CountReplaced(hr: seq<Range>, i: nat, r: Range, n: int, n': int)
    requires AllWellFormed(hr) && 0 < i < |hr| && JoinShape(hr[i - 1], hr[i], r)
    requires Counts(n, hr) && Lowered(n', n, Dup(hr[i - 1], hr[i]))
    ensures Counts(n', Merged(hr, i, r))
  {
    var a, b := hr[i - 1], hr[i];
    TotalReplaced(hr, i, r);
    CountFollows(hr, Merged(hr, i, r), n, n', Count(a) + Count(b) - Count(JoinedRange(a, b)), Dup(a, b));
  }

  lemma {:induction false} CountFollows(hr: seq<Range>, t: seq<Range>, n: int, n': int, d: int, dup: int)
    requires Counts(n, hr) && Total(t) == Total(hr) - d && dup == Int32(d) && Lowered(n', n, dup)
    ensures Counts(n', t)
  {
    Int32Sum(Total(hr), 0 - dup);
    Int32Sum(Total(hr), d);
  }

  /** `t` is `hr` with neighbours that touch replaced by the joined range; a good join keeps the hosts. */
  ghost predicate PairReplaced(hr: seq<Range>, t: seq<Range>, i: nat)
    requires 0 < i < |hr|
  {
    && Canons(t) == Canons(Merged(hr, i, JoinedRange(hr[i - 1], hr[i]))) && |t| == |hr| - 1
    && (GoodJoin(hr[i - 1], hr[i]) ==>
          AllWellFormed(t) && KeepsOrder(hr, t, i, true) && forall x :: x in All(t) <==> x in All(hr))
    && (Small(hr) && AllWellFormed(t) ==> Small(t))
  }

  lemma {:induction false} PairIsReplaced(hr: seq<Range>, i: nat, r: Range)
    requires AllWellFormed(hr) && 0 < i < |hr| && Joinable(hr[i - 1], hr[i]) && CmpResult(hr[i - 1], hr[i]) <= 0
    requires JoinShape(hr[i - 1], hr[i], r) && (Covers(r, hr[i - 1], hr[i]) <==> GoodJoin(hr[i - 1], hr[i]))
    ensures PairReplaced(hr, Merged(hr, i, r), i)
  {
    ReplacedPair(hr, i, r);
    if GoodJoin(hr[i - 1], hr[i]) { ReplacedOrder(hr, i, r, Dup(hr[i - 1], hr[i])); }
    if Small(hr) { ReplacedSmall(hr, i, r); }
  }

  lemma {:induction false} KeptPair(hr: seq<Range>, i: nat, a: Range, b: Range)
    requires AllWellFormed(hr) && 0 < i < |hr| && Joinable(hr[i - 1], hr[i]) && Dup(hr[i - 1], hr[i]) < 0
    requires JoinShape(hr[i - 1], hr[i], a) && Rewidth(hr[i], b, hr[i - 1].width)
    requires Covers(a, hr[i - 1], hr[i]) <==> GoodJoin(hr[i - 1], hr[i])
    ensures forall x :: x in All(hr[i - 1 := a][i := b]) <==> x in All(hr)
  {
    var t := hr[i - 1 := a][i := b];
    assert WellFormed(hr[i - 1]) && WellFormed(hr[i]);
    RewidthExpands(hr[i], b, hr[i - 1].width);
    MergedHosts(hr, i, a);
    MergedHosts(t, i, a);
    assert t[..i - 1] == hr[..i - 1] && t[i + 1..] == hr[i + 1..];
    forall x ensures x in All(t) <==> x in All(hr) {
      BothStay(hr[i - 1], hr[i], a, x);
    }
  }

  // ---- collapse ----

  /** One pass of the loop of hostlist_collapse. */
  function MergedAt(hr: seq<Range>, i: nat): seq<Range>
    requires 0 < i < |hr|
  {
    if Meet(hr[i - 1], hr[i]) then Merged(hr, i, Extended(hr[i - 1], hr[i])) else hr
  }

  /** The whole loop, from place `i` down. */
  function Collapsed(hr: seq<Range>, i: nat): seq<Range>
    requires i < |hr| || i == 0
    decreases i
  {
    if i == 0 then hr else Collapsed(MergedAt(hr, i), i - 1)
  }

  function CollapsedAll(hr: seq<Range>): seq<Range> {
    if hr == [] then [] else Collapsed(hr, |hr| - 1)
  }

  /** What the loop has made of `was` when it comes to place `i`. */
  predicate Collapsing(was: seq<Range>, hr: seq<Range>, i: int) {
    i < |hr| && (was == [] ==> hr == []) && (was != [] ==> 0 <= i && Collapsed(hr, i) == Collapsed(was, |was| - 1))
  }

  /** Somewhere up to place `i` a range that ends at ULONG_MAX is followed by one that starts at 0. */
  predicate Arounds(hr: seq<Range>, i: nat) {
    exists k :: 0 < k <= i && k < |hr| && MeetAround(hr[k - 1], hr[k])
  }

  /** Names without a number have none. */
  predicate Tidy(hr: seq<Range>) {
    forall r :: r in hr && r.single ==> r.lo == 0 && r.hi == 0
  }

  lemma {:induction false} MergedNotMore(hr: seq<Range>, i: nat, t: seq<Range>)
    requires 0 < i < |hr| && Tidy(hr) && t == MergedAt(hr, i)
    ensures |All(t)| <= |All(hr)| && Tidy(t) && i <= |t|
  {
    var a, b := hr[i - 1], hr[i];
    assert a in hr && b in hr;
    if Meet(a, b) {
      MergedHosts(hr, i, Extended(a, b));
      ExtendedNotMore(a, b);
      forall x | x in t ensures x == Extended(a, b) || x in hr { MergedMember(hr, i, Extended(a, b), x); }
    }
  }

  lemma {:induction false} CollapsedStep(hr: seq<Range>, i: nat, t: seq<Range>)
    requires 0 < i < |hr| && t == MergedAt(hr, i) && i <= |t|
    ensures Collapsed(hr, i) == Collapsed(t, i - 1)
  {
  }

  /** `t` has no more hosts than `hr`. */
  ghost predicate NotMore(hr: seq<Range>, t: seq<Range>) {
    |All(t)| <= |All(hr)|
  }

  lemma {:induction false} NotMoreTwice(hr: seq<Range>, t: seq<Range>, u: seq<Range>)
    requires NotMore(hr, t) && NotMore(t, u)
    ensures NotMore(hr, u)
  {
  }

  lemma {:induction false} CollapsedNotMore(hr: seq<Range>, i: nat)
    requires (i < |hr| || i == 0) && Tidy(hr)
    ensures NotMore(hr, Collapsed(hr, i))
    decreases i
  {
    if i > 0 {
      var t := OneMerge(hr, i);
      CollapsedNotMore(t, i - 1);
      NotMoreTwice(hr, t, Collapsed(t, i - 1));
    }
  }

  lemma {:induction false} OneMerge(hr: seq<Range>, i: nat) returns (t: seq<Range>)
    requires 0 < i < |hr| && Tidy(hr)
    ensures i <= |t| && Tidy(t) && NotMore(hr, t) && Collapsed(hr, i) == Collapsed(t, i - 1)
  {
    t := MergedAt(hr, i);
    MergedNotMore(hr, i, t);
    CollapsedStep(hr, i, t);
  }

  /** A range that took up the next one meets the range before it as it did. */
  lemma {:induction false} MeetsStill(z: Range, a: Range, b: Range)
    requires Combines(a.lo, a.width, b.lo, b.width)
    ensures MeetAround(z, Extended(a, b)) <==> MeetAround(z, a)
  {
    ExtendedWidth(a, b);
    RewidthCombines(z, z, a, Extended(a, b).(hi := a.hi));
  }

  lemma {:induction false} AroundsStay(hr: seq<Range>, i: nat)
    requires 0 < i < |hr| && !MeetAround(hr[i - 1], hr[i])
    ensures Arounds(MergedAt(hr, i), i - 1) <==> Arounds(hr, i)
  {
    var t := MergedAt(hr, i);
    forall k | 0 < k < i ensures MeetAround(t[k - 1], t[k]) <==> MeetAround(hr[k - 1], hr[k]) {
      if Meet(hr[i - 1], hr[i]) {
        assert t[k - 1] == hr[k - 1] && t[k] == if k == i - 1 then Extended(hr[i - 1], hr[i]) else hr[k];
        if k == i - 1 { MeetsStill(hr[k - 1], hr[k], hr[i]); }
      }
    }
    if k :| 0 < k <= i && MeetAround(hr[k - 1], hr[k]) { assert MeetAround(t[k - 1], t[k]); }
  }

  lemma {:induction false} MergedKeeps(hr: seq<Range>, i: nat)
    requires 0 < i < |hr| && AllWellFormed(hr)
    ensures !MeetAround(hr[i - 1], hr[i]) ==> AllWellFormed(MergedAt(hr, i)) && All(MergedAt(hr, i)) == All(hr)
    ensures MeetAround(hr[i - 1], hr[i]) ==> |All(MergedAt(hr, i))| < |All(hr)| && Tidy(MergedAt(hr, i))
  {
    var a, b := hr[i - 1], hr[i];
    assert WellFormed(a) && WellFormed(b);
    if Meet(a, b) {
      ExtendedHosts(a, b);
      MergedHosts(hr, i, Extended(a, b));
      forall x | x in MergedAt(hr, i) ensures x == Extended(a, b) || WellFormed(x) {
        MergedMember(hr, i, Extended(a, b), x);
      }
    }
  }

  /** hostlist_collapse keeps the sequence of hosts exactly if it joins no two ranges around ULONG_MAX. */
  lemma {:induction false} CollapseExactly(hr: seq<Range>, i: nat)
    requires (i < |hr| || i == 0) && AllWellFormed(hr)
    ensures All(Collapsed(hr, i)) == All(hr) <==> !Arounds(hr, i)
    ensures !Arounds(hr, i) ==> AllWellFormed(Collapsed(hr, i))
    decreases i
  {
    if i > 0 {
      MergedKeeps(hr, i);
      if MeetAround(hr[i - 1], hr[i]) {
        CollapsedNotMore(MergedAt(hr, i), i - 1);
      } else {
        AroundsStay(hr, i);
        CollapseExactly(MergedAt(hr, i), i - 1);
      }
    }
  }

  lemma {:induction false} WholeCollapse(hr: seq<Range>)
    requires AllWellFormed(hr)
    ensures All(CollapsedAll(hr)) == All(hr) <==> !Arounds(hr, |hr|)
    ensures !Arounds(hr, |hr|) ==> AllWellFormed(CollapsedAll(hr))
  {
    if hr != [] {
      CollapseExactly(hr, |hr| - 1);
      assert Arounds(hr, |hr|) <==> Arounds(hr, |hr| - 1);
    }
  }

  /** Where no neighbours overlap there are no such ranges. */
  lemma {:induction false} ApartNotAround(hr: seq<Range>, i: nat)
    requires AllWellFormed(hr) && TailApart(hr, 0)
    ensures !Arounds(hr, i)
  {
    forall k | 0 < k <= i && k < |hr| ensures !MeetAround(hr[k - 1], hr[k]) {
      assert !Overlap(hr[k - 1], hr[k]) && WellFormed(hr[k - 1]);
    }
  }

  /** What the loop of hostlist_coalesce keeps. */
  ghost predicate Splitting(hr: seq<Range>, i: int, bag: multiset<Host>, start: seq<Range>) {
    && Good(hr) && TailApart(hr, i) && multiset(All(hr)) == bag && 0 <= Spread(hr) && 0 <= Weight(hr)
    && forall p :: Tops(hr, p) == Tops(start, p)
  }

  /** Neighbours that make the loop endless were there from the start. */
  lemma {:induction false} EndlessTops(hr: seq<Range>, i: nat, start: seq<Range>)
    requires 0 < i < |hr| && Overlap(hr[i - 1], hr[i]) && hr[i - 1].lo <= hr[i].lo
    requires hr[i - 1].hi == hr[i].hi == ULONG_MAX && forall p :: Tops(hr, p) == Tops(start, p)
    ensures TwoTops(start)
  {
    TwoTopsCount(hr, i - 1, i);
    CountTwoTops(start, hr[i].prefix);
  }

  lemma {:induction false} NoTwoTops(hr: seq<Range>, start: seq<Range>)
    requires Good(hr) && TailApart(hr, 0) && forall p :: Tops(hr, p) == Tops(start, p)
    ensures !TwoTops(start)
  {
    ApartOneTop(hr);
    if TwoTops(start) {
      var i, j :| 0 <= i < j < |start| && Top(start[i]) && Top(start[j]) && start[i].prefix == start[j].prefix;
      TwoTopsCount(start, i, j);
      CountTwoTops(hr, start[i].prefix);
    }
  }

  /** A split keeps what the loop keeps, and lowers the measure. */
  lemma {:induction false} SplittingOn(hr: seq<Range>, i: nat, bag: multiset<Host>, start: seq<Range>, t: seq<Range>)
    requires 0 < i < |hr| && Splitting(hr, i, bag, start) && Overlap(hr[i - 1], hr[i]) && hr[i - 1].lo <= hr[i].lo
    requires Min(hr[i - 1].hi, hr[i].hi) < ULONG_MAX
    requires t == SplitAt(hr, i) && multiset(All(t)) == multiset(All(hr))
    ensures Splitting(t, |t| - 1, bag, start) && Spread(t) <= Spread(hr) && (Spread(t) == Spread(hr) ==> Weight(t) < Weight(hr))
  {
    SplitGood(hr, i);
    SplitMeasure(hr, i);
    SpreadBounds(t);
    forall p ensures Tops(t, p) == Tops(start, p) { SplitTops(hr, i, p); }
  }

  lemma {:induction false} TailGrows(hr: seq<Range>, i: nat)
    requires 0 < i < |hr| && TailApart(hr, i) && !Overlap(hr[i - 1], hr[i])
    ensures TailApart(hr, i - 1)
  {
  }

  lemma {:induction false} CountPushed(hr: seq<Range>, r: Range, n: int, n': int)
    requires AllWellFormed(hr) && WellFormed(r) && !Wraps(hr, r) && Counts(n, hr) && n' == Int32(n + UCount(r))
    ensures AllWellFormed(Push(hr, r)) && Counts(n', Push(hr, r))
  {
    PushTotal(hr, r);
    Int32Sum(Total(hr), UCount(r));
    UCountSame(Total(hr), r);
  }

  class Hostlist {
    var hr: seq<Range>
    var nhosts: int

    ghost predicate Valid()
      reads this
    {
      AllWellFormed(hr) && Counts(nhosts, hr)
    }

    constructor ()
      ensures Valid() && hr == []
    {
      hr, nhosts := [], 0;
    }

    /** hostlist_push_range. */
    method PushRange(r: Range)
      modifies this
      ensures hr == Push(old(hr), r)
      ensures old(Valid()) && WellFormed(r) && !Wraps(old(hr), r) ==> Valid()
    {
      nhosts := Int32(nhosts + UCount(r));
      if AllWellFormed(hr) && WellFormed(r) && Counts(old(nhosts), hr) && !Wraps(hr, r) {
        CountPushed(hr, r, old(nhosts), nhosts);
      }
      if |hr| > 0 {
        var tail := hr[|hr| - 1];
        if PrefixCmp(tail, r) == 0 && tail.hi == Pred(r.lo) {
          var ok, wt, wr := WidthEquiv(tail.lo, tail.width, r.lo, r.width);
          if ok {
            hr := hr[|hr| - 1 := tail.(width := wt, hi := r.hi)];
            return;
          }
        }
      }
      hr := hr + [r];
    }

    /** hostlist_insert_range. */
    method InsertRange(r: Range, n: nat)
      modifies this`hr
      ensures hr == if n <= |old(hr)| then old(hr)[..n] + [r] + old(hr)[n..] else old(hr)
    {
      if n > |hr| {
        return;
      }
      hr := hr[..n] + [r] + hr[n..];
    }

    /** hostlist_delete_range. */
    method DeleteRange(n: nat)
      requires n < |hr|
      modifies this`hr
      ensures hr == old(hr)[..n] + old(hr)[n + 1..]
    {
      hr := hr[..n] + hr[n + 1..];
    }

    /**
      The body of hostlist_coalesce for neighbours that intersect in `n`.  If the first one comes out
      empty it is the second that is deleted and freed, and the loop that follows would read it.  If `n`
      ends at ULONG_MAX that loop has no end, and nothing more is said.
    */
    method Split(i: nat, n: Range) returns (freed: bool, endless: bool)
      requires 0 < i < |hr| && WellFormed(hr[i - 1]) && WellFormed(hr[i]) && Overlap(hr[i - 1], hr[i])
      requires n == hr[i - 1].(lo := hr[i].lo, hi := Min(hr[i - 1].hi, hr[i].hi))
      modifies this`hr
      ensures freed <==> old(hr[i].lo) < old(hr[i - 1].lo)
      ensures endless <==> !freed && old(hr[i - 1].hi) == old(hr[i].hi) == ULONG_MAX
      ensures !freed && !endless ==> hr == SplitAt(old(hr), i)
      ensures freed ==> hr == old(hr)[..i - 1] + [old(hr)[i - 1].(hi := old(hr)[i].lo)] + old(hr)[i + 1..]
    {
      ghost var pre, post := hr[..i - 1], hr[i + 1..];
      var prev, next := hr[i - 1], hr[i];
      if n.hi < prev.hi {
        next := next.(hi := prev.hi);
      }
      prev := prev.(hi := n.lo);
      next := next.(lo := n.hi);
      hr := hr[i - 1 := prev][i := next];
      freed := prev.hi < prev.lo || prev.hi == ULONG_MAX;   // hostrange_empty(hprev)
      assert hr[..i] == pre + [prev] && hr[i..] == [next] + post;
      if freed {
        endless := false;
        DeleteRange(i);
      } else {
        endless := InsertSingles(n, i);
      }
    }

    method InsertOne(one: Range, j: nat, ghost left: seq<Range>, ghost done: seq<Range>, ghost right: seq<Range>)
      requires hr == left + done + right && j == |left + done|
      modifies this`hr
      ensures hr == left + (done + [one]) + right
    {
      PutBetween(left, done, one, right);
      InsertRange(one, j);
    }

    /** The inner loop of hostlist_coalesce, which counts on an unsigned long: it has an end exactly if the
        counter can pass `n.hi`. */
    method InsertSingles(n: Range, i: nat) returns (endless: bool)
      requires i <= |hr| && n.lo <= n.hi <= ULONG_MAX
      modifies this`hr
      ensures endless <==> !exists t: nat :: After(n.lo, t) > n.hi
      ensures endless <==> n.hi == ULONG_MAX
      ensures !endless ==> hr == old(hr)[..i] + Middle(n.prefix, n.width, n.lo, n.hi, n.lo) + old(hr)[i..]
    {
      CountingEnds(n.lo, n.hi);
      endless := n.hi == ULONG_MAX;
      if endless {
        return;
      }
      var j, k := i, n.lo;
      ghost var left, right, done, all := hr[..i], hr[i..], [], Middle(n.prefix, n.width, n.lo, n.hi, n.lo);
      assert hr == left + done + right;
      while k <= n.hi
        invariant n.lo <= k <= n.hi + 1 && j == |left + done|
        invariant hr == left + done + right && all == done + Middle(n.prefix, n.width, n.lo, n.hi, k)
      {
        var one := Range(n.prefix, k, k, n.width, false);
        MiddleStep(n.prefix, n.width, n.lo, n.hi, k, done);
        if k > n.lo {
          InsertOne(one, j, left, done, right);
          done := done + [one];
          j := j + 1;
        }
        if k < n.hi {
          InsertOne(one, j, left, done, right);
          done := done + [one];
          j := j + 1;
        }
        k := Succ(k);
      }
    }

    /** Neighbours of one width that the comparison has put in order, and that intersect, are split; the hosts
        are kept unless the lower ends are the other way round, or both end at ULONG_MAX. */
    method SplitNeighbours(i: nat) returns (found: bool, freed: bool, endless: bool)
      requires AllWellFormed(hr) && 0 < i < |hr| && SameWidth(hr[i - 1], hr[i])
      requires PrefixCmp(hr[i - 1], hr[i]) == 0 ==> CmpResult(hr[i - 1], hr[i]) <= 0
      requires PrefixCmp(hr[i - 1], hr[i]) <= 0
      modifies this`hr
      ensures found <==> old(Overlap(hr[i - 1], hr[i]))
      ensures freed <==> found && old(hr[i].lo < hr[i - 1].lo)
      ensures endless <==> found && !freed && old(hr[i - 1].hi) == old(hr[i].hi) == ULONG_MAX
      ensures !found ==> hr == old(hr)
      ensures found && !freed && !endless ==> hr == SplitAt(old(hr), i) && multiset(All(hr)) == multiset(old(All(hr)))
    {
      var n, a, b := Intersect(hr[i - 1], hr[i]);
      found, freed, endless := n.Some?, false, false;
      if found {
        if hr[i - 1].lo <= hr[i].lo { SplitHosts(hr, i); }
        freed, endless := Split(i, n.value);
      }
    }

    /** One pass of the loop of hostlist_coalesce, which starts over after every split. */
    method SplitPass(i: nat, ghost bag: multiset<Host>, ghost start: seq<Range>) returns (j: int, endless: bool)
      requires Splitting(hr, i, bag, start) && 0 < i < |hr|
      modifies this`hr
      ensures endless ==> TwoTops(start)
      ensures !endless ==> Splitting(hr, j, bag, start) && j < |hr| && Spread(hr) <= Spread(old(hr))
      ensures !endless && Spread(hr) == Spread(old(hr)) ==>
                Weight(hr) < Weight(old(hr)) || (Weight(hr) == Weight(old(hr)) && j < i)
    {
      assert Link(hr[i - 1], hr[i]) && SameWidth(hr[i - 1], hr[i]) && WellFormed(hr[i - 1]) && WellFormed(hr[i]);
      LinkCompares(hr[i - 1], hr[i]);
      ghost var was := hr;
      var found, freed;
      found, freed, endless := SplitNeighbours(i);
      j := i - 1;
      if found {
        LowOrder(was[i - 1], was[i]);
        if endless {
          EndlessTops(was, i, start);
        } else {
          SplittingOn(was, i, bag, start, hr);
          j := |hr| - 1;
        }
      } else {
        TailGrows(hr, i);
      }
    }

    /** hostlist_coalesce without its last call: it comes to an end exactly if no two ranges of one prefix, of
        two or more hosts each, end at ULONG_MAX. */
    method SplitOverlaps() returns (endless: bool)
      requires Good(hr)
      modifies this`hr
      ensures endless <==> TwoTops(old(hr))
      ensures !endless ==> Good(hr) && TailApart(hr, 0) && multiset(All(hr)) == multiset(old(All(hr)))
    {
      var i := |hr| - 1;
      SpreadBounds(hr);
      ghost var bag, start := multiset(All(hr)), hr;
      endless := false;
      while i > 0
        invariant i < |hr| && Splitting(hr, i, bag, start)
        decreases Spread(hr), Weight(hr), i
      {
        i, endless := SplitPass(i, bag, start);
        if endless {
          return;
        }
      }
      NoTwoTops(hr, start);
    }

    /** Range `i` goes, `r` takes the place of the one before it. */
    method MergeInto(i: nat, r: Range)
      requires 0 < i < |hr|
      modifies this`hr
      ensures hr == Merged(old(hr), i, r)
      ensures AllWellFormed(old(hr)) && WellFormed(r) ==> AllWellFormed(hr)
    {
      hr := hr[i - 1 := r];
      DeleteRange(i);
    }

    /** One pass of the loop of hostlist_collapse. */
    method MergeNeighbours(i: nat)
      requires 0 < i < |hr|
      modifies this`hr
      ensures hr == MergedAt(old(hr), i) && i <= |hr|
    {
      var prev, next := hr[i - 1], hr[i];
      if PrefixCmp(prev, next) == 0 && prev.hi == Pred(next.lo) {
        var ok, wp, wn := WidthEquiv(prev.lo, prev.width, next.lo, next.width);
        if ok {
          MergeInto(i, prev.(width := wp, hi := next.hi));
        }
      }
    }

    /** hostlist_collapse. */
    method Collapse()
      modifies this`hr
      ensures hr == CollapsedAll(old(hr))
      ensures old(AllWellFormed(hr)) ==> (All(hr) == old(All(hr)) <==> !Arounds(old(hr), |old(hr)|))
      ensures old(AllWellFormed(hr)) && !Arounds(old(hr), |old(hr)|) ==> AllWellFormed(hr)
    {
      ghost var was := hr;
      var i := |hr| - 1;
      while i > 0
        invariant Collapsing(was, hr, i)
      {
        MergeNeighbours(i);
        i := i - 1;
      }
      if AllWellFormed(was) { WholeCollapse(was); }
    }

    /** hostlist_sort: it comes to an end exactly if no two ranges of one prefix, of two or more hosts each, end
        at ULONG_MAX; then the hosts are sorted. */
    method Sort() returns (endless: bool)
      requires Valid() && Uniform(hr) && Comparable(hr)
      modifies this
      ensures endless <==> TwoTops(old(hr))
      ensures !endless ==> Valid() && nhosts == old(nhosts)
      ensures !endless ==> multiset(All(hr)) == multiset(old(All(hr))) && SortedHosts(All(hr))
    {
      if |hr| <= 1 {
        assert TailApart(hr, 0) && Sorted(hr);
        ApartSorted(hr);
        return false;
      }
      var t := Qsort(hr);
      RearrangedHosts(hr, t);
      UniformFrom(t, hr);
      TwoTopsSame(hr, t);
      hr := t;
      endless := SplitOverlaps();
      if endless {
        return;
      }
      ApartSorted(hr);
      ApartNotAround(hr, |hr|);
      Collapse();
      SameTotal(hr, old(hr));
    }

    /**
      _attempt_range_join, on neighbours that the comparison has put in order.  If they touch and the number of
      duplicates is not negative as an int, they are replaced by the joined range; the hosts are kept if
      that is a good join.
    */
    method AttemptRangeJoin(loc: nat) returns (ndup: int)
      requires AllWellFormed(hr) && 0 < loc < |hr| && CmpResult(hr[loc - 1], hr[loc]) <= 0
      modifies this
      ensures ndup == if old(Joinable(hr[loc - 1], hr[loc])) then old(Dup(hr[loc - 1], hr[loc])) else -1
      ensures ndup >= 0 ==> PairReplaced(old(hr), hr, loc) && Lowered(nhosts, old(nhosts), ndup)
      ensures ndup < 0 ==> |hr| == old(|hr|) && nhosts == old(nhosts) && forall x :: x in All(hr) <==> x in old(All(hr))
      ensures old(Valid()) && ndup >= 0 && AllWellFormed(hr) ==> Valid()
      ensures !old(Joinable(hr[loc - 1], hr[loc])) ==>
                KeepsOrder(old(hr), hr, loc, false) && Total(hr) == Total(old(hr)) && (old(Valid()) ==> Valid())
      ensures old(Small(hr)) ==> (ndup >= 0 <==> old(Joinable(hr[loc - 1], hr[loc])))
    {
      var a, b := hr[loc - 1], hr[loc];
      assert WellFormed(a) && WellFormed(b);
      var a', b';
      ndup, a', b' := Join(a, b);
      if Joinable(a, b) {
        if Small(hr) {
          PairFits(hr, loc);
          Fits(a, b, a');
        }
        if ndup >= 0 {
          ReplacePair(loc, a', ndup);
        } else {
          KeepPair(loc, a', b');
        }
      } else {
        RewidthPair(loc, a', b');
      }
    }

    method Lower(d: int)
      modifies this`nhosts
      ensures Lowered(nhosts, old(nhosts), d)
    {
      nhosts := Int32(nhosts - d);
    }

    /** The joined range takes the place of the two. */
    method ReplacePair(loc: nat, r: Range, ndup: nat)
      requires AllWellFormed(hr) && 0 < loc < |hr| && Joinable(hr[loc - 1], hr[loc]) && CmpResult(hr[loc - 1], hr[loc]) <= 0
      requires JoinShape(hr[loc - 1], hr[loc], r) && ndup == Dup(hr[loc - 1], hr[loc])
      requires Covers(r, hr[loc - 1], hr[loc]) <==> GoodJoin(hr[loc - 1], hr[loc])
      modifies this
      ensures PairReplaced(old(hr), hr, loc) && Lowered(nhosts, old(nhosts), ndup)
      ensures old(Counts(nhosts, hr)) ==> Counts(nhosts, hr)
    {
      PairIsReplaced(hr, loc, r);
      Lower(ndup);
      if Counts(old(nhosts), hr) { CountReplaced(hr, loc, r, old(nhosts), nhosts); }
      MergeInto(loc, r);
    }

    /** The first range has taken up the second, which stays. */
    method KeepPair(loc: nat, a: Range, b: Range)
      requires AllWellFormed(hr) && 0 < loc < |hr| && Joinable(hr[loc - 1], hr[loc]) && Dup(hr[loc - 1], hr[loc]) < 0
      requires JoinShape(hr[loc - 1], hr[loc], a) && Rewidth(hr[loc], b, hr[loc - 1].width)
      requires Covers(a, hr[loc - 1], hr[loc]) <==> GoodJoin(hr[loc - 1], hr[loc])
      modifies this`hr
      ensures |hr| == old(|hr|) && forall x :: x in All(hr) <==> x in old(All(hr))
    {
      KeptPair(hr, loc, a, b);
      hr := hr[loc - 1 := a][loc := b];
    }

    /** The comparison may have changed the widths of the two. */
    method RewidthPair(loc: nat, a: Range, b: Range)
      requires AllWellFormed(hr) && 0 < loc < |hr|
      requires Rewidth(hr[loc - 1], a, hr[loc].width) && Rewidth(hr[loc], b, hr[loc - 1].width)
      requires PrefixCmp(hr[loc - 1], hr[loc]) != 0 ==> a == hr[loc - 1] && b == hr[loc]
      modifies this`hr
      ensures AllWellFormed(hr) && Total(hr) == Total(old(hr)) && All(hr) == old(All(hr)) && |hr| == old(|hr|)
      ensures KeepsOrder(old(hr), hr, loc, false)
    {
      RewidthHosts(hr, loc, a, b);
      if Sorted(hr) && Comparable(hr) { RewidthKeeps(hr, loc, a, b); }
      hr := hr[loc - 1 := a][loc := b];
    }

    /** hostlist_uniq. */
    method Uniq()
      requires Valid() && Small(hr) && Comparable(hr)
      modifies this
      ensures Valid() && Small(hr)
      ensures forall x :: x in All(hr) <==> x in old(All(hr))
      ensures Uniform(old(hr)) ==> Distinct(All(hr))
      ensures Uniform(old(hr)) && (forall x :: x in old(All(hr)) ==> RT.Plain(x)) ==> Distinct(T.Names(All(hr)))
      ensures Uniform(old(hr)) ==> forall i, j :: 0 <= i < j < |hr| ==> !Joinable(hr[i], hr[j])
    {
      if |hr| <= 1 {
        GapsDistinct(hr);
        RT.NamesDistinct(All(hr));
        return;
      }
      SortRanges();
      JoinNeighbours(old(hr));
      if Uniform(old(hr)) {
        GapsDistinct(hr);
        RT.NamesDistinct(All(hr));
      }
    }

    method SortRanges()
      requires Valid() && Comparable(hr)
      modifies this`hr
      ensures Valid() && Sorted(hr) && Comparable(hr) && ShapesFrom(hr, old(hr)) && Total(hr) == Total(old(hr))
      ensures forall x :: x in All(hr) <==> x in old(All(hr))
    {
      var t := Qsort(hr);
      RearrangedHosts(hr, t);
      RearrangedNear(hr, t);
      SameMembers(All(t), All(hr));
      hr := t;
    }

    /** The loop of hostlist_uniq. */
    method JoinNeighbours(ghost start: seq<Range>)
      requires Valid() && Small(hr) && Sorted(hr) && Comparable(hr) && ShapesFrom(hr, start)
      modifies this
      ensures Valid() && Small(hr) && Sorted(hr)
      ensures forall x :: x in All(hr) <==> x in old(All(hr))
      ensures Uniform(start) ==> Gaps(hr, |hr|)
    {
      var i := 1;
      while i < |hr|
        invariant 1 <= i && Valid() && Small(hr) && Sorted(hr) && Comparable(hr)
        invariant ShapesFrom(hr, start) && (Uniform(start) ==> Gaps(hr, i))
        invariant forall x :: x in All(hr) <==> x in old(All(hr))
        decreases |hr| - i
      {
        ghost var before := hr;
        if Uniform(start) { UniformFrom(hr, start); }
        LinkCompares(hr[i - 1], hr[i]);
        NextGap(hr, i);
        PairFits(hr, i);
        if Joinable(hr[i - 1], hr[i]) {
          assert WellFormed(hr[i - 1]) && WellFormed(hr[i]) && Link(hr[i - 1], hr[i]);
          LinkGood(hr[i - 1], hr[i]);
        }
        var ndup := AttemptRangeJoin(i);
        ShapesTrans(hr, before, start);
        if ndup < 0 {
          i := i + 1;
        }
      }
    }

    /** hostlist_delete_nth: host `n` goes, and no other, exactly if it is not the first of a range of two or more
        that ends at ULONG_MAX, which hostrange_empty then takes for empty. */
    method DeleteNth(n: nat)
      requires Valid() && Small(hr) && n <= nhosts
      modifies this
      ensures n < |old(All(hr))| ==> (All(hr) == old(All(hr)[..n] + All(hr)[n + 1..]) <==> !TopFirst(old(hr), n))
      ensures n == old(nhosts) ==> hr == old(hr)
      ensures Valid() <==> n < old(nhosts) && !TopFirst(old(hr), n)
    {
      TotalCounts(hr);
      Int32Small(Total(hr));
      var i, count := 0, 0;
      while i < |hr|
        invariant i <= |hr| && count == Total(hr[..i]) <= n && hr == old(hr) && nhosts == old(nhosts)
      {
        var r := hr[i];
        NthRange(hr, i);
        if n <= Count(r) - 1 + count {
          FirstIs(hr, i, n - count, n);
          DeleteHost(i, n - count, n);
          nhosts := nhosts - 1;
          TotalCounts(hr);
          Int32Small(Total(hr));
          return;
        }
        count := count + Count(r);
        i := i + 1;
      }
      assert hr[..i] == hr;
      NoFirst(hr, n);
      nhosts := nhosts - 1;
    }

    /** Host `n` of the list goes, which is host `d` of range `i`; or the whole range. */
    method DeleteHost(i: nat, d: nat, ghost n: nat)
      requires AllWellFormed(hr) && i < |hr| && d < Count(hr[i]) && n == Total(hr[..i]) + d
      modifies this`hr
      ensures AllWellFormed(hr) && n < |old(All(hr))|
      ensures d == 0 && Top(old(hr)[i]) ==> Total(hr) < Total(old(hr)) - 1
      ensures !(d == 0 && Top(old(hr)[i])) ==>
                All(hr) == old(All(hr))[..n] + old(All(hr))[n + 1..] && Total(hr) == Total(old(hr)) - 1
    {
      assert WellFormed(hr[i]);
      LeftoverHosts(hr, i, d);
      if d == 0 && Top(hr[i]) { RangeGone(hr, i); }
      TotalCounts(hr);
      DeleteWithin(i, d);
      TotalCounts(hr);
    }

    /** hostrange_delete_host, or the whole range. */
    method DeleteWithin(i: nat, d: nat)
      requires i < |hr| && WellFormed(hr[i]) && d < Count(hr[i])
      modifies this`hr
      ensures hr == old(hr)[..i] + (if d == 0 && Top(old(hr)[i]) then [] else Leftover(old(hr)[i], d)) + old(hr)[i + 1..]
    {
      var r, num := hr[i], hr[i].lo + d;
      if r.single {
        DeleteRange(i);
      } else if num == r.lo || num == r.hi {
        r := if num == r.lo then r.(lo := Succ(r.lo)) else r.(hi := r.hi - 1);
        hr := hr[i := r];
        if r.hi < r.lo || r.hi == ULONG_MAX {   // hostrange_empty
          DeleteRange(i);
        }
      } else {
        hr := hr[i := r.(hi := num - 1)];
        InsertRange(r.(lo := num + 1), i + 1);
      }
    }
  }
}
