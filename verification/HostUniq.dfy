/**
  What hostlist_uniq does to the list of ranges: joining neighbours keeps the set of hosts and the
  order, and once no neighbours can be joined no host is left twice.
*/
module HostUniq {
  import opened Common
  import opened HostRange
  import opened HostSeq
  import opened HostSort

  /** What hostrange_join does to its first argument when it succeeds. */
  ghost predicate Joined(a: Range, b: Range, a': Range, dup: int) {
    && WellFormed(a') && Canon(a'.(hi := a.hi)) == Canon(a) && a.prefix == b.prefix && a.single == b.single
    && (a'.width == a.width || a'.width == b.width)
    && (forall x :: x in Expand(a') <==> x in Expand(a) || x in Expand(b))
    && Count(a') == Count(a) + Count(b) - dup
  }

  predicate Joinable(a: Range, b: Range) {
    PrefixCmp(a, b) == 0 && Combines(a.lo, a.width, b.lo, b.width) && (a.single || a.hi + 1 >= b.lo)
  }

  function Merged(hr: seq<Range>, i: nat, r: Range): seq<Range>
    requires 0 < i < |hr|
  {
    hr[..i - 1] + [r] + hr[i + 1..]
  }

  lemma {:induction false} MergedHosts(hr: seq<Range>, i: nat, r: Range)
    requires 0 < i < |hr|
    ensures All(Merged(hr, i, r)) == All(hr[..i - 1]) + Expand(r) + All(hr[i + 1..])
    ensures All(hr) == All(hr[..i - 1]) + (Expand(hr[i - 1]) + Expand(hr[i])) + All(hr[i + 1..])
    ensures Total(Merged(hr, i, r)) == Total(hr) - Count(hr[i - 1]) - Count(hr[i]) + Count(r)
    ensures Total(hr) == Total(hr[..i - 1]) + Count(hr[i - 1]) + Count(hr[i]) + Total(hr[i + 1..])
  {
    var pre, a, b, post := hr[..i - 1], hr[i - 1], hr[i], hr[i + 1..];
    AllAround(pre, [r], post);
    AllOne(r);
    Parts(hr, i);
    AllAround(pre, [a, b], post);
    assert [a, b] == [a] + [b];
    AllConcat([a], [b]);
    AllOne(a);
    AllOne(b);
  }

  lemma {:induction false} PairFits(hr: seq<Range>, i: nat)
    requires AllWellFormed(hr) && 0 < i < |hr|
    ensures Count(hr[i - 1]) + Count(hr[i]) <= Total(hr)
  {
    MergedHosts(hr, i, hr[i]);
    TotalCounts(hr[..i - 1]);
    TotalCounts(hr[i + 1..]);
  }

  lemma {:induction false} JoinHosts(hr: seq<Range>, i: nat, r: Range, dup: int)
    requires AllWellFormed(hr) && 0 < i < |hr| && Joined(hr[i - 1], hr[i], r, dup)
    ensures AllWellFormed(Merged(hr, i, r)) && Total(Merged(hr, i, r)) == Total(hr) - dup
    ensures forall x :: x in All(Merged(hr, i, r)) <==> x in All(hr)
  {
    JoinedTotal(hr, i, r, dup);
    forall x ensures x in All(Merged(hr, i, r)) <==> x in All(hr) {
      JoinedMember(hr, i, r, dup, x);
    }
  }

  lemma {:induction false} JoinedTotal(hr: seq<Range>, i: nat, r: Range, dup: int)
    requires AllWellFormed(hr) && 0 < i < |hr| && Joined(hr[i - 1], hr[i], r, dup)
    ensures AllWellFormed(Merged(hr, i, r)) && Total(Merged(hr, i, r)) == Total(hr) - dup
  {
    MergedHosts(hr, i, r);
    forall x | x in Merged(hr, i, r) ensures WellFormed(x) {
      MergedMember(hr, i, r, x);
    }
  }

  lemma {:induction false} MergedMember(hr: seq<Range>, i: nat, r: Range, x: Range)
    requires 0 < i < |hr| && x in Merged(hr, i, r)
    ensures x == r || x in hr
  {
  }

  lemma {:induction false} JoinedMember(hr: seq<Range>, i: nat, r: Range, dup: int, x: Host)
    requires 0 < i < |hr| && Joined(hr[i - 1], hr[i], r, dup)
    ensures x in All(Merged(hr, i, r)) <==> x in All(hr)
  {
    var pre, post := All(hr[..i - 1]), All(hr[i + 1..]);
    var a, b, e := Expand(hr[i - 1]), Expand(hr[i]), Expand(r);
    assert x in e <==> x in a || x in b;
    JoinMember(pre, a, b, e, post, x);
    MergedHosts(hr, i, r);
  }

  lemma {:induction false} JoinMember(pre: seq<Host>, a: seq<Host>, b: seq<Host>, r: seq<Host>, post: seq<Host>, x: Host)
    requires x in r <==> x in a || x in b
    ensures x in pre + r + post <==> x in pre + (a + b) + post
  {
  }

  /** Ranges that have lower ends and kinds from a comparable list are comparable. */
  lemma {:induction false} NearFrom(hr: seq<Range>, t: seq<Range>)
    requires Comparable(hr)
    requires forall x :: x in t ==> exists y :: y in hr && SameLow(x, y)
    ensures Comparable(t)
  {
    forall a, b | a in t && b in t ensures Near(a, b) {
      var a' :| a' in hr && SameLow(a, a');
      var b' :| b' in hr && SameLow(b, b');
      assert Near(a', b');
    }
  }

  predicate SameLow(a: Range, b: Range) {
    a.prefix == b.prefix && a.single == b.single && a.lo == b.lo
  }

  lemma {:induction false} JoinOrder(hr: seq<Range>, i: nat, r: Range, dup: int)
    requires Sorted(hr) && Comparable(hr) && 0 < i < |hr| && Joined(hr[i - 1], hr[i], r, dup)
    ensures Sorted(Merged(hr, i, r)) && Comparable(Merged(hr, i, r)) && ShapesFrom(Merged(hr, i, r), hr)
    ensures Gaps(hr, i) ==> Gaps(Merged(hr, i, r), i)
  {
    var t := Merged(hr, i, r);
    forall k | 0 < k < |t| ensures Link(t[k - 1], t[k]) {
      if k < i {
        assert Link(hr[k - 1], hr[k]);
      } else if k == i {
        assert Link(hr[i - 1], hr[i]) && Link(hr[i], hr[i + 1]) && Near(hr[i - 1], hr[i + 1]);
        LeTrans(hr[i - 1], hr[i], hr[i + 1]);
      } else {
        assert Link(hr[k], hr[k + 1]);
      }
    }
    forall x | x in t ensures exists y :: y in hr && SameShape(x, y) {
      if x == r {
        assert SameShape(r, hr[i - 1]) || SameShape(r, hr[i]);
      } else {
        assert x in hr && SameShape(x, x);
      }
    }
    forall x | x in t ensures exists y :: y in hr && SameLow(x, y) {
      if x == r {
        assert SameLow(r, hr[i - 1]);
      } else {
        assert x in hr && SameLow(x, x);
      }
    }
    NearFrom(hr, t);
    if Gaps(hr, i) {
      forall k | 0 < k < i ensures Gap(t[k - 1], t[k]) {
        assert Gap(hr[k - 1], hr[k]);
      }
    }
  }

  /** Where hostrange_join declines, at most the widths change. */
  lemma {:induction false} RewidthKeeps(hr: seq<Range>, i: nat, a: Range, b: Range)
    requires AllWellFormed(hr) && Sorted(hr) && Comparable(hr) && 0 < i < |hr|
    requires Rewidth(hr[i - 1], a, hr[i].width) && Rewidth(hr[i], b, hr[i - 1].width)
    requires PrefixCmp(hr[i - 1], hr[i]) != 0 ==> a == hr[i - 1] && b == hr[i]
    ensures var t := hr[i - 1 := a][i := b];
            && AllWellFormed(t) && All(t) == All(hr) && Total(t) == Total(hr)
            && Sorted(t) && Comparable(t) && ShapesFrom(t, hr)
            && (Gaps(hr, i) ==> Gaps(t, i)) && (Gaps(hr, i + 1) ==> Gaps(t, i + 1))
  {
    var t := hr[i - 1 := a][i := b];
    assert WellFormed(hr[i - 1]) && WellFormed(hr[i]);
    RewidthExpands(hr[i - 1], a, a.width);
    RewidthExpands(hr[i], b, b.width);
    assert Canons(t) == Canons(hr);
    CanonsExpand(t);
    CanonsExpand(hr);
    SameCanons(hr, t, i);
    SameCanons(hr, t, i + 1);
    RewidthShapes(hr, i, a, b);
  }

  lemma {:induction false} RewidthHosts(hr: seq<Range>, i: nat, a: Range, b: Range)
    requires AllWellFormed(hr) && 0 < i < |hr|
    requires Rewidth(hr[i - 1], a, hr[i].width) && Rewidth(hr[i], b, hr[i - 1].width)
    requires PrefixCmp(hr[i - 1], hr[i]) != 0 ==> a == hr[i - 1] && b == hr[i]
    ensures var t := hr[i - 1 := a][i := b];
            AllWellFormed(t) && All(t) == All(hr) && Total(t) == Total(hr)
  {
    var t := hr[i - 1 := a][i := b];
    assert WellFormed(hr[i - 1]) && WellFormed(hr[i]);
    RewidthExpands(hr[i - 1], a, a.width);
    RewidthExpands(hr[i], b, b.width);
    assert Canons(t) == Canons(hr);
    CanonsExpand(t);
    CanonsExpand(hr);
  }

  lemma {:induction false} RewidthShapes(hr: seq<Range>, i: nat, a: Range, b: Range)
    requires 0 < i < |hr|
    requires Rewidth(hr[i - 1], a, hr[i].width) && Rewidth(hr[i], b, hr[i - 1].width)
    requires PrefixCmp(hr[i - 1], hr[i]) != 0 ==> a == hr[i - 1] && b == hr[i]
    ensures ShapesFrom(hr[i - 1 := a][i := b], hr)
  {
    assert SameShape(a, hr[i - 1]) || SameShape(a, hr[i]);
    assert SameShape(b, hr[i - 1]) || SameShape(b, hr[i]);
    var t := hr[i - 1 := a][i := b];
    forall x | x in t ensures exists y :: y in hr && SameShape(x, y) {
      if x != a && x != b {
        assert x in hr && SameShape(x, x);
      }
    }
  }

  /** Order, nearness and gaps do not depend on widths that print the same. */
  lemma {:induction false} SameCanons(hr: seq<Range>, t: seq<Range>, n: nat)
    requires Canons(t) == Canons(hr) && Sorted(hr) && Comparable(hr)
    ensures Sorted(t) && Comparable(t)
    ensures Gaps(hr, n) ==> Gaps(t, n)
  {
    assert |t| == |hr|;
    forall k | 0 < k < |t| ensures Link(t[k - 1], t[k]) {
      assert Link(hr[k - 1], hr[k]);
      assert Canons(t)[k - 1] == Canons(hr)[k - 1] && Canons(t)[k] == Canons(hr)[k];
    }
    if Gaps(hr, n) {
      forall k | 0 < k < n && k < |t| ensures Gap(t[k - 1], t[k]) {
        assert Gap(hr[k - 1], hr[k]);
        assert Canons(t)[k - 1] == Canons(hr)[k - 1] && Canons(t)[k] == Canons(hr)[k];
      }
    }
    RearrangedNear(hr, t);
  }

  lemma {:induction false} RearrangedNear(hr: seq<Range>, t: seq<Range>)
    requires Comparable(hr) && multiset(Canons(t)) == multiset(Canons(hr))
    ensures Comparable(t)
  {
    forall x | x in t ensures exists y :: y in hr && SameLow(x, y) {
      var k :| 0 <= k < |t| && t[k] == x;
      assert Canons(t)[k] in multiset(Canons(hr));
      var j :| 0 <= j < |hr| && Canons(hr)[j] == Canon(x);
      assert SameLow(x, hr[j]);
    }
    NearFrom(hr, t);
  }

  // ---- nothing is left twice ----

  /** No host of `a` is in `b`, nor next to it. */
  predicate Gap(a: Range, b: Range) {
    PrefixCmp(a, b) == 0 ==> !a.single && a.hi + 1 < b.lo
  }

  predicate Gaps(hr: seq<Range>, n: nat) {
    forall k :: 0 < k < n && k < |hr| ==> Gap(hr[k - 1], hr[k])
  }

  lemma {:induction false} GapPairs(hr: seq<Range>, i: nat, j: nat)
    requires AllWellFormed(hr) && Sorted(hr) && Gaps(hr, |hr|) && i < j < |hr|
    ensures Gap(hr[i], hr[j])
  {
    assert Gap(hr[j - 1], hr[j]) && Link(hr[j - 1], hr[j]) && WellFormed(hr[j - 1]);
    if i < j - 1 && PrefixCmp(hr[i], hr[j]) == 0 {
      SortedPairs(hr, i, j - 1);
      SamePrefix(hr[i], hr[j - 1], hr[j]);
      GapPairs(hr, i, j - 1);
    }
  }

  lemma {:induction false} SamePrefix(a: Range, b: Range, c: Range)
    requires Le(a, b) && Le(b, c) && PrefixCmp(a, c) == 0
    ensures PrefixCmp(a, b) == 0
  {
    StrcmpAntisym(a.prefix, b.prefix);
  }

  lemma {:induction false} GapsOcc(hr: seq<Range>, x: Host)
    requires AllWellFormed(hr) && Sorted(hr) && Gaps(hr, |hr|)
    ensures Occ(hr, x) <= 1
    ensures Occ(hr, x) == 1 ==> exists k :: 0 <= k < |hr| && One(hr[k], x) == 1
    decreases |hr|
  {
    if hr != [] {
      var n := |hr| - 1;
      var pre, last := hr[..n], hr[n];
      assert hr == pre + [last];
      assert forall k :: 0 < k < n ==> Link(hr[k - 1], hr[k]) && Gap(hr[k - 1], hr[k]);
      GapsOcc(pre, x);
      OccConcat(pre, [last], x);
      assert [last][1..] == [];
      if Occ(pre, x) == 1 {
        var k :| 0 <= k < |pre| && One(pre[k], x) == 1;
        GapPairs(hr, k, n);
        assert One(hr[k], x) == 1;
      }
    }
  }

  /** A sorted list with gaps holds no host twice, and no two of its ranges can be joined. */
  lemma {:induction false} GapsDistinct(hr: seq<Range>)
    requires AllWellFormed(hr) && Sorted(hr) && Gaps(hr, |hr|)
    ensures Distinct(All(hr))
    ensures forall i, j :: 0 <= i < j < |hr| ==> !Joinable(hr[i], hr[j])
  {
    var h := All(hr);
    forall i, j | 0 <= i < j < |h| ensures h[i] != h[j] {
      GapsOcc(hr, h[i]);
      OccIsCount(hr, h[i]);
      TwicePresent(h, i, j);
    }
    forall i, j | 0 <= i < j < |hr| ensures !Joinable(hr[i], hr[j]) {
      GapPairs(hr, i, j);
    }
  }

  lemma {:induction false} TwicePresent(h: seq<Host>, i: nat, j: nat)
    requires i < j < |h|
    ensures h[i] == h[j] ==> multiset(h)[h[i]] >= 2
  {
    if h[i] == h[j] {
      assert h == h[..i] + [h[i]] + h[i + 1..j] + [h[j]] + h[j + 1..];
    }
  }
}
