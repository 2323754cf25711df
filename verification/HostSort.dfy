/**
  The splitting step of hostlist_coalesce: two overlapping neighbours become a chain of ranges
  that meet end to start, with every host kept.
*/
module HostSort {
  import opened HostRange
  import opened HostSeq

  function Min(a: int, b: int): int {
    if a < b then a else b
  }

  /** hostrange_intersect finds something to split. */
  predicate Overlap(a: Range, b: Range) {
    !a.single && !b.single && a.prefix == b.prefix && a.hi > b.lo
  }

  /** The single hosts from `k` to `m` that are put between the two parts, as the loop does it:
      once above `c`, once below `m`. */
  function Middle(prefix: string, w: nat, c: nat, m: nat, k: nat): seq<Range>
    decreases m + 1 - k
  {
    if k > m then []
    else
      var one := [Range(prefix, k, k, w, false)];
      (if k > c then one else []) + (if k < m then one else []) + Middle(prefix, w, c, m, k + 1)
  }

  /** What two overlapping neighbours become. */
  function Pieces(a: Range, b: Range): seq<Range> {
    var m, top := Min(a.hi, b.hi), Max(a.hi, b.hi);
    [a.(hi := b.lo)] + Middle(a.prefix, a.width, b.lo, m, b.lo) + [b.(lo := m, hi := top)]
  }

  function SplitAt(hr: seq<Range>, i: nat): seq<Range>
    requires 0 < i < |hr|
  {
    hr[..i - 1] + Pieces(hr[i - 1], hr[i]) + hr[i + 1..]
  }

  // ---- the hosts are kept ----

  lemma {:induction false} MiddleOcc(prefix: string, w: nat, c: nat, m: nat, k: nat, x: Host)
    requires c <= k
    ensures Occ(Middle(prefix, w, c, m, k), x) ==
            if x.Numbered? && x.prefix == prefix && x.len == Len(x.num, w) then
              (if k <= x.num <= m && c < x.num then 1 else 0) + (if k <= x.num < m then 1 else 0)
            else 0
    decreases m + 1 - k
  {
    if k <= m {
      var rest := Middle(prefix, w, c, m, k + 1);
      var one := [Range(prefix, k, k, w, false)];
      var above, below := if k > c then one else [], if k < m then one else [];
      MiddleOcc(prefix, w, c, m, k + 1, x);
      OccConcat(above + below, rest, x);
      OccConcat(above, below, x);
      assert one[1..] == [];
    }
  }

  lemma {:induction false} PiecesOcc(a: Range, b: Range, x: Host)
    requires WellFormed(a) && WellFormed(b) && Overlap(a, b) && a.width == b.width && a.lo <= b.lo
    ensures Occ(Pieces(a, b), x) == One(a, x) + One(b, x)
  {
    var m, top := Min(a.hi, b.hi), Max(a.hi, b.hi);
    var first, last := [a.(hi := b.lo)], [b.(lo := m, hi := top)];
    var middle := Middle(a.prefix, a.width, b.lo, m, b.lo);
    OccConcat(first + middle, last, x);
    OccConcat(first, middle, x);
    MiddleOcc(a.prefix, a.width, b.lo, m, b.lo, x);
    assert first[1..] == [] && last[1..] == [];
  }

  lemma {:induction false} SplitHosts(hr: seq<Range>, i: nat)
    requires 0 < i < |hr| && AllWellFormed(hr) && Overlap(hr[i - 1], hr[i])
    requires hr[i - 1].width == hr[i].width && hr[i - 1].lo <= hr[i].lo
    ensures multiset(All(SplitAt(hr, i))) == multiset(All(hr))
  {
    forall x ensures Occ(SplitAt(hr, i), x) == Occ(hr, x) {
      SplitOcc(hr, i, x);
    }
    SameBag(SplitAt(hr, i), hr);
  }

  lemma {:induction false} SplitOcc(hr: seq<Range>, i: nat, x: Host)
    requires 0 < i < |hr| && AllWellFormed(hr) && Overlap(hr[i - 1], hr[i])
    requires hr[i - 1].width == hr[i].width && hr[i - 1].lo <= hr[i].lo
    ensures Occ(SplitAt(hr, i), x) == Occ(hr, x)
  {
    var pre, a, b, post := hr[..i - 1], hr[i - 1], hr[i], hr[i + 1..];
    assert hr == pre + ([a, b] + post);
    OccConcat(pre, [a, b] + post, x);
    OccConcat([a, b], post, x);
    assert [a, b][1..] == [b] && [b][1..] == [];
    PiecesOcc(a, b, x);
    OccConcat(pre + Pieces(a, b), post, x);
    OccConcat(pre, Pieces(a, b), x);
  }

  // ---- the shape of the pieces ----

  lemma {:induction false} MiddleShape(prefix: string, w: nat, c: nat, m: nat, k: nat)
    requires c <= k && m <= ULONG_MAX
    ensures forall x :: x in Middle(prefix, w, c, m, k) ==>
              x.prefix == prefix && x.width == w && !x.single && k <= x.lo == x.hi <= m && WellFormed(x)
    ensures Sorted(Middle(prefix, w, c, m, k))
    ensures Middle(prefix, w, c, m, k) == [] <==> k > m || c == m
    decreases m + 1 - k
  {
    if k <= m {
      var rest := Middle(prefix, w, c, m, k + 1);
      var one := [Range(prefix, k, k, w, false)];
      MiddleShape(prefix, w, c, m, k + 1);
      if c < m && k < m {
        MiddleHead(prefix, w, c, m, k + 1);
        NextFollows(one[0], rest[0]);
      }
      NextFollows(one[0], one[0]);
    }
  }

  lemma {:induction false} MiddleHead(prefix: string, w: nat, c: nat, m: nat, k: nat)
    requires c <= k <= m && c < m
    ensures Middle(prefix, w, c, m, k) != [] && Middle(prefix, w, c, m, k)[0] == Range(prefix, k, k, w, false)
  {
  }

  lemma {:induction false} NextFollows(a: Range, b: Range)
    requires SameShape(a, b) && a.lo <= b.lo && b.lo - a.lo < INT_RANGE / 2
    ensures Link(a, b)
  {
    NDigitsMono(a.lo, b.lo);
  }

  lemma {:induction false} MiddleLast(prefix: string, w: nat, c: nat, m: nat, k: nat)
    requires c <= k <= m && c < m
    ensures Middle(prefix, w, c, m, k) != []
    ensures Middle(prefix, w, c, m, k)[|Middle(prefix, w, c, m, k)| - 1] == Range(prefix, m, m, w, false)
    decreases m - k
  {
    if k < m {
      MiddleLast(prefix, w, c, m, k + 1);
    }
  }

  lemma {:induction false} PiecesSorted(a: Range, b: Range)
    requires WellFormed(a) && WellFormed(b) && Overlap(a, b) && a.width == b.width && Link(a, b) && a.lo <= b.lo
    ensures Sorted(Pieces(a, b))
  {
    var m, top := Min(a.hi, b.hi), Max(a.hi, b.hi);
    var first, last := [a.(hi := b.lo)], [b.(lo := m, hi := top)];
    var middle := Middle(a.prefix, a.width, b.lo, m, b.lo);
    MiddleShape(a.prefix, a.width, b.lo, m, b.lo);
    if b.lo < m {
      MiddleHead(a.prefix, a.width, b.lo, m, b.lo);
      MiddleLast(a.prefix, a.width, b.lo, m, b.lo);
      NextFollows(first[0], middle[0]);
      NextFollows(middle[|middle| - 1], last[0]);
    } else {
      NextFollows(first[0], last[0]);
    }
    SortedConcat(first, middle);
    SortedConcat(first + middle, last);
  }

  lemma {:induction false} PiecesShape(a: Range, b: Range, x: Range)
    requires WellFormed(a) && WellFormed(b) && Overlap(a, b) && a.width == b.width && a.lo <= b.lo && x in Pieces(a, b)
    ensures WellFormed(x) && SameShape(x, a)
  {
    var m := Min(a.hi, b.hi);
    if x in Middle(a.prefix, a.width, b.lo, m, b.lo) {
      MiddleShape(a.prefix, a.width, b.lo, m, b.lo);
    }
  }

  /** From `i` on, no range overlaps the next. */
  predicate TailApart(hr: seq<Range>, i: int) {
    forall k :: Max(i, 0) < k < |hr| ==> !Overlap(hr[k - 1], hr[k])
  }

  /** What a sorted list with one width per prefix satisfies in every pass of the loop. */
  predicate Good(hr: seq<Range>) {
    AllWellFormed(hr) && Uniform(hr) && Sorted(hr)
  }

  // ---- ranges that end at ULONG_MAX ----

  /** A range of two or more hosts that ends at ULONG_MAX. */
  predicate Top(r: Range) {
    !r.single && r.lo < r.hi == ULONG_MAX
  }

  function TopOne(r: Range, prefix: string): nat {
    if Top(r) && r.prefix == prefix then 1 else 0
  }

  /** How many such ranges a prefix has. */
  function Tops(hr: seq<Range>, prefix: string): nat {
    if hr == [] then 0 else TopOne(hr[0], prefix) + Tops(hr[1..], prefix)
  }

  lemma {:induction false} TopsConcat(a: seq<Range>, b: seq<Range>, prefix: string)
    ensures Tops(a + b, prefix) == Tops(a, prefix) + Tops(b, prefix)
  {
    if a == [] {
      assert a + b == b;
    } else {
      assert (a + b)[1..] == a[1..] + b;
      TopsConcat(a[1..], b, prefix);
    }
  }

  /** Two of one prefix. */
  predicate TwoTops(hr: seq<Range>) {
    exists i, j :: 0 <= i < j < |hr| && Top(hr[i]) && Top(hr[j]) && hr[i].prefix == hr[j].prefix
  }

  lemma {:induction false} SomeTop(hr: seq<Range>, prefix: string)
    ensures Tops(hr, prefix) > 0 <==> exists i :: 0 <= i < |hr| && Top(hr[i]) && hr[i].prefix == prefix
  {
    if hr != [] {
      SomeTop(hr[1..], prefix);
      if i :| 0 <= i < |hr| && Top(hr[i]) && hr[i].prefix == prefix {
        assert i > 0 ==> Top(hr[1..][i - 1]) && hr[1..][i - 1].prefix == prefix;
      }
      if j :| 0 <= j < |hr[1..]| && Top(hr[1..][j]) && hr[1..][j].prefix == prefix {
        assert Top(hr[j + 1]) && hr[j + 1].prefix == prefix;
      }
      if TopOne(hr[0], prefix) == 1 {
        assert Top(hr[0]);
      }
    }
  }

  lemma {:induction false} TopsAt(hr: seq<Range>, i: nat, prefix: string)
    requires i < |hr|
    ensures Tops(hr, prefix) == Tops(hr[..i], prefix) + TopOne(hr[i], prefix) + Tops(hr[i + 1..], prefix)
  {
    assert hr == hr[..i] + ([hr[i]] + hr[i + 1..]);
    TopsConcat(hr[..i], [hr[i]] + hr[i + 1..], prefix);
    assert ([hr[i]] + hr[i + 1..])[1..] == hr[i + 1..];
  }

  lemma {:induction false} TwoTopsCount(hr: seq<Range>, i: nat, j: nat)
    requires i < j < |hr| && Top(hr[i]) && Top(hr[j]) && hr[i].prefix == hr[j].prefix
    ensures Tops(hr, hr[i].prefix) >= 2
  {
    TopsAt(hr, i, hr[i].prefix);
    var rest := hr[i + 1..];
    assert rest[j - i - 1] == hr[j];
    SomeTop(rest, hr[i].prefix);
  }

  lemma {:induction false} CountTwoTops(hr: seq<Range>, prefix: string)
    requires Tops(hr, prefix) >= 2
    ensures TwoTops(hr)
  {
    SomeTop(hr, prefix);
    var i :| 0 <= i < |hr| && Top(hr[i]) && hr[i].prefix == prefix;
    TopsAt(hr, i, prefix);
    SomeTop(hr[..i], prefix);
    SomeTop(hr[i + 1..], prefix);
    if Tops(hr[..i], prefix) > 0 {
      var j :| 0 <= j < i && Top(hr[..i][j]) && hr[..i][j].prefix == prefix;
      assert Top(hr[j]);
    } else {
      var j :| 0 <= j < |hr[i + 1..]| && Top(hr[i + 1..][j]) && hr[i + 1..][j].prefix == prefix;
      assert Top(hr[i + 1 + j]);
    }
  }

  lemma {:induction false} MiddleTops(prefix: string, w: nat, c: nat, m: nat, k: nat, p: string)
    ensures Tops(Middle(prefix, w, c, m, k), p) == 0
    decreases m + 1 - k
  {
    if k <= m {
      var rest := Middle(prefix, w, c, m, k + 1);
      var one := [Range(prefix, k, k, w, false)];
      var above, below := if k > c then one else [], if k < m then one else [];
      MiddleTops(prefix, w, c, m, k + 1, p);
      TopsConcat(above + below, rest, p);
      TopsConcat(above, below, p);
      assert one[1..] == [];
    }
  }

  lemma {:induction false} PiecesTops(a: Range, b: Range, p: string)
    requires WellFormed(a) && WellFormed(b) && Overlap(a, b) && a.lo <= b.lo && Min(a.hi, b.hi) < ULONG_MAX
    ensures Tops(Pieces(a, b), p) == TopOne(a, p) + TopOne(b, p)
  {
    var m, top := Min(a.hi, b.hi), Max(a.hi, b.hi);
    var first, last := [a.(hi := b.lo)], [b.(lo := m, hi := top)];
    var middle := Middle(a.prefix, a.width, b.lo, m, b.lo);
    TopsConcat(first + middle, last, p);
    TopsConcat(first, middle, p);
    MiddleTops(a.prefix, a.width, b.lo, m, b.lo, p);
    assert first[1..] == [] && last[1..] == [];
  }

  /** Where the loop that splits two ranges ends, it leaves as many such ranges of a prefix as there were. */
  lemma {:induction false} SplitTops(hr: seq<Range>, i: nat, p: string)
    requires AllWellFormed(hr) && 0 < i < |hr| && Overlap(hr[i - 1], hr[i]) && hr[i - 1].lo <= hr[i].lo
    requires Min(hr[i - 1].hi, hr[i].hi) < ULONG_MAX
    ensures Tops(SplitAt(hr, i), p) == Tops(hr, p)
  {
    var pre, a, b, post := hr[..i - 1], hr[i - 1], hr[i], hr[i + 1..];
    assert WellFormed(a) && WellFormed(b);
    PiecesTops(a, b, p);
    TopsConcat(pre + Pieces(a, b), post, p);
    TopsConcat(pre, Pieces(a, b), p);
    Parts(hr, i);
    TopsConcat(pre + [a, b], post, p);
    TopsConcat(pre, [a, b], p);
    assert [a, b] == [a] + [b] && [a][1..] == [] && [b][1..] == [];
    TopsConcat([a], [b], p);
  }

  /** Once no neighbours overlap there is at most one. */
  lemma {:induction false} ApartOneTop(hr: seq<Range>)
    requires Good(hr) && TailApart(hr, 0)
    ensures !TwoTops(hr)
  {
    forall i, j | 0 <= i < j < |hr| && Top(hr[i]) && Top(hr[j]) ensures hr[i].prefix != hr[j].prefix {
      if hr[i].prefix == hr[j].prefix {
        ApartPairs(hr, i, j);
      }
    }
  }

  lemma {:induction false} CanonsTops(hr: seq<Range>, p: string)
    ensures Tops(Canons(hr), p) == Tops(hr, p)
  {
    if hr != [] {
      assert Canons(hr)[1..] == Canons(hr[1..]);
      CanonsTops(hr[1..], p);
    }
  }

  lemma {:induction false} SameTops(a: seq<Range>, b: seq<Range>, p: string)
    requires multiset(a) == multiset(b)
    ensures Tops(a, p) == Tops(b, p)
  {
    if a == [] {
      assert |multiset(b)| == 0;
    } else {
      assert a[0] in multiset(b);
      var k :| 0 <= k < |b| && b[k] == a[0];
      Removed(a, b, k);
      SameTops(a[1..], b[..k] + b[k + 1..], p);
      TopsAt(b, k, p);
      TopsConcat(b[..k], b[k + 1..], p);
    }
  }

  lemma {:induction false} RearrangedTops(hr: seq<Range>, t: seq<Range>, p: string)
    requires Rearranged(hr, t)
    ensures Tops(t, p) == Tops(hr, p)
  {
    CanonsTops(hr, p);
    CanonsTops(t, p);
    SameTops(Canons(t), Canons(hr), p);
  }

  lemma {:induction false} LowOrder(a: Range, b: Range)
    requires Le(a, b) && SameShape(a, b)
    ensures a.lo <= b.lo
  {
    if b.lo < a.lo { NDigitsMono(b.lo, a.lo); }
  }

  lemma {:induction false} SplitSorted(hr: seq<Range>, i: nat)
    requires Good(hr) && 0 < i < |hr| && Overlap(hr[i - 1], hr[i]) && TailApart(hr, i)
    ensures Sorted(SplitAt(hr, i))
  {
    var pre, a, b, post := hr[..i - 1], hr[i - 1], hr[i], hr[i + 1..];
    var pieces := Pieces(a, b);
    assert SameWidth(a, b) && Link(a, b) && WellFormed(a) && WellFormed(b);
    LowOrder(a, b);
    PiecesSorted(a, b);
    PartSorted(hr, 0, i - 1);
    PartSorted(hr, i + 1, |hr|);
    assert pre == hr[0..i - 1];
    if pre != [] {
      assert Link(hr[i - 2], a);
      HeadFollows(hr[i - 2], a, pieces[0]);
    }
    SortedConcat(pre, pieces);
    if post != [] {
      assert Link(b, post[0]) && SameWidth(b, post[0]) && !Overlap(hr[i + 1 - 1], hr[i + 1]);
      LastFollows(a, b, pieces[|pieces| - 1], post[0]);
    }
    SortedConcat(pre + pieces, post);
  }

  lemma {:induction false} PartSorted(hr: seq<Range>, i: nat, j: nat)
    requires Sorted(hr) && i <= j <= |hr|
    ensures Sorted(hr[i..j])
  {
    forall k | 0 < k < |hr[i..j]| ensures Link(hr[i..j][k - 1], hr[i..j][k]) {
      assert Link(hr[i + k - 1], hr[i + k]);
    }
  }

  /** A range may follow as its first part may. */
  lemma {:induction false} HeadFollows(z: Range, a: Range, first: Range)
    requires Link(z, a) && first == a.(hi := first.hi)
    ensures Link(z, first)
  {
  }

  /** What follows the second of two ranges may follow the last of their pieces. */
  lemma {:induction false} LastFollows(a: Range, b: Range, last: Range, z: Range)
    requires Overlap(a, b) && WellFormed(b) && Link(b, z) && SameWidth(b, z) && !Overlap(b, z)
    requires last == b.(lo := Min(a.hi, b.hi), hi := Max(a.hi, b.hi))
    ensures Link(last, z)
  {
    if SameShape(b, z) {
      LowOrder(b, z);
      NextFollows(last, z);
    }
  }

  lemma {:induction false} SplitGood(hr: seq<Range>, i: nat)
    requires Good(hr) && 0 < i < |hr| && Overlap(hr[i - 1], hr[i]) && TailApart(hr, i)
    ensures Good(SplitAt(hr, i))
  {
    var a, b := hr[i - 1], hr[i];
    assert SameWidth(a, b) && Link(a, b);
    LowOrder(a, b);
    SplitSorted(hr, i);
    var t := SplitAt(hr, i);
    forall x | x in t ensures WellFormed(x) && exists y :: y in hr && SameShape(x, y) {
      assert x in hr || x in Pieces(a, b);
      if x in hr {
        assert SameShape(x, x);
      } else {
        PiecesShape(a, b, x);
        assert SameShape(x, a);
      }
    }
    UniformFrom(t, hr);
  }

  // ---- the loop ends ----

  function Spread(hr: seq<Range>): int {
    if hr == [] then 0 else hr[0].hi - hr[0].lo + Spread(hr[1..])
  }

  lemma {:induction false} SpreadConcat(a: seq<Range>, b: seq<Range>)
    ensures Spread(a + b) == Spread(a) + Spread(b)
  {
    if a == [] {
      assert a + b == b;
    } else {
      assert (a + b)[1..] == a[1..] + b;
      SpreadConcat(a[1..], b);
    }
  }

  lemma {:induction false} SpreadBounds(hr: seq<Range>)
    requires AllWellFormed(hr)
    ensures 0 <= Spread(hr) && 0 <= Weight(hr)
  {
    if hr != [] {
      assert WellFormed(hr[0]);
      SpreadBounds(hr[1..]);
      SpreadBounds(hr[..|hr| - 1]);
    }
  }

  /** The spreads of all prefixes: the earlier a range is, the more often it counts. */
  function Weight(hr: seq<Range>): int {
    if hr == [] then 0 else Spread(hr) + Weight(hr[..|hr| - 1])
  }

  lemma {:induction false} WeightLess(a: seq<Range>, b: seq<Range>, at: nat)
    requires |a| == |b| && 0 < at <= |a|
    requires forall k :: 0 <= k <= |a| && k != at ==> Spread(b[..k]) == Spread(a[..k])
    requires Spread(b[..at]) < Spread(a[..at])
    ensures Weight(b) < Weight(a)
  {
    assert a[..|a|] == a && b[..|b|] == b;
    var a', b' := a[..|a| - 1], b[..|b| - 1];
    assert forall k :: 0 <= k < |a| ==> a'[..k] == a[..k] && b'[..k] == b[..k];
    if at < |a| {
      WeightLess(a', b', at);
    } else {
      WeightSame(a', b');
    }
  }

  lemma {:induction false} WeightSame(a: seq<Range>, b: seq<Range>)
    requires |a| == |b|
    requires forall k :: 0 <= k <= |a| ==> Spread(b[..k]) == Spread(a[..k])
    ensures Weight(b) == Weight(a)
  {
    if a != [] {
      assert a[..|a|] == a && b[..|b|] == b;
      var a', b' := a[..|a| - 1], b[..|b| - 1];
      assert forall k :: 0 <= k < |a| ==> a'[..k] == a[..k] && b'[..k] == b[..k];
      WeightSame(a', b');
    }
  }

  lemma {:induction false} MiddleSpread(prefix: string, w: nat, c: nat, m: nat, k: nat)
    ensures Spread(Middle(prefix, w, c, m, k)) == 0
    decreases m + 1 - k
  {
    if k <= m {
      var rest := Middle(prefix, w, c, m, k + 1);
      var one := [Range(prefix, k, k, w, false)];
      var above, below := if k > c then one else [], if k < m then one else [];
      MiddleSpread(prefix, w, c, m, k + 1);
      SpreadConcat(above + below, rest);
      SpreadConcat(above, below);
      assert one[1..] == [];
    }
  }

  lemma {:induction false} PiecesSpread(a: Range, b: Range)
    requires Overlap(a, b)
    ensures Spread(Pieces(a, b)) == Spread([a, b]) - 2 * (Min(a.hi, b.hi) - b.lo)
  {
    var m, top := Min(a.hi, b.hi), Max(a.hi, b.hi);
    var first, last := [a.(hi := b.lo)], [b.(lo := m, hi := top)];
    var middle := Middle(a.prefix, a.width, b.lo, m, b.lo);
    SpreadConcat(first + middle, last);
    SpreadConcat(first, middle);
    MiddleSpread(a.prefix, a.width, b.lo, m, b.lo);
    assert first[1..] == [] && last[1..] == [];
    assert [a, b][1..] == [b] && [b][1..] == [];
  }

  /** Each split lowers the total spread, or moves spread to a later place. */
  lemma {:induction false} SplitMeasure(hr: seq<Range>, i: nat)
    requires AllWellFormed(hr) && 0 < i < |hr| && Overlap(hr[i - 1], hr[i])
    ensures Spread(SplitAt(hr, i)) <= Spread(hr)
    ensures Spread(SplitAt(hr, i)) == Spread(hr) ==> Weight(SplitAt(hr, i)) < Weight(hr)
  {
    var pre, a, b, post := hr[..i - 1], hr[i - 1], hr[i], hr[i + 1..];
    assert WellFormed(b);
    Parts(hr, i);
    SpreadConcat(pre + [a, b], post);
    SpreadConcat(pre, [a, b]);
    SpreadConcat(pre + Pieces(a, b), post);
    SpreadConcat(pre, Pieces(a, b));
    PiecesSpread(a, b);
    if Min(a.hi, b.hi) == b.lo {
      MoveSpread(hr, i);
    }
  }

  lemma {:induction false} Parts(hr: seq<Range>, i: nat)
    requires 0 < i < |hr|
    ensures hr == hr[..i - 1] + [hr[i - 1], hr[i]] + hr[i + 1..]
  {
  }

  lemma {:induction false} MoveSpread(hr: seq<Range>, i: nat)
    requires AllWellFormed(hr) && 0 < i < |hr| && Overlap(hr[i - 1], hr[i]) && Min(hr[i - 1].hi, hr[i].hi) == hr[i].lo
    ensures Weight(SplitAt(hr, i)) < Weight(hr)
  {
    var pre, a, b, post := hr[..i - 1], hr[i - 1], hr[i], hr[i + 1..];
    assert WellFormed(b) && b.lo == b.hi < a.hi;
    var a', b' := a.(hi := b.lo), b.(hi := a.hi);
    assert Middle(a.prefix, a.width, b.lo, b.lo, b.lo) == [] by {
      MiddleShape(a.prefix, a.width, b.lo, b.lo, b.lo);
    }
    assert Pieces(a, b) == [a', b'];
    assert SplitAt(hr, i) == pre + [a', b'] + post;
    Parts(hr, i);
    WeightMoves(pre, a, b, a', b', post);
  }

  lemma {:induction false} WeightMoves(pre: seq<Range>, a: Range, b: Range, a': Range, b': Range, post: seq<Range>)
    requires a'.hi - a'.lo < a.hi - a.lo
    requires (a'.hi - a'.lo) + (b'.hi - b'.lo) == (a.hi - a.lo) + (b.hi - b.lo)
    ensures Weight(pre + [a', b'] + post) < Weight(pre + [a, b] + post)
  {
    var s, t, i := pre + [a, b] + post, pre + [a', b'] + post, |pre| + 1;
    forall k | 0 <= k <= |s| && k != i ensures Spread(t[..k]) == Spread(s[..k]) {
      if k < i {
        assert t[..k] == s[..k];
      } else {
        PrefixSpread(pre, a', b', post[..k - i - 1]);
        PrefixSpread(pre, a, b, post[..k - i - 1]);
        TakeAround(pre, [a', b'], post, k);
        TakeAround(pre, [a, b], post, k);
      }
    }
    assert t[..i] == pre + [a'] && s[..i] == pre + [a];
    SpreadConcat(pre, [a']);
    SpreadConcat(pre, [a]);
    assert [a'][1..] == [] && [a][1..] == [];
    WeightLess(s, t, i);
  }

  lemma {:induction false} TakeAround(pre: seq<Range>, mid: seq<Range>, post: seq<Range>, k: nat)
    requires |pre + mid| <= k <= |pre + mid + post|
    ensures (pre + mid + post)[..k] == pre + mid + post[..k - |pre + mid|]
  {
  }

  lemma {:induction false} PrefixSpread(pre: seq<Range>, a: Range, b: Range, post: seq<Range>)
    ensures Spread(pre + [a, b] + post) == Spread(pre) + (a.hi - a.lo) + (b.hi - b.lo) + Spread(post)
  {
    SpreadConcat(pre + [a, b], post);
    SpreadConcat(pre, [a, b]);
    assert [a, b] == [a] + [b] && [a, b][1..] == [b] && [b][1..] == [];
    assert Spread([a, b]) == a.hi - a.lo + Spread([b]);
  }

  // ---- the hosts come out in order ----

  function Stem(a: Host): string {
    if a.Named? then a.name else a.prefix
  }

  /** Names before numbers, then printed length, then number. */
  predicate NumberLe(a: Host, b: Host) {
    a.Named? || (b.Numbered? && (a.len < b.len || (a.len == b.len && a.num <= b.num)))
  }

  /** By prefix in the order of a dictionary, then by number. */
  ghost predicate InOrder(a: Host, b: Host) {
    if Stem(a) != Stem(b) then Earlier(Stem(a), Stem(b)) else NumberLe(a, b)
  }

  /** The hosts are in that order. */
  ghost predicate SortedHosts(h: seq<Host>) {
    forall i, j :: 0 <= i < j < |h| ==> InOrder(h[i], h[j])
  }

  /** The order as strcmp has it. */
  predicate HostLe(a: Host, b: Host) {
    var c := Strcmp(Stem(a), Stem(b));
    if c != 0 then c < 0 else NumberLe(a, b)
  }

  predicate HostsLe(h: seq<Host>) {
    forall i, j :: 0 <= i < j < |h| ==> HostLe(h[i], h[j])
  }

  lemma {:induction false} HostsInOrder(h: seq<Host>)
    requires HostsLe(h)
    ensures SortedHosts(h)
  {
    forall i, j | 0 <= i < j < |h| ensures InOrder(h[i], h[j]) {
      assert HostLe(h[i], h[j]);
      StrcmpIsEarlier(Stem(h[i]), Stem(h[j]));
    }
  }

  /** What a host of a range is. */
  lemma {:induction false} HostOf(r: Range, x: Host)
    requires x in Expand(r)
    ensures if r.single then x == Named(r.prefix)
            else x.Numbered? && x.prefix == r.prefix && r.lo <= x.num <= r.hi && x.len == Len(x.num, r.width)
  {
  }

  /** Hosts of a range that comes first are below those of the other. */
  lemma {:induction false} ApartHosts(a: Range, b: Range, x: Host, y: Host)
    requires Le(a, b) && SameWidth(a, b) && WellFormed(a) && WellFormed(b)
    requires !a.single && !b.single && a.prefix == b.prefix ==> a.hi <= b.lo
    requires x in Expand(a) && y in Expand(b)
    ensures HostLe(x, y)
  {
    HostOf(a, x);
    HostOf(b, y);
    HostsFollow(a, b, x, y);
  }

  lemma {:induction false} HostsFollow(a: Range, b: Range, x: Host, y: Host)
    requires PrefixCmp(a, b) <= 0 && SameWidth(a, b)
    requires !a.single && !b.single && a.prefix == b.prefix ==> a.hi <= b.lo
    requires if a.single then x == Named(a.prefix)
             else x.Numbered? && x.prefix == a.prefix && a.lo <= x.num <= a.hi && x.len == Len(x.num, a.width)
    requires if b.single then y == Named(b.prefix)
             else y.Numbered? && y.prefix == b.prefix && b.lo <= y.num <= b.hi && y.len == Len(y.num, b.width)
    ensures HostLe(x, y)
  {
    if !a.single && !b.single && a.prefix == b.prefix {
      NDigitsMono(x.num, y.num);
    }
  }

  lemma {:induction false} RangeSorted(r: Range)
    requires WellFormed(r)
    ensures HostsLe(Expand(r))
  {
    var h := Expand(r);
    forall i, j | 0 <= i < j < |h| ensures HostLe(h[i], h[j]) {
      NDigitsMono(r.lo + i, r.lo + j);
    }
  }

  /** Ranges of one prefix that are apart from their neighbours are apart from all later ones. */
  lemma {:induction false} ApartPairs(hr: seq<Range>, i: nat, j: nat)
    requires Good(hr) && TailApart(hr, 0) && i < j < |hr|
    requires !hr[i].single && !hr[j].single && hr[i].prefix == hr[j].prefix
    ensures hr[i].hi <= hr[j].lo
  {
    if i == j - 1 {
      assert !Overlap(hr[j - 1], hr[j]);
    } else {
      var b := hr[j - 1];
      SortedPairs(hr, i, j - 1);
      assert Link(b, hr[j]) && !Overlap(hr[j - 1], hr[j]) && WellFormed(b);
      Between(hr[i], b, hr[j]);
      ApartPairs(hr, i, j - 1);
    }
  }

  lemma {:induction false} Between(a: Range, b: Range, c: Range)
    requires Le(a, b) && Le(b, c) && a.prefix == c.prefix && !a.single && !c.single
    ensures b.prefix == a.prefix && !b.single
  {
    StrcmpAntisym(a.prefix, b.prefix);
  }

  lemma {:induction false} InConcat(a: seq<Host>, b: seq<Host>, y: Host)
    requires y in a + b
    ensures y in a || y in b
  {
  }

  lemma {:induction false} InAll(hr: seq<Range>, y: Host) returns (k: nat)
    requires y in All(hr)
    ensures k < |hr| && y in Expand(hr[k])
  {
    InConcat(Expand(hr[0]), All(hr[1..]), y);
    if y in Expand(hr[0]) {
      k := 0;
    } else {
      k := InAll(hr[1..], y);
      k := k + 1;
    }
  }

  /** A sorted list without overlaps expands to sorted hosts. */
  lemma {:induction false} ApartSorted(hr: seq<Range>)
    requires Good(hr) && TailApart(hr, 0)
    ensures SortedHosts(All(hr))
  {
    ApartOrdered(hr);
    HostsInOrder(All(hr));
  }

  lemma {:induction false} ApartOrdered(hr: seq<Range>)
    requires Good(hr) && TailApart(hr, 0)
    ensures HostsLe(All(hr))
  {
    if hr != [] {
      var rest := hr[1..];
      forall k | 0 < k < |rest| ensures Link(rest[k - 1], rest[k]) && !Overlap(rest[k - 1], rest[k]) {
        assert Link(hr[k], hr[k + 1]) && !Overlap(hr[k + 1 - 1], hr[k + 1]);
      }
      ApartOrdered(rest);
      RangeSorted(hr[0]);
      var h, e, t := All(hr), Expand(hr[0]), All(rest);
      forall i, j | 0 <= i < j < |h| ensures HostLe(h[i], h[j]) {
        if i < |e| <= j {
          HeadBelow(hr, h[i], h[j]);
        } else if i >= |e| {
          assert HostLe(t[i - |e|], t[j - |e|]);
        }
      }
    }
  }

  lemma {:induction false} HeadBelow(hr: seq<Range>, x: Host, y: Host)
    requires Good(hr) && TailApart(hr, 0) && hr != [] && x in Expand(hr[0]) && y in All(hr[1..])
    ensures HostLe(x, y)
  {
    var k := InAll(hr[1..], y);
    var a, b := hr[0], hr[k + 1];
    SortedPairs(hr, 0, k + 1);
    if !a.single && !b.single && a.prefix == b.prefix {
      ApartPairs(hr, 0, k + 1);
    }
    assert SameWidth(a, b);
    ApartHosts(a, b, x, y);
  }
}
