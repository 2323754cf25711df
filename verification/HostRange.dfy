/**
  One hostrange `prefix[lo-hi]` with zero padding: what hosts it stands for, how ranges are
  ordered, and what the comparator's change of widths may and may not do.
*/
module HostRange {
  const ULONG_MAX: nat := 0xFFFF_FFFF_FFFF_FFFF
  const INT_RANGE: nat := 0x1_0000_0000

  datatype Range = Range(prefix: string, lo: nat, hi: nat, width: nat, single: bool)

  /** One host of a range; `len` is the printed length of its number. */
  datatype Host = Named(name: string) | Numbered(prefix: string, num: nat, len: nat)

  /** What the parser can make: hostrange_empty takes ULONG_MAX as the end of an empty range, but
      nothing keeps a range from ending there. */
  predicate WellFormed(r: Range) {
    if r.single then r.lo == 0 && r.hi == 0 && r.width == 0 else r.lo <= r.hi <= ULONG_MAX
  }

  function Max(a: int, b: int): int {
    if a < b then b else a
  }

  function NDigits(n: nat): (d: nat)
    ensures d >= 1
  {
    if n < 10 then 1 else 1 + NDigits(n / 10)
  }

  lemma {:induction false} NDigitsMono(n: nat, m: nat)
    requires n <= m
    ensures NDigits(n) <= NDigits(m)
  {
    if n >= 10 {
      NDigitsMono(n / 10, m / 10);
    }
  }

  /** Printed length of the number `n` at width `w`. */
  function Len(n: nat, w: nat): nat {
    Max(NDigits(n), w)
  }

  /** The hosts `lo..hi` of a prefix, each printed at width `w`. */
  function Hosts(prefix: string, lo: nat, hi: int, w: nat): (h: seq<Host>)
    ensures |h| == if lo <= hi then hi - lo + 1 else 0
    ensures forall k :: 0 <= k < |h| ==> h[k] == Numbered(prefix, lo + k, Len(lo + k, w))
    decreases hi - lo
  {
    if lo > hi then [] else [Numbered(prefix, lo, Len(lo, w))] + Hosts(prefix, lo + 1, hi, w)
  }

  function Expand(r: Range): seq<Host> {
    if r.single then [Named(r.prefix)] else Hosts(r.prefix, r.lo, r.hi, r.width)
  }

  function Count(r: Range): int {
    if r.single then 1 else r.hi - r.lo + 1
  }

  /** hostrange_count, on unsigned long. */
  function UCount(r: Range): (n: nat)
    ensures 0 <= Count(r) <= ULONG_MAX ==> n == Count(r)
  {
    if r.single then 1 else (r.hi - r.lo + 1) % (ULONG_MAX + 1)
  }

  // ---- counting on an unsigned long ----

  /** `x + 1`. */
  function Succ(x: nat): nat {
    if x == ULONG_MAX then 0 else x + 1
  }

  /** `x - 1`. */
  function Pred(x: nat): nat {
    if x == 0 then ULONG_MAX else x - 1
  }

  /** The counter `k` after `t` turns of a loop that increments it. */
  function After(k: nat, t: nat): (n: nat)
    ensures k <= ULONG_MAX ==> n <= ULONG_MAX
    decreases t
  {
    if t == 0 then k else After(Succ(k), t - 1)
  }

  lemma {:induction false} AfterCounts(k: nat, t: nat)
    requires k + t <= ULONG_MAX
    ensures After(k, t) == k + t
    decreases t
  {
    if t > 0 {
      AfterCounts(k + 1, t - 1);
    }
  }

  /** A loop that runs while `k <= hi` and increments `k` comes to an end exactly if `hi` is not ULONG_MAX. */
  lemma {:induction false} CountingEnds(k: nat, hi: nat)
    requires k <= ULONG_MAX && hi <= ULONG_MAX
    ensures (exists t: nat :: After(k, t) > hi) <==> hi < ULONG_MAX
  {
    if hi < ULONG_MAX {
      var t := if k <= hi then hi + 1 - k else 0;
      AfterCounts(k, t);
      assert After(k, t) > hi;
    }
  }

  /** The same range at the width its lowest host is printed with. */
  function Canon(r: Range): Range {
    r.(width := Len(r.lo, r.width))
  }

  /** The width of a range matters only through the printed length of `lo`. */
  lemma {:induction false} CanonExpands(r: Range)
    ensures Expand(Canon(r)) == Expand(r)
  {
    var a, b := Expand(r), Expand(Canon(r));
    forall k | 0 <= k < |a| ensures a[k] == b[k] {
      NDigitsMono(r.lo, r.lo + k);
    }
  }

  // ---- the order of ranges ----

  /** The sign of strcmp. */
  function Strcmp(a: string, b: string): (c: int)
    ensures c == 0 <==> a == b
    ensures -1 <= c <= 1
  {
    if a == [] then (if b == [] then 0 else -1)
    else if b == [] then 1
    else if a[0] < b[0] then -1
    else if a[0] > b[0] then 1
    else
      assert a == [a[0]] + a[1..] && b == [b[0]] + b[1..];
      Strcmp(a[1..], b[1..])
  }

  /** `a` comes before `b` in a dictionary: it is a proper prefix of `b`, or smaller where they first differ. */
  ghost predicate Earlier(a: string, b: string) {
    a < b || exists i :: 0 <= i < |a| && i < |b| && a[..i] == b[..i] && a[i] < b[i]
  }

  /** The sign of strcmp is the order of a dictionary. */
  lemma {:induction false} StrcmpIsEarlier(a: string, b: string)
    ensures Strcmp(a, b) < 0 <==> Earlier(a, b)
  {
    if a != [] && b != [] {
      if a[0] < b[0] {
        assert a[..0] == b[..0];
      } else if a[0] == b[0] {
        StrcmpIsEarlier(a[1..], b[1..]);
        EarlierRest(a, b);
      } else {
        NotEarlier(a, b);
      }
    }
  }

  lemma {:induction false} EarlierRest(a: string, b: string)
    requires a != [] && b != [] && a[0] == b[0]
    ensures Earlier(a, b) <==> Earlier(a[1..], b[1..])
  {
    assert a == [a[0]] + a[1..] && b == [b[0]] + b[1..];
    if i :| 0 <= i < |a| && i < |b| && a[..i] == b[..i] && a[i] < b[i] {
      assert a[1..][..i - 1] == a[..i][1..] && b[1..][..i - 1] == b[..i][1..];
      assert a[1..][i - 1] < b[1..][i - 1];
    }
    if j :| 0 <= j < |a[1..]| && j < |b[1..]| && a[1..][..j] == b[1..][..j] && a[1..][j] < b[1..][j] {
      assert a[..j + 1] == [a[0]] + a[1..][..j] && b[..j + 1] == [b[0]] + b[1..][..j];
      assert a[j + 1] < b[j + 1];
    }
  }

  lemma {:induction false} NotEarlier(a: string, b: string)
    requires a != [] && b != [] && a[0] > b[0]
    ensures !Earlier(a, b)
  {
    forall i | 0 < i < |a| && i < |b| ensures a[..i] != b[..i] {
      assert a[..i][0] != b[..i][0];
    }
  }

  lemma {:induction false} StrcmpAntisym(a: string, b: string)
    ensures Strcmp(a, b) == -Strcmp(b, a)
  {
    if a != [] && b != [] && a[0] == b[0] {
      StrcmpAntisym(a[1..], b[1..]);
    }
  }

  lemma {:induction false} StrcmpTrans(a: string, b: string, c: string)
    requires Strcmp(a, b) <= 0 && Strcmp(b, c) <= 0
    ensures Strcmp(a, c) <= 0
    ensures Strcmp(a, b) < 0 || Strcmp(b, c) < 0 ==> Strcmp(a, c) < 0
  {
    if a != [] && b != [] && c != [] && a[0] == b[0] == c[0] {
      StrcmpTrans(a[1..], b[1..], c[1..]);
    }
  }

  /** hostrange_prefix_cmp: among equal prefixes a name without suffix comes first. */
  function PrefixCmp(a: Range, b: Range): (c: int)
    ensures c == 0 <==> a.prefix == b.prefix && a.single == b.single
  {
    var c := Strcmp(a.prefix, b.prefix);
    if c == 0 then (if b.single then 1 else 0) - (if a.single then 1 else 0) else c
  }

  /** By prefix, names before numbers, then printed length of `lo`, then `lo`. */
  function KeyCmp(a: Range, b: Range): int {
    if PrefixCmp(a, b) != 0 then PrefixCmp(a, b)
    else if Len(a.lo, a.width) != Len(b.lo, b.width) then Len(a.lo, a.width) - Len(b.lo, b.width)
    else a.lo - b.lo
  }

  predicate Le(a: Range, b: Range) {
    KeyCmp(a, b) <= 0
  }

  lemma {:induction false} LeTotal(a: Range, b: Range)
    ensures Le(a, b) || Le(b, a)
    ensures KeyCmp(a, b) < 0 <==> !Le(b, a)
  {
    StrcmpAntisym(a.prefix, b.prefix);
  }

  lemma {:induction false} LeTrans(a: Range, b: Range, c: Range)
    requires Le(a, b) && Le(b, c)
    ensures Le(a, c)
  {
    StrcmpTrans(a.prefix, b.prefix, c.prefix);
  }

  /** Any change of widths that keeps the canonical form keeps every comparison. */
  lemma {:induction false} CanonCompares(a: Range, b: Range)
    ensures KeyCmp(Canon(a), Canon(b)) == KeyCmp(a, b)
  {
  }

  /** Widths agree: one width for both leaves the printed length of one of the two as it is. */
  predicate Combines(n: nat, wn: nat, m: nat, wm: nat) {
    wn == wm || Max(NDigits(n), NDigits(m)) >= Max(wn, wm)
  }

  /** Where widths combine, comparing `lo` alone is comparing printed length and then `lo`. */
  lemma {:induction false} CombinedOrder(n: nat, wn: nat, m: nat, wm: nat)
    requires Combines(n, wn, m, wm)
    ensures n < m ==> Len(n, wn) <= Len(m, wm)
    ensures n == m ==> Len(n, wn) == Len(m, wm)
  {
    if n <= m { NDigitsMono(n, m); } else { NDigitsMono(m, n); }
  }

  /** Where they do not, comparing widths is comparing printed lengths. */
  lemma {:induction false} SeparateOrder(n: nat, wn: nat, m: nat, wm: nat)
    requires !Combines(n, wn, m, wm)
    ensures wn < wm <==> Len(n, wn) < Len(m, wm)
    ensures wn > wm <==> Len(n, wn) > Len(m, wm)
  {
  }

  /** _zero_padded. */
  method ZeroPadded(num: nat, width: nat) returns (pad: nat)
    ensures pad == Len(num, width) - NDigits(num)
  {
    var n, rest: nat := 1, num / 10;
    while rest != 0
      invariant n + (if rest == 0 then 0 else NDigits(rest)) == NDigits(num)
      decreases rest
    {
      n := n + 1;
      rest := rest / 10;
    }
    pad := if width > n then width - n else 0;
  }

  /** The width that stands for both. */
  function EquivWidth(n: nat, wn: nat, wm: nat): nat {
    if Len(n, wn) != Len(n, wm) then wn else wm
  }

  /** _width_equiv: both widths end up the same, and neither range is printed differently. */
  method WidthEquiv(n: nat, wn: nat, m: nat, wm: nat) returns (ok: bool, wn': nat, wm': nat)
    ensures ok <==> Combines(n, wn, m, wm)
    ensures !ok ==> wn' == wn && wm' == wm
    ensures ok ==> wn' == wm' == EquivWidth(n, wn, wm)
    ensures Len(n, wn') == Len(n, wn) && Len(m, wm') == Len(m, wm)
  {
    wn', wm' := wn, wm;
    var npad := ZeroPadded(n, wn);
    var nmpad := ZeroPadded(n, wm);
    var mpad := ZeroPadded(m, wm);
    var mnpad := ZeroPadded(m, wn);
    if npad != nmpad && mpad != mnpad {
      return false, wn', wm';
    }
    if npad != nmpad {
      wm' := wn;
    } else {
      wn' := wm;
    }
    ok := true;
  }

  /** A C int holding the low 32 bits of `x`. */
  function Int32(x: int): int {
    (x + INT_RANGE / 2) % INT_RANGE - INT_RANGE / 2
  }

  predicate SameSign(x: int, y: int) {
    (x < 0 <==> y < 0) && (x == 0 <==> y == 0)
  }

  /** The lower ends of ranges that may be compared are less than 2^31 apart. */
  predicate Near(a: Range, b: Range) {
    a.prefix == b.prefix && a.single == b.single ==> -(INT_RANGE / 2) < a.lo - b.lo < INT_RANGE / 2
  }

  /** `b` is `a` but for a width that prints the same; `w` is the only other width it may have. */
  predicate Rewidth(a: Range, b: Range, w: nat) {
    Canon(a) == Canon(b) && (b.width == a.width || b.width == w)
  }

  /** hostrange_cmp, with the widths it leaves behind. */
  method Compare(a: Range, b: Range) returns (c: int, a': Range, b': Range)
    ensures c == CmpResult(a, b)
    ensures Near(a, b) ==> SameSign(c, KeyCmp(a, b))
    ensures Rewidth(a, a', b.width) && Rewidth(b, b', a.width)
    ensures PrefixCmp(a, b) != 0 ==> a' == a && b' == b
  {
    a', b' := a, b;
    c := PrefixCmp(a, b);
    if c == 0 {
      var ok, wa, wb := WidthEquiv(a.lo, a.width, b.lo, b.width);
      a', b' := a.(width := wa), b.(width := wb);
      if ok {
        CombinedOrder(a.lo, a.width, b.lo, b.width);
        CombinedOrder(b.lo, b.width, a.lo, a.width);
        c := Int32(a.lo - b.lo);
      } else {
        SeparateOrder(a.lo, a.width, b.lo, b.width);
        c := a.width - b.width;
      }
    }
  }

  /** What hostrange_cmp returns. */
  function CmpResult(a: Range, b: Range): int {
    if PrefixCmp(a, b) != 0 then PrefixCmp(a, b)
    else if Combines(a.lo, a.width, b.lo, b.width) then Int32(a.lo - b.lo)
    else a.width - b.width
  }

  /** The result has the sign of the key order exactly when the subtraction of the lower ends
      keeps its sign in an int; ranges of other prefixes or widths always compare correctly. */
  lemma {:induction false} CmpIsKeyOrder(a: Range, b: Range)
    ensures SameSign(CmpResult(a, b), KeyCmp(a, b)) <==>
              (PrefixCmp(a, b) == 0 && Combines(a.lo, a.width, b.lo, b.width) && a.lo != b.lo ==>
                 if a.lo > b.lo then 0 < (a.lo - b.lo) % INT_RANGE < INT_RANGE / 2
                 else 0 < (b.lo - a.lo) % INT_RANGE <= INT_RANGE / 2)
  {
    if PrefixCmp(a, b) == 0 {
      if Combines(a.lo, a.width, b.lo, b.width) {
        CombinedOrder(a.lo, a.width, b.lo, b.width);
        CombinedOrder(b.lo, b.width, a.lo, a.width);
        Int32Sign(a.lo - b.lo);
      } else {
        SeparateOrder(a.lo, a.width, b.lo, b.width);
      }
    }
  }

  /** Only the low 32 bits matter. */
  lemma {:induction false} Int32Same(x: int, y: int, k: int)
    requires x == y + k * INT_RANGE
    ensures Int32(x) == Int32(y)
  {
    var q, m := (y + INT_RANGE / 2) / INT_RANGE, (y + INT_RANGE / 2) % INT_RANGE;
    RemainderIs(x + INT_RANGE / 2, q + k, m);
  }

  /** A C int that is added to or subtracted from another is one of its own. */
  lemma {:induction false} Int32Sum(x: int, y: int)
    ensures Int32(Int32(x) + y) == Int32(x + y)
    ensures Int32(x - Int32(y)) == Int32(x - y)
  {
    Int32Same(Int32(x) + y, x + y, -((x + INT_RANGE / 2) / INT_RANGE));
    Int32Same(x - Int32(y), x - y, (y + INT_RANGE / 2) / INT_RANGE);
  }

  lemma {:induction false} Int32Small(d: int)
    requires -(INT_RANGE / 2) <= d < INT_RANGE / 2
    ensures Int32(d) == d
  {
  }

  /** hostrange_count is the number of hosts, as far as an int can tell. */
  lemma {:induction false} UCountSame(x: int, r: Range)
    requires WellFormed(r)
    ensures Int32(x + UCount(r)) == Int32(x + Count(r))
  {
    if Count(r) > ULONG_MAX {
      assert Count(r) == ULONG_MAX + 1 && UCount(r) == 0;
      Int32Same(x + UCount(r), x + Count(r), 0 - INT_RANGE as int);
    }
  }

  lemma {:induction false} Int32Sign(d: int)
    ensures d > 0 ==> (Int32(d) > 0 <==> 0 < d % INT_RANGE < INT_RANGE / 2)
    ensures d < 0 ==> (Int32(d) < 0 <==> 0 < (-d) % INT_RANGE <= INT_RANGE / 2)
    ensures d == 0 ==> Int32(d) == 0
  {
    var q, m := d / INT_RANGE, d % INT_RANGE;
    if m < INT_RANGE / 2 {
      RemainderIs(d + INT_RANGE / 2, q, m + INT_RANGE / 2);
    } else {
      RemainderIs(d + INT_RANGE / 2, q + 1, m - INT_RANGE / 2);
    }
    if m == 0 {
      RemainderIs(-d, -q, 0);
    } else {
      RemainderIs(-d, -q - 1, INT_RANGE - m);
    }
  }

  lemma {:induction false} RemainderIs(x: int, q: int, m: int)
    requires x == q * INT_RANGE + m && 0 <= m < INT_RANGE
    ensures x % INT_RANGE == m
  {
  }

  /** Two ranges 2^32 apart compare as equal. */
  lemma {:induction false} CmpOverflows()
    ensures CmpResult(Range("n", 0x1_0000_0000, 0x1_0000_0000, 10, false), Range("n", 0, 0, 10, false)) == 0
    ensures KeyCmp(Range("n", 0x1_0000_0000, 0x1_0000_0000, 10, false), Range("n", 0, 0, 10, false)) > 0
  {
    CombinedOrder(0, 10, 0x1_0000_0000, 10);
  }
}
