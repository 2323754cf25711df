/**
  hostlist_push_range on values: what it does to a list of ranges, and exactly when the list
  then stands for its hosts and those of the new range.
*/
module HostPush {
  import opened Common
  import opened HostRange
  import opened HostSeq

  lemma {:induction false} ReplaceLast(hr: seq<Range>, r: Range)
    requires hr != []
    ensures All(hr) == All(hr[..|hr| - 1]) + Expand(hr[|hr| - 1])
    ensures All(hr[|hr| - 1 := r]) == All(hr[..|hr| - 1]) + Expand(r)
    ensures Total(hr[|hr| - 1 := r]) == Total(hr) - Count(hr[|hr| - 1]) + Count(r)
  {
    var pre, last := hr[..|hr| - 1], hr[|hr| - 1];
    assert hr == pre + [last] && hr[|hr| - 1 := r] == pre + [r];
    AllConcat(pre, [last]);
    AllConcat(pre, [r]);
    AllOne(last);
    AllOne(r);
  }

  /** The range that hostlist_push_range writes for the last range and the new one. */
  lemma {:induction false} TailJoins(tail: Range, r: Range, w: nat)
    requires WellFormed(tail) && WellFormed(r) && PrefixCmp(tail, r) == 0 && !r.single && tail.hi + 1 == r.lo
    requires Len(tail.lo, w) == Len(tail.lo, tail.width) && Len(r.lo, w) == Len(r.lo, r.width)
    ensures WellFormed(tail.(width := w, hi := r.hi))
    ensures Expand(tail.(width := w, hi := r.hi)) == Expand(tail) + Expand(r)
  {
    RewidthExpands(tail, tail.(width := w), w);
    RewidthExpands(r, r.(width := w), w);
    JoinExpands(tail.(width := w), r.(width := w));
  }

  /** The second range starts where the first ends, as the code sees it. */
  predicate Meet(a: Range, b: Range) {
    PrefixCmp(a, b) == 0 && a.hi == Pred(b.lo) && Combines(a.lo, a.width, b.lo, b.width)
  }

  /** On unsigned long 0 comes after ULONG_MAX. */
  predicate MeetAround(a: Range, b: Range) {
    Meet(a, b) && b.lo == 0
  }

  function Extended(tail: Range, r: Range): Range {
    tail.(width := EquivWidth(tail.lo, tail.width, r.width), hi := r.hi)
  }

  /** The width written to the last range prints neither of the two differently. */
  lemma {:induction false} ExtendedWidth(tail: Range, r: Range)
    requires Combines(tail.lo, tail.width, r.lo, r.width)
    ensures var w := EquivWidth(tail.lo, tail.width, r.width);
            Len(tail.lo, w) == Len(tail.lo, tail.width) && Len(r.lo, w) == Len(r.lo, r.width)
  {
  }

  /** Extending a range adds the hosts of the other, or, around the end, loses some. */
  lemma {:induction false} ExtendedHosts(tail: Range, r: Range)
    requires WellFormed(tail) && WellFormed(r) && Meet(tail, r)
    ensures !r.single
    ensures r.lo > 0 ==> WellFormed(Extended(tail, r)) && Expand(Extended(tail, r)) == Expand(tail) + Expand(r)
    ensures r.lo > 0 ==> Count(Extended(tail, r)) == Count(tail) + Count(r)
    ensures r.lo == 0 ==> |Expand(Extended(tail, r))| < |Expand(tail)| + |Expand(r)|
  {
    ExtendedWidth(tail, r);
    if r.lo > 0 {
      TailJoins(tail, r, EquivWidth(tail.lo, tail.width, r.width));
    }
  }

  lemma {:induction false} ExtendedNotMore(tail: Range, r: Range)
    requires !r.single && Meet(tail, r)
    ensures |Expand(Extended(tail, r))| <= |Expand(tail)| + |Expand(r)|
  {
  }

  // ---- one push ----

  /** The new range extends the last one. */
  predicate Extends(hr: seq<Range>, r: Range) {
    hr != [] && Meet(hr[|hr| - 1], r)
  }

  function Push(hr: seq<Range>, r: Range): seq<Range> {
    if Extends(hr, r) then hr[|hr| - 1 := Extended(hr[|hr| - 1], r)] else hr + [r]
  }

  predicate Wraps(hr: seq<Range>, r: Range) {
    Extends(hr, r) && r.lo == 0
  }

  lemma {:induction false} PushTotal(hr: seq<Range>, r: Range)
    requires AllWellFormed(hr) && WellFormed(r) && !Wraps(hr, r)
    ensures AllWellFormed(Push(hr, r)) && Total(Push(hr, r)) == Total(hr) + Count(r)
  {
    if Extends(hr, r) {
      assert WellFormed(hr[|hr| - 1]);
      ExtendedHosts(hr[|hr| - 1], r);
      ReplaceLast(hr, Extended(hr[|hr| - 1], r));
    } else {
      AllConcat(hr, [r]);
      AllOne(r);
    }
  }

  lemma {:induction false} AllLengths(hr: seq<Range>, r: Range)
    ensures |All(hr + [r])| == |All(hr)| + |Expand(r)|
    ensures hr != [] ==> |All(hr[|hr| - 1 := r])| == |All(hr)| - |Expand(hr[|hr| - 1])| + |Expand(r)|
  {
    AllConcat(hr, [r]);
    AllOne(r);
    if hr != [] {
      ReplaceLast(hr, r);
    }
  }

  lemma {:induction false} PushNotMore(hr: seq<Range>, r: Range)
    requires WellFormed(r)
    ensures |All(Push(hr, r))| <= |All(hr)| + |Expand(r)|
    ensures AllWellFormed(hr) && Wraps(hr, r) ==> |All(Push(hr, r))| < |All(hr)| + |Expand(r)|
  {
    AllLengths(hr, r);
    if Extends(hr, r) {
      var tail := hr[|hr| - 1];
      AllLengths(hr, Extended(tail, r));
      if r.single {
        assert r.lo == 0 && r.hi == 0 && tail.hi == ULONG_MAX;
      } else {
        ExtendedNotMore(tail, r);
      }
      if AllWellFormed(hr) {
        assert WellFormed(tail);
        ExtendedHosts(tail, r);
      }
    }
  }

  /** The hosts of the new range come after those of the list exactly if the push does not wrap. */
  lemma {:induction false} PushExactly(hr: seq<Range>, r: Range)
    requires AllWellFormed(hr) && WellFormed(r)
    ensures All(Push(hr, r)) == All(hr) + Expand(r) <==> !Wraps(hr, r)
    ensures !Wraps(hr, r) ==> AllWellFormed(Push(hr, r))
  {
    PushNotMore(hr, r);
    if !Wraps(hr, r) {
      PushTotal(hr, r);
    }
    if Extends(hr, r) {
      var tail := hr[|hr| - 1];
      assert WellFormed(tail);
      ExtendedHosts(tail, r);
      ReplaceLast(hr, Extended(tail, r));
      Assoc(All(hr[..|hr| - 1]), Expand(tail), Expand(r));
    } else {
      AllConcat(hr, [r]);
      AllOne(r);
    }
  }

  // ---- many pushes ----

  function PushAll(hr: seq<Range>, rs: seq<Range>): seq<Range>
    decreases |rs|
  {
    if rs == [] then hr else PushAll(Push(hr, rs[0]), rs[1..])
  }

  /** One of the pushes wraps. */
  predicate WrapsIn(hr: seq<Range>, rs: seq<Range>)
    decreases |rs|
  {
    rs != [] && (Wraps(hr, rs[0]) || WrapsIn(Push(hr, rs[0]), rs[1..]))
  }

  lemma {:induction false} PushAllNotMore(hr: seq<Range>, rs: seq<Range>)
    requires AllWellFormed(rs)
    ensures |All(PushAll(hr, rs))| <= |All(hr)| + |All(rs)|
    decreases |rs|
  {
    if rs != [] {
      PushNotMore(hr, rs[0]);
      PushAllNotMore(Push(hr, rs[0]), rs[1..]);
    }
  }

  /** Pushing ranges onto a list adds their hosts in order exactly if no push wraps. */
  lemma {:induction false} PushAllExactly(hr: seq<Range>, rs: seq<Range>)
    requires AllWellFormed(hr) && AllWellFormed(rs)
    ensures All(PushAll(hr, rs)) == All(hr) + All(rs) <==> !WrapsIn(hr, rs)
    decreases |rs|
  {
    if rs != [] {
      var r, rest := rs[0], rs[1..];
      PushExactly(hr, r);
      if Wraps(hr, r) {
        PushNotMore(hr, r);
        PushAllNotMore(Push(hr, r), rest);
      } else {
        PushAllExactly(Push(hr, r), rest);
        Assoc(All(hr), Expand(r), All(rest));
      }
    }
  }

  lemma {:induction false} PushAllFewer(hr: seq<Range>, rs: seq<Range>)
    requires AllWellFormed(hr) && AllWellFormed(rs) && WrapsIn(hr, rs)
    ensures |All(PushAll(hr, rs))| < |All(hr)| + |All(rs)|
    decreases |rs|
  {
    var r, rest := rs[0], rs[1..];
    PushNotMore(hr, r);
    if Wraps(hr, r) {
      PushAllNotMore(Push(hr, r), rest);
    } else {
      PushTotal(hr, r);
      PushAllFewer(Push(hr, r), rest);
    }
  }

  lemma {:induction false} WrapsInConcat(hr: seq<Range>, rs: seq<Range>, more: seq<Range>)
    ensures WrapsIn(hr, rs + more) <==> WrapsIn(hr, rs) || WrapsIn(PushAll(hr, rs), more)
    decreases |rs|
  {
    if rs == [] {
      assert rs + more == more;
    } else {
      assert (rs + more)[0] == rs[0] && (rs + more)[1..] == rs[1..] + more;
      WrapsInConcat(Push(hr, rs[0]), rs[1..], more);
    }
  }

  lemma {:induction false} PushAllConcat(hr: seq<Range>, rs: seq<Range>, more: seq<Range>)
    ensures PushAll(hr, rs + more) == PushAll(PushAll(hr, rs), more)
    decreases |rs|
  {
    if rs == [] {
      assert rs + more == more;
    } else {
      assert (rs + more)[1..] == rs[1..] + more;
      PushAllConcat(Push(hr, rs[0]), rs[1..], more);
    }
  }

  /** Every range ends below ULONG_MAX. */
  predicate Below(hr: seq<Range>) {
    forall r :: r in hr ==> r.hi < ULONG_MAX
  }

  /** Such ranges never wrap. */
  lemma {:induction false} BelowNeverWraps(hr: seq<Range>, rs: seq<Range>)
    requires Below(hr) && Below(rs)
    ensures !WrapsIn(hr, rs)
    decreases |rs|
  {
    if rs != [] {
      assert rs[0] in rs && (hr != [] ==> hr[|hr| - 1] in hr);
      assert Below(Push(hr, rs[0])) && Below(rs[1..]);
      BelowNeverWraps(Push(hr, rs[0]), rs[1..]);
    }
  }

  /** `n[18446744073709551615,00000000000000000000]` loses both of its hosts. */
  lemma {:induction false} BothLost(a: Range, b: Range)
    requires a == Range("n", ULONG_MAX, ULONG_MAX, 20, false) && b == Range("n", 0, 0, 20, false)
    ensures |All([a, b])| == 2 && All(PushAll([], [a, b])) == []
  {
    var c := Extended(a, b);
    TwoPushes(a, b, c);
    AllConcat([a], [b]);
    AllOne(a);
    AllOne(b);
    AllOne(c);
    assert [a, b] == [a] + [b];
  }

  lemma {:induction false} TwoPushes(a: Range, b: Range, c: Range)
    requires Extends([a], b) && c == Extended(a, b)
    ensures PushAll([], [a, b]) == [c]
  {
    assert [a, b][1..] == [b] && [b][1..] == [];
    assert Push([], a) == [a] && Push([a], b) == [c];
    assert PushAll([a], [b]) == PushAll([c], []) == [c];
  }
}
