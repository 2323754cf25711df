/**
  hostlist_ranged_string and hostlist_create as the C code runs them: a printer that fills a
  buffer of a given size, and a parser that pushes range after range onto a new hostlist.
*/
module HostPrinter {
  import opened Common
  import opened HostRange
  import opened HostPush
  import opened HostSeq
  import opened HostText
  import HL = Hostlist
  import RT = HostRoundTrip

  /** The buffer starts with `t`. */
  ghost predicate Starts(buf: array<char>, t: string)
    reads buf
  {
    |t| <= buf.Length && buf[..|t|] == t
  }

  /** snprintf of `s` after the first `at` bytes of a buffer of `n`: the result is the length it
      would have had, `s` is there if it and a NUL fit, and a NUL ends what is there. */
  method Snprintf(buf: array<char>, n: nat, at: nat, s: string, ghost t: string) returns (len: nat)
    requires |t| == at <= n <= buf.Length && Starts(buf, t)
    modifies buf
    ensures len == |s| && Starts(buf, t)
    ensures at + |s| < n ==> Starts(buf, t + s)
    ensures at < n ==> buf[if at + |s| < n then at + |s| else n - 1] == '\0'
  {
    len := |s|;
    if at == n {
      return;
    }
    var k := 0;
    while k < |s| && k < n - at - 1
      invariant k <= |s| && at + k < n && buf[..at + k] == t + s[..k]
    {
      buf[at + k] := s[k];
      k := k + 1;
      assert buf[..at + k] == buf[..at + k - 1] + [s[k - 1]];
    }
    buf[at + k] := '\0';
    assert buf[..at] == buf[..at + k][..at];
    assert k == |s| ==> s[..k] == s;
  }

  /** hostrange_numstr. */
  method NumStr(buf: array<char>, n: nat, at: nat, r: Range, ghost t: string) returns (len: nat)
    requires |t| == at <= n <= buf.Length && Starts(buf, t)
    modifies buf
    ensures Starts(buf, t)
    ensures if at + |RangeText(r)| < n then len == |RangeText(r)| && Starts(buf, t + RangeText(r)) else at + len >= n
  {
    if r.single || at == n {
      assert t + "" == t;
      return 0;
    }
    ghost var lo := Num(r.lo, r.width);
    len := Snprintf(buf, n, at, Num(r.lo, r.width), t);
    if at + len < n && r.lo < r.hi {
      var more := Snprintf(buf, n, at + len, "-" + Num(r.hi, r.width), t + lo);
      Shorter(buf, t, lo);
      assert t + lo + ("-" + Num(r.hi, r.width)) == t + RangeText(r);
      len := len + more;
    } else {
      assert r.lo >= r.hi ==> RangeText(r) == lo;
    }
  }

  lemma {:induction false} Shorter(buf: array<char>, t: string, u: string)
    requires Starts(buf, t + u)
    ensures Starts(buf, t)
  {
    assert buf[..|t|] == buf[..|t + u|][..|t|];
  }

  /** What _get_bracketed_list has written before range `i` of the group `g`. */
  ghost function SoFar(g: seq<Range>, i: nat): string
    requires g != [] && i <= |g|
  {
    g[0].prefix + (if BracketNeeded(g) then "[" + Listed(g[..i]) else if i == 0 then "" else RangeText(g[0]))
  }

  lemma {:induction false} ListedStep(g: seq<Range>, i: nat)
    requires i < |g|
    ensures Listed(g[..i + 1]) == Listed(g[..i]) + RangeText(g[i]) + ","
  {
    if i == 0 {
      assert g[..1] == [g[0]] && g[..0] == [] && [g[0]][1..] == [];
    } else {
      assert g[..i + 1][1..] == g[1..][..i] && g[..i][1..] == g[1..][..i - 1];
      ListedStep(g[1..], i - 1);
    }
  }

  lemma {:induction false} RunWithin(hr: seq<Range>, k: nat)
    requires 0 < k < |hr| && k <= Run(hr)
    ensures Within(hr[k], hr[k - 1]) <==> k < Run(hr)
  {
    if k > 1 {
      RunWithin(hr[1..], k - 1);
    }
  }

  lemma {:induction false} ListedGrows(g: seq<Range>, i: nat)
    requires i <= |g|
    ensures |Listed(g[..i])| <= |Listed(g)|
    decreases |g| - i
  {
    if i < |g| {
      ListedStep(g, i);
      ListedGrows(g, i + 1);
    } else {
      assert g[..i] == g;
    }
  }

  lemma {:induction false} SoFarStep(g: seq<Range>, i: nat)
    requires i < |g|
    ensures SoFar(g, i + 1) == SoFar(g, i) + RangeText(g[i]) + if BracketNeeded(g) then "," else ""
  {
    ListedStep(g, i);
  }

  /** What has been written is never longer than the text of the group. */
  lemma {:induction false} SoFarShorter(g: seq<Range>, i: nat)
    requires g != [] && i <= |g|
    ensures |SoFar(g, i)| <= |GroupText(g)|
    ensures i < |g| ==> |SoFar(g, i) + RangeText(g[i])| <= |GroupText(g)|
  {
    if BracketNeeded(g) {
      ListedGrows(g, i);
      ListedNonempty(g);
      Longer(g[0].prefix, Listed(g[..i]), Listed(g));
      if i < |g| {
        ListedStep(g, i);
        ListedGrows(g, i + 1);
        LongerStill(g[0].prefix, Listed(g[..i]), RangeText(g[i]), Listed(g[..i + 1]), Listed(g));
      }
    }
  }

  lemma {:induction false} ListedNonempty(g: seq<Range>)
    requires g != []
    ensures Listed(g) != ""
  {
    assert g[..|g|] == g;
    ListedStep(g, |g| - 1);
  }

  lemma {:induction false} Longer(prefix: string, done: string, all: string)
    requires |done| <= |all| && all != ""
    ensures |prefix + ("[" + done)| <= |prefix + "[" + all[..|all| - 1] + "]"|
  {
  }

  lemma {:induction false} LongerStill(prefix: string, done: string, text: string, next: string, all: string)
    requires next == done + text + "," && |next| <= |all|
    ensures |prefix + ("[" + done) + text| <= |prefix + "[" + all[..|all| - 1] + "]"|
  {
  }

  /** With its last comma made a bracket, what has been written is the text of the group. */
  lemma {:induction false} SoFarEnds(g: seq<Range>)
    requires g != []
    ensures BracketNeeded(g) ==> SoFar(g, |g|) != ""
    ensures GroupText(g) == if BracketNeeded(g) then SoFar(g, |g|)[..|SoFar(g, |g|)| - 1] + "]" else SoFar(g, |g|)
  {
    if BracketNeeded(g) {
      assert g[..|g|] == g;
      ListedNonempty(g);
      LastReplaced(g[0].prefix, Listed(g), SoFar(g, |g|));
    }
  }

  lemma {:induction false} LastReplaced(prefix: string, all: string, s: string)
    requires all != "" && s == prefix + ("[" + all)
    ensures s != "" && s[..|s| - 1] + "]" == prefix + "[" + all[..|all| - 1] + "]"
  {
    assert s[..|s| - 1] == prefix + "[" + all[..|all| - 1];
  }

  /** The ranges of the list that starts at `start`. */
  ghost function Group(hr: seq<Range>, start: nat): (g: seq<Range>)
    requires start < |hr|
    ensures g != [] && start + |g| <= |hr| && g == hr[start..start + |g|]
  {
    hr[start..][..Run(hr[start..])]
  }

  /** How far _get_bracketed_list has come: `len` bytes written, or the buffer is full. */
  ghost predicate Reached(buf: array<char>, n: nat, at: nat, len: nat, t: string, done: string)
    reads buf
  {
    && at + len <= n <= buf.Length
    && (if at + len < n then len == |done| && Starts(buf, t + done) else len <= |done|)
  }

  /** One turn of the do loop: a range and, inside brackets, a comma. */
  method PutRange(buf: array<char>, n: nat, at: nat, len0: nat, r: Range, bracket: bool, ghost t: string, ghost done: string)
    returns (full: bool, len: nat)
    requires |t| == at && Reached(buf, n, at, len0, t, done)
    modifies buf
    ensures full ==> at + len >= n && at + |done + RangeText(r)| >= n
    ensures !full ==> at + |done + RangeText(r)| < n
    ensures !full ==> Reached(buf, n, at, len, t, done + RangeText(r) + if bracket then "," else "")
  {
    ghost var u := buf[..at + len0];
    assert at + len0 < n ==> u == t + done;
    var k := NumStr(buf, n, at + len0, r, u);
    len := len0 + k;
    full := at + len >= n;
    if !full {
      assert u + RangeText(r) == t + (done + RangeText(r));
      if bracket {
        buf[at + len] := ',';
        assert buf[..at + len + 1] == buf[..at + len] + ",";
        assert t + (done + RangeText(r) + ",") == t + (done + RangeText(r)) + ",";
        len := len + 1;
      } else {
        assert done + RangeText(r) + "" == done + RangeText(r);
      }
    }
  }

  /** How a piece of text ends: a NUL after it, or in the last byte of a buffer that is too small. */
  ghost predicate Ended(buf: array<char>, n: nat, at: nat, len: nat)
    reads buf
  {
    n <= buf.Length && (at < n ==> buf[if at + len < n then at + len else n - 1] == '\0')
  }

  /** The last comma becomes the closing bracket, and a NUL ends the text on each of the three exits. */
  method CloseBracket(buf: array<char>, n: nat, at: nat, len: nat, bracket: bool, ghost t: string, ghost done: string, ghost text: string)
    requires |t| == at <= n <= buf.Length
    requires at + len < n ==> Reached(buf, n, at, len, t, done)
    requires if bracket then done != "" && text == done[..|done| - 1] + "]" else text == done
    modifies buf
    ensures Ended(buf, n, at, len)
    ensures at + len < n ==> len == |text| && Starts(buf, t + text)
  {
    if bracket && at + len < n && len > 0 {
      buf[at + len - 1] := ']';
      assert buf[..at + len - 1] == (t + done)[..at + len - 1] == t + done[..|done| - 1];
      assert buf[..at + len] == buf[..at + len - 1] + "]";
      buf[at + len] := '\0';
      Assoc(t, done[..|done| - 1], "]");
    } else if at + len >= n {
      if n > at {
        buf[n - 1] := '\0';
      }
    } else {
      buf[at + len] := '\0';
      assert buf[..at + len] == t + done;
    }
  }

  /** The ranges from `start` up to `end` belong together, and no others. */
  ghost predicate Together(hr: seq<Range>, start: nat, end: nat) {
    && start < end <= |hr|
    && forall k :: start < k <= end ==> (k < |hr| && Within(hr[k], hr[k - 1]) <==> k < end)
  }

  /** `steps` are the texts that appear one after the other; none is longer than `total`. */
  ghost predicate Chain(steps: seq<string>, hr: seq<Range>, start: nat, end: nat, sep: string, total: nat) {
    && start <= end <= |hr| && |steps| == end - start + 1
    && forall i :: 0 <= i < end - start ==>
         && steps[i + 1] == steps[i] + RangeText(hr[start + i]) + sep
         && |steps[i] + RangeText(hr[start + i])| <= total
  }

  /** The do loop of _get_bracketed_list. */
  method PutRanges(buf: array<char>, n: nat, at: nat, len0: nat, hr: seq<Range>, start: nat, bracket: bool,
                   ghost t: string, ghost end: nat, ghost steps: seq<string>, ghost total: nat)
    returns (full: bool, len: nat, next: nat)
    requires |t| == at && Together(hr, start, end)
    requires Chain(steps, hr, start, end, if bracket then "," else "", total)
    requires Reached(buf, n, at, len0, t, steps[0])
    modifies buf
    ensures full ==> at + len >= n && at + total >= n
    ensures !full ==> next == end && Reached(buf, n, at, len, t, steps[end - start])
  {
    full, len, next := false, len0, start;
    while true
      invariant start <= next < end && Reached(buf, n, at, len, t, steps[next - start])
      decreases end - next
    {
      full, len := PutRange(buf, n, at, len, hr[next], bracket, t, steps[next - start]);
      if full {
        return;
      }
      next := next + 1;
      if !(next < |hr| && Within(hr[next], hr[next - 1])) {
        break;
      }
    }
  }

  ghost function Steps(g: seq<Range>): (s: seq<string>)
    requires g != []
    ensures |s| == |g| + 1 && forall i :: 0 <= i <= |g| ==> s[i] == SoFar(g, i)
  {
    seq(|g| + 1, i requires 0 <= i <= |g| => SoFar(g, i))
  }

  lemma {:induction false} StepsChain(hr: seq<Range>, start: nat)
    requires start < |hr|
    ensures var g := Group(hr, start);
            && Together(hr, start, start + |g|)
            && Chain(Steps(g), hr, start, start + |g|, if BracketNeeded(g) then "," else "", |GroupText(g)|)
  {
    var g := Group(hr, start);
    forall k | start < k <= start + |g| ensures k < |hr| && Within(hr[k], hr[k - 1]) <==> k < start + |g| {
      GroupGoesOn(hr, start, k);
    }
    var steps, sep := Steps(g), if BracketNeeded(g) then "," else "";
    forall i | 0 <= i < |g|
      ensures steps[i + 1] == steps[i] + RangeText(hr[start + i]) + sep
      ensures |steps[i] + RangeText(hr[start + i])| <= |GroupText(g)|
    {
      SoFarStep(g, i);
      SoFarShorter(g, i);
    }
  }

  lemma {:induction false} GroupGoesOn(hr: seq<Range>, start: nat, k: nat)
    requires start < |hr| && start < k <= start + |Group(hr, start)|
    ensures k < |hr| && Within(hr[k], hr[k - 1]) <==> k < start + |Group(hr, start)|
  {
    if k < |hr| {
      RunWithin(hr[start..], k - start);
    }
  }

  /** What _get_bracketed_list owes for the text of a group: all of it, or an overrun. */
  ghost predicate GroupDone(buf: array<char>, n: nat, at: nat, t: string, text: string, end: nat, len: nat, next: nat)
    reads buf
  {
    && Ended(buf, n, at, len)
    && if at + |text| < n then len == |text| && next == end && Starts(buf, t + text) else at + len >= n
  }

  /** The ranges of the group, and the closing bracket. */
  method CompleteGroup(buf: array<char>, n: nat, at: nat, len0: nat, hr: seq<Range>, start: nat, bracket: bool,
                  ghost t: string, ghost g: seq<Range>)
    returns (len: nat, next: nat)
    requires |t| == at && start < |hr| && g == Group(hr, start) && bracket == BracketNeeded(g)
    requires Reached(buf, n, at, len0, t, SoFar(g, 0))
    modifies buf
    ensures GroupDone(buf, n, at, t, GroupText(g), start + |g|, len, next)
  {
    SoFarEnds(g);
    StepsChain(hr, start);
    var full;
    full, len, next := PutRanges(buf, n, at, len0, hr, start, bracket, t, start + |g|, Steps(g), |GroupText(g)|);
    CloseBracket(buf, n, at, len, bracket, t, SoFar(g, |g|), GroupText(g));
  }

  /** _get_bracketed_list. */
  method GetBracketed(buf: array<char>, n: nat, at: nat, hr: seq<Range>, start: nat, ghost t: string)
    returns (len: nat, next: nat)
    requires |t| == at <= n <= buf.Length && Starts(buf, t) && start < |hr|
    modifies buf
    ensures GroupDone(buf, n, at, t, GroupText(Group(hr, start)), start + |Group(hr, start)|, len, next)
  {
    ghost var g := Group(hr, start);
    var bracket := UCount(hr[start]) > 1 || (start + 1 < |hr| && Within(hr[start], hr[start + 1]));
    assert bracket == BracketNeeded(g);
    SoFarShorter(g, 0);
    assert SoFar(g, 0) == hr[start].prefix + if bracket then "[" else "";
    var room;
    room, len := OpenBracket(buf, n, at, hr[start].prefix, bracket, t);
    if !room {
      return n - at, start;
    }
    len, next := CompleteGroup(buf, n, at, len, hr, start, bracket, t, g);
  }

  /** The prefix and the opening bracket. */
  method OpenBracket(buf: array<char>, n: nat, at: nat, prefix: string, bracket: bool, ghost t: string)
    returns (room: bool, len: nat)
    requires |t| == at <= n <= buf.Length && Starts(buf, t)
    modifies buf
    ensures !room ==> at + |prefix| > n && Ended(buf, n, at, n - at)
    ensures room ==> Reached(buf, n, at, len, t, prefix + if bracket then "[" else "")
  {
    len := Snprintf(buf, n, at, prefix, t);
    room := at + len <= n;
    assert prefix + "" == prefix;
    if room && bracket && at + len < n {
      buf[at + len] := '[';
      assert buf[..at + len + 1] == buf[..at + len] + "[";
      assert t + (prefix + "[") == t + prefix + "[";
      len := len + 1;
    }
  }

  /** What hostlist_ranged_string has written in the end if it has written `done` and `hr` is left:
      it writes no comma while there is no text. */
  function Printed(done: string, hr: seq<Range>): (s: string)
    ensures |done| <= |s|
    decreases |hr|
  {
    if hr == [] then done
    else
      var n := Run(hr);
      var text := done + GroupText(hr[..n]);
      Printed(if n < |hr| && text != "" then text + "," else text, hr[n..])
  }

  lemma {:induction false} PrintedGroup(done: string, h: seq<Range>, g: seq<Range>, later: seq<Range>)
    requires h != [] && g == h[..Run(h)] && later == h[Run(h)..]
    ensures var text := done + GroupText(g);
            Printed(done, h) == Printed(if later != [] && text != "" then text + "," else text, later)
  {
  }

  lemma {:induction false} PrintGroup(h: seq<Range>, g: seq<Range>, later: seq<Range>)
    requires h != [] && g == h[..Run(h)] && later == h[Run(h)..]
    ensures Print(h) == GroupText(g) + if later != [] then "," + Print(later) else ""
  {
  }

  lemma {:induction false} CommaBetween(done: string, text: string, more: string)
    ensures done + (text + ("," + more)) == done + text + "," + more
    ensures done + (text + "") == done + text
  {
  }

  lemma {:induction false} PrintedAfterText(done: string, hr: seq<Range>)
    requires done != ""
    ensures Printed(done, hr) == done + Print(hr)
    decreases |hr|
  {
    if hr != [] {
      var g, later := hr[..Run(hr)], hr[Run(hr)..];
      PrintedGroup(done, hr, g, later);
      PrintGroup(hr, g, later);
      CommaBetween(done, GroupText(g), Print(later));
      if later != [] {
        PrintedAfterText(done + GroupText(g) + ",", later);
      }
    }
  }

  lemma {:induction false} PrintedNotLonger(hr: seq<Range>)
    ensures |Printed("", hr)| <= |Print(hr)|
    decreases |hr|
  {
    if hr != [] {
      var g, later := hr[..Run(hr)], hr[Run(hr)..];
      PrintedGroup("", hr, g, later);
      PrintGroup(hr, g, later);
      assert "" + GroupText(g) == GroupText(g);
      if later != [] {
        if GroupText(g) == "" {
          PrintedNotLonger(later);
        } else {
          PrintedAfterText(GroupText(g) + ",", later);
        }
      }
    }
  }

  lemma {:induction false} NoTextOnlyForNoName(hr: seq<Range>)
    requires hr != []
    ensures GroupText(hr[..Run(hr)]) == "" <==> hr[0].single && hr[0].prefix == ""
  {
    var g := hr[..Run(hr)];
    assert g[0] == hr[0];
    if hr[0].single {
      assert Run(hr) == 1 && !BracketNeeded(g);
    }
  }

  /** The text is the printed form unless the first of several ranges is the empty name. */
  lemma {:induction false} PrintedExactly(hr: seq<Range>)
    ensures Printed("", hr) == Print(hr) <==> !(|hr| > 1 && hr[0].single && hr[0].prefix == "")
  {
    if hr != [] {
      var g, later := hr[..Run(hr)], hr[Run(hr)..];
      PrintedGroup("", hr, g, later);
      PrintGroup(hr, g, later);
      NoTextOnlyForNoName(hr);
      FirstText(GroupText(g), Print(later), later);
    }
  }

  lemma {:induction false} FirstText(text: string, more: string, later: seq<Range>)
    requires more == Print(later)
    ensures var written := Printed(if later != [] && "" + text != "" then "" + text + "," else "" + text, later);
            written == text + (if later != [] then "," + more else "") <==> later == [] || text != ""
  {
    CommaBetween("", text, more);
    assert "" + text == text;
    if later != [] {
      if text == "" {
        PrintedNotLonger(later);
      } else {
        PrintedAfterText(text + ",", later);
        assert text + "," + more == text + ("," + more);
      }
    }
  }

  /** What hostlist_ranged_string has written of `whole`: `len` bytes, up to range `i`. */
  ghost predicate Written(buf: array<char>, n: nat, len: nat, whole: string, hr: seq<Range>, i: nat, done: string)
    reads buf
  {
    if len < n then |done| == len && Starts(buf, done) && i <= |hr| && whole == Printed(done, hr[i..]) else |whole| >= n
  }

  lemma {:induction false} NextGroup(hr: seq<Range>, i: nat, done: string, end: nat, text: string)
    requires i < |hr| && end == i + |Group(hr, i)| && text == done + GroupText(Group(hr, i))
    ensures end <= |hr|
    ensures Printed(done, hr[i..]) == Printed(if end < |hr| && text != "" then text + "," else text, hr[end..])
  {
    PrintedGroup(done, hr[i..], Group(hr, i), hr[end..]);
  }

  /** One turn of the loop of hostlist_ranged_string. */
  method PutGroup(hr: seq<Range>, n: nat, buf: array<char>, i0: nat, len0: nat, ghost whole: string, ghost done0: string)
    returns (i: nat, len: nat, ghost done: string)
    requires i0 < |hr| && len0 < n <= buf.Length
    requires Written(buf, n, len0, whole, hr, i0, done0)
    modifies buf
    ensures Written(buf, n, len, whole, hr, i, done) && (len < n ==> i > i0)
  {
    ghost var end := i0 + |Group(hr, i0)|;
    done := done0 + GroupText(Group(hr, i0));
    NextGroup(hr, i0, done0, end, done);
    var k;
    k, i := GetBracketed(buf, n, len0, hr, i0, done0);
    len := len0 + k;
    if len < n {
      assert i == end && |done| == len && Starts(buf, done);
      if len > 0 && i < |hr| {
        PutComma(buf, len, done);
        len := len + 1;
        done := done + ",";
      }
    }
  }

  method PutComma(buf: array<char>, len: nat, ghost done: string)
    requires len < buf.Length && |done| == len && Starts(buf, done)
    modifies buf
    ensures Starts(buf, done + ",")
  {
    buf[len] := ',';
    assert buf[..len + 1] == buf[..len] + ",";
  }

  /** hostlist_ranged_string: the whole text and a NUL, or -1 if the buffer is too small. */
  method RangedString(hr: seq<Range>, n: nat, buf: array<char>) returns (res: int)
    requires n <= buf.Length
    modifies buf
    ensures res == -1 <==> |Printed("", hr)| >= n
    ensures res != -1 ==> res == |Printed("", hr)| && Starts(buf, Printed("", hr)) && buf[res] == '\0'
    ensures res == -1 && n > 0 ==> buf[n - 1] == '\0'
  {
    var i: nat, len: nat := 0, 0;
    ghost var whole, done := Printed("", hr), "";
    assert hr[0..] == hr;
    while i < |hr| && len < n
      invariant Written(buf, n, len, whole, hr, i, done)
      decreases if len < n then 1 + |hr| - i else 0
    {
      i, len, done := PutGroup(hr, n, buf, i, len, whole, done);
    }
    if len >= n {
      res := -1;
      if n > 0 {
        buf[n - 1] := '\0';
      }
    } else {
      assert hr[i..] == [];
      buf[len] := '\0';
      assert buf[..len] == done;
      res := len;
    }
  }

  // ---- what is parsed ----

  lemma {:induction false} ListBounded(read: string -> Option<Range>, s: string, room: nat)
    requires forall x :: read(x).Some? ==> WellFormed(read(x).value)
    ensures var r := ParseList(read, s, room); r.Some? ==> AllWellFormed(r.value)
    decreases room
  {
    if room > 0 {
      var comma := IndexOf(s, ',', 0);
      if comma < |s| {
        ListBounded(read, s[comma + 1..], room - 1);
      }
    }
  }

  lemma {:induction false} SuffixBounded(hosts: seq<Host>, suffix: string)
    ensures AllWellFormed(WithSuffix(hosts, suffix))
  {
    if hosts != [] {
      SuffixBounded(hosts[1..], suffix);
    }
  }

  lemma {:induction false} ReaderBounded(prefix: string)
    ensures forall x :: Reader(prefix)(x).Some? ==> WellFormed(Reader(prefix)(x).value)
  {
  }

  ghost predicate SomeBounded(r: Option<seq<Range>>) {
    r.Some? ==> AllWellFormed(r.value)
  }

  lemma {:induction false} BracketBounded(prefix: string, inside: string, suffix: string)
    ensures SomeBounded(ParseBracket(prefix, inside, suffix))
  {
    ReaderBounded(prefix);
    ListBounded(Reader(prefix), inside, MAX_RANGES);
    var ranges := ParseList(Reader(prefix), inside, MAX_RANGES);
    if ranges.Some? {
      SuffixBounded(All(ranges.value), suffix);
    }
  }

  lemma {:induction false} PiecesBounded(tok: string, open: nat, close: nat)
    requires open < close < |tok| || close == |tok|
    ensures SomeBounded(ParsePieces(tok, open, close))
  {
    if close < |tok| {
      BracketBounded(tok[..open], tok[open + 1..close], tok[close + 1..]);
    } else {
      HostBounded(tok[..if |tok| < TOKEN_SIZE then |tok| else TOKEN_SIZE - 1]);
    }
  }

  lemma {:induction false} TokenBounded(tok: string)
    ensures SomeBounded(ParseToken(tok))
  {
    var open := IndexOf(tok, '[', 0);
    PiecesBounded(tok, open, if open < |tok| then IndexOf(tok, ']', open + 1) else |tok|);
  }

  lemma {:induction false} HostBounded(s: string)
    ensures AllWellFormed([HostToken(s)])
  {
    assert WellFormed(HostToken(s));
  }

  /** `s` parses as `pushed` followed by what `str` parses as. */
  ghost predicate Parsing(s: string, pushed: seq<Range>, str: string) {
    && (Parse(s).Some? <==> Parse(str).Some?)
    && (Parse(s).Some? ==> Parse(s).value == pushed + Parse(str).value)
  }

  lemma {:induction false} ParsingStep(s: string, pushed: seq<Range>, str: string, first: Option<seq<Range>>)
    requires Parsing(s, pushed, str) && str != "" && !IsSep(str[0]) && first == ParseToken(str[..TokenEnd(str, 0)])
    ensures first.None? ==> Parse(s).None?
    ensures first.Some? ==> Parsing(s, pushed + first.value, SkipSeps(str[TokenEnd(str, 0)..]))
  {
    ParseUnfolds(str);
    Joins(Parse(s), Parse(str), pushed, first, Parse(SkipSeps(str[TokenEnd(str, 0)..])));
  }

  lemma {:induction false} Joins(all: Option<seq<Range>>, here: Option<seq<Range>>, pushed: seq<Range>,
                                 first: Option<seq<Range>>, rest: Option<seq<Range>>)
    requires (all.Some? <==> here.Some?) && (all.Some? ==> all.value == pushed + here.value)
    requires here == if first.None? || rest.None? then None else Some(first.value + rest.value)
    ensures first.None? ==> all.None?
    ensures first.Some? ==> (all.Some? <==> rest.Some?) && (all.Some? ==> all.value == pushed + first.value + rest.value)
  {
    if first.Some? && rest.Some? {
      Assoc(pushed, first.value, rest.value);
    }
  }

  lemma {:induction false} ParseUnfolds(str: string)
    requires str != "" && !IsSep(str[0])
    ensures var first := ParseToken(str[..TokenEnd(str, 0)]);
            var rest := Parse(SkipSeps(str[TokenEnd(str, 0)..]));
            Parse(str) == if first.None? || rest.None? then None else Some(first.value + rest.value)
  {
    assert SkipSeps(str) == str;
  }

  /** Whether `s` is endless is known once `str` is left of it. */
  lemma {:induction false} EndlessStep(s: string, str: string, e: nat)
    requires str != "" && !IsSep(str[0]) && e == TokenEnd(str, 0) && e > 0 && (Endless(s) <==> Endless(str))
    ensures Endless(s) <==> EndlessToken(str[..e]) || (ParseToken(str[..e]).Some? && Endless(SkipSeps(str[e..])))
  {
    assert SkipSeps(str) == str;
  }

  /** hostlist_create.  It has no end exactly if a range that ends at ULONG_MAX is given a suffix.  Otherwise the
      list stands for the hosts of the text, in order, exactly if no push wraps. */
  method Create(s: string) returns (ok: bool, endless: bool, hl: HL.Hostlist)
    ensures endless <==> Endless(s)
    ensures !endless ==> (ok <==> Parse(s).Some?)
    ensures fresh(hl)
    ensures !endless && ok ==> (All(hl.hr) == All(Parse(s).value) <==> !WrapsIn([], Parse(s).value))
    ensures !endless && ok && !WrapsIn([], Parse(s).value) ==> hl.Valid()
    ensures !endless && ok ==> hl.hr == PushAll([], Parse(s).value)
  {
    hl := new HL.Hostlist();
    ok, endless := false, false;
    var str := SkipSeps(s);
    ghost var pushed: seq<Range> := [];
    assert Parsing(s, pushed, str) && (Endless(s) <==> Endless(str));
    while str != ""
      invariant fresh(hl) && hl.hr == PushAll([], pushed) && AllWellFormed(pushed)
      invariant !WrapsIn([], pushed) ==> hl.Valid()
      invariant (str != "" ==> !IsSep(str[0])) && Parsing(s, pushed, str) && (Endless(s) <==> Endless(str))
      decreases |str|
    {
      TokenNonempty(str);
      var e := TokenEnd(str, 0);
      EndlessStep(s, str, e);
      if EndlessToken(str[..e]) {
        endless := true;
        return;
      }
      var ranges := ParseToken(str[..e]);
      ParsingStep(s, pushed, str, ranges);
      if ranges.None? {
        return;
      }
      TokenBounded(str[..e]);
      WrapsInConcat([], pushed, ranges.value);
      PushList(hl, ranges.value);
      PushAllConcat([], pushed, ranges.value);
      pushed := pushed + ranges.value;
      str := SkipSeps(str[e..]);
    }
    assert pushed + [] == pushed;
    PushAllExactly([], pushed);
    assert All([]) + All(pushed) == All(pushed);
    ok := true;
  }

  /** _push_range_list. */
  method PushList(hl: HL.Hostlist, rs: seq<Range>)
    modifies hl
    ensures hl.hr == PushAll(old(hl.hr), rs)
    ensures old(hl.Valid()) && AllWellFormed(rs) && !WrapsIn(old(hl.hr), rs) ==> hl.Valid()
  {
    var i := 0;
    while i < |rs|
      invariant i <= |rs| && PushAll(old(hl.hr), rs) == PushAll(hl.hr, rs[i..])
      invariant old(hl.Valid()) && AllWellFormed(rs) && !WrapsIn(old(hl.hr), rs) ==> hl.Valid() && !WrapsIn(hl.hr, rs[i..])
    {
      assert rs[i..][0] == rs[i] && rs[i..][1..] == rs[i + 1..];
      assert AllWellFormed(rs) ==> WellFormed(rs[i]);
      hl.PushRange(rs[i]);
      i := i + 1;
    }
  }

  // ---- printing and parsing ----

  lemma {:induction false} NoNulInGroup(g: seq<Range>)
    requires forall r :: r in g ==> '\0' !in r.prefix
    ensures '\0' !in Listed(g) && (g != [] ==> '\0' !in GroupText(g))
  {
    if g != [] {
      NoNulInGroup(g[1..]);
    }
  }

  lemma {:induction false} NoNul(hr: seq<Range>)
    requires forall r :: r in hr ==> '\0' !in r.prefix
    ensures '\0' !in Print(hr)
    decreases |hr|
  {
    if hr != [] {
      var n := Run(hr);
      NoNulInGroup(hr[..n]);
      NoNul(hr[n..]);
    }
  }

  /** A C string: what is in the buffer before its first NUL. */
  method ReadString(buf: array<char>, ghost end: nat) returns (s: string)
    requires end < buf.Length && buf[end] == '\0'
    ensures |s| <= end && s == buf[..|s|] && '\0' !in s && buf[|s|] == '\0'
  {
    var k := 0;
    while buf[k] != '\0'
      invariant k <= end && '\0' !in buf[..k]
      decreases end - k
    {
      assert buf[..k + 1] == buf[..k] + [buf[k]];
      k := k + 1;
    }
    s := buf[..k];
  }

  /** Printing into a buffer that is large enough and creating a list from the text gives the same names exactly if
      no push wraps. */
  method PrintAndCreate(hr: seq<Range>, n: nat, buf: array<char>) returns (hl: HL.Hostlist)
    requires (forall r :: r in hr ==> RT.Writable(r) && '\0' !in r.prefix) && RT.Fits(hr)
    requires |Print(hr)| < n <= buf.Length
    modifies buf
    ensures fresh(hl) && Parse(Print(hr)).Some?
    ensures Names(All(hl.hr)) == Names(All(hr)) <==> !WrapsIn([], Parse(Print(hr)).value)
    ensures !WrapsIn([], Parse(Print(hr)).value) ==> hl.Valid()
  {
    assert hr != [] ==> hr[0] in hr;
    PrintedExactly(hr);
    var len := RangedString(hr, n, buf);
    NoNul(hr);
    var text := ReadString(buf, len);
    UpToNul(Print(hr), text, buf);
    RT.RoundTrip(hr);
    var ok, endless;
    ok, endless, hl := Create(text);
    if WrapsIn([], Parse(text).value) { PushAllFewer([], Parse(text).value); }
  }

  lemma {:induction false} UpToNul(t: string, s: string, buf: array<char>)
    requires Starts(buf, t) && '\0' !in t && |s| <= |t| && |s| < buf.Length && s == buf[..|s|] && buf[|s|] == '\0'
    ensures s == t
  {
    forall k | 0 <= k < |t| ensures buf[k] != '\0' {
      assert buf[k] == buf[..|t|][k] && t[k] in t;
    }
  }
}
