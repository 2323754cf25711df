/** Printing a hostlist and parsing the text gives back the same host names in the same order. */
module HostRoundTrip {
  import opened Common
  import opened HostRange
  import opened HostSeq
  import opened HostText

  /** No separator and no bracket. */
  predicate Clean(s: string) {
    forall c :: c in s ==> !IsSep(c) && c != '[' && c != ']'
  }

  predicate Writable(r: Range) {
    WellFormed(r) && Clean(r.prefix) && Count(r) <= MAX_RANGE && (r.single ==> r.prefix != "")
  }

  /** Each bracketed list and each plain name stays within the parser's limits. */
  predicate Fits(hr: seq<Range>)
    decreases |hr|
  {
    hr == [] ||
    var n := Run(hr);
    && n <= MAX_RANGES && Fits(hr[n..])
    && (BracketNeeded(hr[..n]) || |GroupText(hr[..n])| < TOKEN_SIZE)
  }

  // ---- numbers and ranges ----

  lemma {:induction false} LeadingAll(s: string)
    requires AllDigits(s)
    ensures LeadingDigits(s) == s
  {
    if s != "" {
      assert s[0] in s;
      LeadingAll(s[1..]);
    }
  }

  lemma {:induction false} NumReads(n: nat, w: nat)
    requires n <= ULONG_MAX
    ensures Strtoul(Num(n, w)) == (n, Len(n, w))
  {
    var s := Num(n, w);
    assert s[0] in s;
    LeadingAll(s);
    ValueOfPad(n, Len(n, w));
  }

  lemma {:induction false} IndexFound(s: string, c: char, from: nat, k: nat)
    requires from <= k <= |s| && c !in s[from..k] && (k < |s| ==> s[k] == c)
    ensures IndexOf(s, c, from) == k
    decreases k - from
  {
    if from < k {
      assert s[from] in s[from..k];
      assert s[from..k] == [s[from]] + s[from + 1..k];
      IndexFound(s, c, from + 1, k);
    }
  }

  lemma {:induction false} NoDash(n: nat, w: nat)
    ensures '-' !in Num(n, w) && ',' !in Num(n, w) && '[' !in Num(n, w) && ']' !in Num(n, w)
  {
  }

  lemma {:induction false} OneReads(prefix: string, s: string, lo: nat)
    requires '-' !in s && s != "" && Strtoul(s) == (lo, |s|)
    ensures ParseRange(prefix, s) == Some(Range(prefix, lo, lo, |s|, false))
  {
    assert s[0..|s|] == s == s[..|s|];
    IndexFound(s, '-', 0, |s|);
  }

  lemma {:induction false} TwoRead(prefix: string, first: string, second: string, lo: nat, hi: nat)
    requires '-' !in first && first != "" && Strtoul(first) == (lo, |first|)
    requires second != "" && second[0] != '-' && Strtoul(second) == (hi, |second|)
    requires lo <= hi && (hi - lo + 1) % (ULONG_MAX + 1) <= MAX_RANGE
    ensures ParseRange(prefix, first + "-" + second) == Some(Range(prefix, lo, hi, |first|, false))
  {
    var s := first + "-" + second;
    assert s[0..|first|] == first == s[..|first|];
    IndexFound(s, '-', 0, |first|);
    assert s[|first| + 1..] == second;
  }

  lemma {:induction false} TwoRefused(prefix: string, first: string, second: string, lo: nat, hi: nat)
    requires '-' !in first && first != "" && Strtoul(first) == (lo, |first|)
    requires second != "" && second[0] != '-' && Strtoul(second) == (hi, |second|)
    requires lo <= hi && (hi - lo + 1) % (ULONG_MAX + 1) > MAX_RANGE
    ensures ParseRange(prefix, first + "-" + second).None?
  {
    var s := first + "-" + second;
    assert s[0..|first|] == first == s[..|first|];
    IndexFound(s, '-', 0, |first|);
    assert s[|first| + 1..] == second;
  }

  lemma {:induction false} TwoNumbers(prefix: string, lo: nat, hi: nat)
    requires lo <= hi <= ULONG_MAX && (hi - lo + 1) % (ULONG_MAX + 1) <= MAX_RANGE
    ensures ParseRange(prefix, Num(lo, 1) + "-" + Num(hi, 1)) == Some(Range(prefix, lo, hi, Len(lo, 1), false))
  {
    var first, second := Num(lo, 1), Num(hi, 1);
    NumReads(lo, 1);
    NumReads(hi, 1);
    NoDash(lo, 1);
    NoDash(hi, 1);
    assert second[0] in second;
    TwoRead(prefix, first, second, lo, hi);
  }

  /** The range from 0 to ULONG_MAX passes the limit on the size: on unsigned long its size is 0. */
  lemma {:induction false} LimitPassed(prefix: string, r: Range)
    requires r == Range(prefix, 0, ULONG_MAX, 1, false)
    ensures ParseRange(prefix, Num(r.lo, 1) + "-" + Num(r.hi, 1)) == Some(r)
    ensures UCount(r) == 0 && Count(r) > MAX_RANGE
  {
    TwoNumbers(prefix, r.lo, r.hi);
  }

  lemma {:induction false} LimitIs(lo: nat, hi: nat, max: nat)
    requires lo <= hi <= max == ULONG_MAX
    ensures (hi - lo + 1) % (max + 1) <= MAX_RANGE <==> hi - lo + 1 <= 16384 || (lo == 0 && hi == max)
  {
  }

  lemma {:induction false} RefusedNumbers(prefix: string, lo: nat, hi: nat)
    requires lo <= hi <= ULONG_MAX && (hi - lo + 1) % (ULONG_MAX + 1) > MAX_RANGE
    ensures ParseRange(prefix, Num(lo, 1) + "-" + Num(hi, 1)).None?
  {
    var first, second := Num(lo, 1), Num(hi, 1);
    NumReads(lo, 1);
    NumReads(hi, 1);
    NoDash(lo, 1);
    NoDash(hi, 1);
    assert second[0] in second;
    TwoRefused(prefix, first, second, lo, hi);
  }

  /** A range of two numbers is accepted exactly if it has at most 16384 hosts, or is that one. */
  lemma {:induction false} LimitExactly(prefix: string, lo: nat, hi: nat, max: nat)
    requires lo <= hi <= max == ULONG_MAX
    ensures ParseRange(prefix, Num(lo, 1) + "-" + Num(hi, 1)).Some? <==> hi - lo + 1 <= 16384 || (lo == 0 && hi == max)
  {
    LimitIs(lo, hi, max);
    if (hi - lo + 1) % (max + 1) <= MAX_RANGE { TwoNumbers(prefix, lo, hi); } else { RefusedNumbers(prefix, lo, hi); }
  }

  lemma {:induction false} InLimit(lo: nat, hi: nat)
    requires lo <= hi && hi - lo + 1 <= MAX_RANGE
    ensures (hi - lo + 1) % (ULONG_MAX + 1) <= MAX_RANGE
  {
  }

  lemma {:induction false} RangeReads(prefix: string, r: Range)
    requires Writable(r) && !r.single && r.prefix == prefix
    ensures ParseRange(prefix, RangeText(r)) == Some(Canon(r))
  {
    var first, second := Num(r.lo, r.width), Num(r.hi, r.width);
    NumReads(r.lo, r.width);
    NumReads(r.hi, r.width);
    NoDash(r.lo, r.width);
    NoDash(r.hi, r.width);
    if r.lo < r.hi {
      assert second[0] in second;
      InLimit(r.lo, r.hi);
      TwoRead(prefix, first, second, r.lo, r.hi);
      assert RangeText(r) == first + "-" + second;
    } else {
      OneReads(prefix, first, r.lo);
      assert RangeText(r) == first;
    }
  }

  // ---- one bracketed list ----

  predicate OneList(prefix: string, g: seq<Range>) {
    forall k :: 0 <= k < |g| ==> Writable(g[k]) && !g[k].single && g[k].prefix == prefix
  }

  function Inside(g: seq<Range>): string
    requires g != []
  {
    Listed(g)[..|Listed(g)| - 1]
  }

  lemma {:induction false} InsideStep(g: seq<Range>)
    requires g != []
    ensures Inside(g) == RangeText(g[0]) + (if |g| > 1 then "," + Inside(g[1..]) else "")
  {
    if |g| == 1 {
      assert Listed(g[1..]) == "";
    }
  }

  /** The text of a list is read as the ranges of that list. */
  ghost predicate ReadsAs(read: string -> Option<Range>, s: string, room: nat, g: seq<Range>) {
    var r := ParseList(read, s, room);
    r.Some? && r.value == g
  }

  lemma {:induction false} ListCons(read: string -> Option<Range>, first: string, rest: string, room: nat, one: Range, more: seq<Range>)
    requires ',' !in first && room > 0 && read(first) == Some(one) && ReadsAs(read, rest, room - 1, more)
    ensures ReadsAs(read, first + "," + rest, room, [one] + more)
  {
    var s := first + "," + rest;
    assert s[0..|first|] == first == s[..|first|];
    IndexFound(s, ',', 0, |first|);
    assert s[|first| + 1..] == rest;
  }

  lemma {:induction false} ListEnd(read: string -> Option<Range>, s: string, room: nat, one: Range)
    requires ',' !in s && room > 0 && read(s) == Some(one)
    ensures ReadsAs(read, s, room, [one])
  {
    assert s[0..|s|] == s == s[..|s|];
    IndexFound(s, ',', 0, |s|);
  }

  function WithCommas(items: seq<string>): string
    requires items != []
  {
    if |items| == 1 then items[0] else items[0] + "," + WithCommas(items[1..])
  }

  lemma {:induction false} ItemsRead(read: string -> Option<Range>, items: seq<string>, g: seq<Range>, room: nat)
    requires 0 < |items| == |g| <= room
    requires forall k :: 0 <= k < |g| ==> ',' !in items[k] && read(items[k]) == Some(g[k])
    ensures ReadsAs(read, WithCommas(items), room, g)
  {
    if |g| > 1 {
      ItemsRead(read, items[1..], g[1..], room - 1);
      ListCons(read, items[0], WithCommas(items[1..]), room, g[0], g[1..]);
      assert g == [g[0]] + g[1..];
    } else {
      ListEnd(read, items[0], room, g[0]);
      assert g == [g[0]];
    }
  }

  function Texts(g: seq<Range>): (t: seq<string>)
    ensures |t| == |g| && forall k :: 0 <= k < |g| ==> t[k] == RangeText(g[k])
  {
    seq(|g|, k requires 0 <= k < |g| => RangeText(g[k]))
  }

  lemma {:induction false} InsideIsItems(g: seq<Range>)
    requires g != []
    ensures Inside(g) == WithCommas(Texts(g))
  {
    InsideStep(g);
    if |g| > 1 {
      assert Texts(g)[1..] == Texts(g[1..]);
      InsideIsItems(g[1..]);
    }
  }

  lemma {:induction false} ListReads(prefix: string, g: seq<Range>, room: nat)
    requires g != [] && OneList(prefix, g) && |g| <= room
    ensures ReadsAs(Reader(prefix), Inside(g), room, Canons(g))
  {
    InsideIsItems(g);
    var items, canons := Texts(g), Canons(g);
    forall k | 0 <= k < |g| ensures ',' !in items[k] && Reader(prefix)(items[k]) == Some(canons[k]) {
      RangeReads(prefix, g[k]);
      RangeChars(g[k]);
    }
    ItemsRead(Reader(prefix), items, canons, room);
  }

  lemma {:induction false} RangeChars(r: Range)
    ensures forall c :: c in RangeText(r) ==> IsDigit(c) || c == '-'
  {
  }

  lemma {:induction false} InsideChars(g: seq<Range>)
    requires g != []
    ensures forall c :: c in Inside(g) ==> IsDigit(c) || c == '-' || c == ','
  {
    InsideStep(g);
    RangeChars(g[0]);
    if |g| > 1 {
      InsideChars(g[1..]);
    }
  }

  lemma {:induction false} BracketReads(g: seq<Range>)
    requires g != [] && OneList(g[0].prefix, g) && BracketNeeded(g) && |g| <= MAX_RANGES
    ensures ParseToken(GroupText(g)) == Some(Canons(g)) && !EndlessToken(GroupText(g))
  {
    var tok, prefix, inside := GroupText(g), g[0].prefix, Inside(g);
    InsideChars(g);
    assert Clean(prefix);
    assert tok == prefix + "[" + inside + "]";
    ListReads(prefix, g, MAX_RANGES);
    BracketFound(tok, prefix, inside);
  }

  /** A token that is a bracketed list and nothing more. */
  lemma {:induction false} BracketFound(tok: string, prefix: string, inside: string)
    requires tok == prefix + "[" + inside + "]" && '[' !in prefix && ']' !in inside
    ensures ParseToken(tok) == ParseList(Reader(prefix), inside, MAX_RANGES) && !EndlessToken(tok)
  {
    assert tok == prefix + "[" + inside + "]" + "";
    SuffixFound(tok, prefix, inside, "");
  }

  /** A name given on its own is read as that name, whatever its trailing digits. */
  lemma {:induction false} HostReads(s: string)
    ensures All([HostToken(s)]) == Expand(HostToken(s)) && Names(Expand(HostToken(s))) == [s]
    ensures WellFormed(HostToken(s))
  {
    var r := HostToken(s);
    AllOne(r);
    if !r.single {
      SuffixReads(s);
    }
  }

  lemma {:induction false} SuffixReads(s: string)
    requires !HostToken(s).single
    ensures |Expand(HostToken(s))| == 1 && Name(Expand(HostToken(s))[0]) == s
  {
    var d := Suffix(s);
    var r := HostToken(s);
    PadOfValue(d);
    DigitsFit(d);
    assert Expand(r)[0] == Numbered(r.prefix, Value(d), |d|);
    assert s == s[..|s| - |d|] + d;
  }

  lemma {:induction false} DigitsFit(d: string)
    requires AllDigits(d) && d != ""
    ensures NDigits(Value(d)) <= |d|
  {
    if |d| > 1 {
      DigitsFit(d[..|d| - 1]);
    } else {
      assert d[..0] == "";
    }
  }

  // ---- tokens ----

  lemma {:induction false} SepFound(s: string, i: nat, k: nat)
    requires i <= k <= |s| && (k < |s| ==> IsSep(s[k])) && forall j :: i <= j < k ==> !IsSep(s[j])
    ensures NextSep(s, i) == k
    decreases k - i
  {
    if i < k {
      SepFound(s, i + 1, k);
    }
  }

  /** What follows a token in the text: nothing, or a separator. */
  predicate Stops(rest: string) {
    rest == "" || IsSep(rest[0])
  }

  lemma {:induction false} PlainEnds(text: string, rest: string)
    requires Clean(text) && Stops(rest)
    ensures TokenEnd(text + rest, 0) == |text|
  {
    var s := text + rest;
    forall j | 0 <= j < |text| ensures !IsSep(s[j]) {
      assert text[j] in text;
    }
    SepFound(s, 0, |text|);
    assert s[..|text|] == text;
  }

  /** `s` starts with the token `prefix[inside]`. */
  predicate Bracketed(s: string, prefix: string, inside: string, rest: string) {
    && s == prefix + "[" + inside + "]" + rest
    && Clean(prefix) && Stops(rest) && '[' !in inside && ']' !in inside
  }

  lemma {:induction false} BracketSep(s: string, prefix: string, inside: string, rest: string)
    requires Bracketed(s, prefix, inside, rest)
    ensures |prefix| < NextSep(s, 0) <= |prefix| + |inside| + 2
  {
    var n := |prefix| + |inside| + 2;
    var e := NextSep(s, 0);
    forall j | 0 <= j < |prefix| ensures !IsSep(s[j]) {
      assert s[j] == prefix[j] && prefix[j] in prefix;
    }
    assert s[|prefix|] == '[';
    if n < |s| { assert s[n] == rest[0]; }
  }

  /** A separator inside the brackets is skipped. */
  lemma {:induction false} BracketJumps(s: string, prefix: string, inside: string, rest: string, e: nat)
    requires Bracketed(s, prefix, inside, rest)
    requires |prefix| < e < |prefix| + |inside| + 2 && IsSep(s[e])
    ensures '[' in s[..e] && ']' !in s[..e]
    ensures IndexOf(s, ']', e) == |prefix| + |inside| + 1 && '[' !in s[e..|prefix| + |inside| + 1]
  {
    var close := |prefix| + |inside| + 1;
    assert s[close] == ']' && e < close && s[..e][|prefix|] == '[';
    assert s[..e] == prefix + "[" + inside[..e - |prefix| - 1];
    assert s[e..close] == inside[e - |prefix| - 1..];
    IndexFound(s, ']', e, close);
  }

  lemma {:induction false} BracketClosed(s: string, prefix: string, inside: string, rest: string)
    requires Bracketed(s, prefix, inside, rest)
    ensures TokenEnd(s, |prefix| + |inside| + 2) == |prefix| + |inside| + 2
    ensures ']' in s[..|prefix| + |inside| + 2]
  {
    var n := |prefix| + |inside| + 2;
    if n < |s| { assert s[n] == rest[0]; }
    assert s[..n][n - 1] == ']';
  }

  /** Commas inside brackets do not end a token. */
  lemma {:induction false} BracketEnds(s: string, prefix: string, inside: string, rest: string)
    requires Bracketed(s, prefix, inside, rest)
    ensures TokenEnd(s, 0) == |prefix| + |inside| + 2
  {
    var n := |prefix| + |inside| + 2;
    BracketSep(s, prefix, inside, rest);
    BracketClosed(s, prefix, inside, rest);
    if NextSep(s, 0) < n {
      BracketJumps(s, prefix, inside, rest, NextSep(s, 0));
    }
  }

  /** The ranges that follow the first in a bracketed list share its prefix. */
  lemma {:induction false} RunShares(hr: seq<Range>)
    requires hr != [] && (forall r :: r in hr ==> Writable(r)) && (hr[0].single ==> Run(hr) == 1)
    ensures !hr[0].single ==> OneList(hr[0].prefix, hr[..Run(hr)])
  {
    if |hr| > 1 && Within(hr[0], hr[1]) {
      RunShares(hr[1..]);
      assert hr[..Run(hr)] == [hr[0]] + hr[1..][..Run(hr[1..])];
    }
  }

  lemma {:induction false} SingleAlone(hr: seq<Range>)
    requires hr != [] && hr[0].single
    ensures Run(hr) == 1
  {
  }

  /** The first group of a list: its text is one token, read back as the same names. */
  lemma {:induction false} GroupReads(hr: seq<Range>, rest: string)
    requires hr != [] && (forall r :: r in hr ==> Writable(r)) && Fits(hr) && Stops(rest)
    ensures var g := hr[..Run(hr)];
            && TokenEnd(GroupText(g) + rest, 0) == |GroupText(g)| > 0 && !IsSep(GroupText(g)[0])
            && ParseToken(GroupText(g)).Some? && AllWellFormed(ParseToken(GroupText(g)).value)
            && Names(All(ParseToken(GroupText(g)).value)) == Names(All(g)) && !EndlessToken(GroupText(g))
  {
    var g := hr[..Run(hr)];
    assert Writable(hr[0]);
    if hr[0].single { SingleAlone(hr); }
    RunShares(hr);
    if BracketNeeded(g) {
      BracketGroup(g, rest);
    } else {
      assert g == [hr[0]];
      PlainGroup(hr[0], rest);
    }
  }

  lemma {:induction false} BracketGroup(g: seq<Range>, rest: string)
    requires g != [] && OneList(g[0].prefix, g) && BracketNeeded(g) && |g| <= MAX_RANGES && Stops(rest)
    ensures TokenEnd(GroupText(g) + rest, 0) == |GroupText(g)| > 0 && !IsSep(GroupText(g)[0])
    ensures ParseToken(GroupText(g)).Some? && AllWellFormed(ParseToken(GroupText(g)).value)
    ensures Names(All(ParseToken(GroupText(g)).value)) == Names(All(g)) && !EndlessToken(GroupText(g))
  {
    InsideChars(g);
    BracketEnds(GroupText(g) + rest, g[0].prefix, Inside(g), rest);
    BracketReads(g);
    assert forall r :: r in g ==> WellFormed(r);
    CanonsExpand(g);
    assert g[0].prefix != "" ==> g[0].prefix[0] in g[0].prefix;
    forall r | r in Canons(g) ensures WellFormed(r) {
      var k :| 0 <= k < |g| && Canons(g)[k] == r;
      assert WellFormed(g[k]);
    }
  }

  /** A name without brackets and separators is one token, read as that name. */
  lemma {:induction false} PlainReads(text: string, rest: string)
    requires Clean(text) && text != "" && |text| < TOKEN_SIZE && Stops(rest)
    ensures TokenEnd(text + rest, 0) == |text| && !IsSep(text[0])
    ensures ParseToken(text).Some? && AllWellFormed(ParseToken(text).value)
    ensures Names(All(ParseToken(text).value)) == [text] && !EndlessToken(text)
  {
    PlainEnds(text, rest);
    assert text[0] in text;
    assert text[0..|text|] == text == text[..|text|];
    IndexFound(text, '[', 0, |text|);
    HostReads(text);
  }

  lemma {:induction false} PlainGroup(r: Range, rest: string)
    requires Writable(r) && Count(r) == 1 && Stops(rest) && |GroupText([r])| < TOKEN_SIZE
    ensures TokenEnd(GroupText([r]) + rest, 0) == |GroupText([r])| > 0 && !IsSep(GroupText([r])[0])
    ensures ParseToken(GroupText([r])).Some? && AllWellFormed(ParseToken(GroupText([r])).value)
    ensures Names(All(ParseToken(GroupText([r])).value)) == Names(All([r])) && !EndlessToken(GroupText([r]))
  {
    var text := GroupText([r]);
    PlainText(r);
    PlainReads(text, rest);
    AllOne(r);
    assert Names(Expand(r)) == [text];
  }

  lemma {:induction false} PlainText(r: Range)
    requires Writable(r) && Count(r) == 1
    ensures Clean(GroupText([r])) && GroupText([r]) != ""
    ensures |Expand(r)| == 1 && Name(Expand(r)[0]) == GroupText([r])
  {
    RangeChars(r);
    if r.single { assert GroupText([r]) == r.prefix; }
  }

  // ---- a suffix after a range that ends at ULONG_MAX ----

  lemma {:induction false} TokenIsAll(s: string)
    requires ']' in s && forall c :: c in s ==> !IsSep(c)
    ensures TokenEnd(s, 0) == |s|
  {
    SepFound(s, 0, |s|);
    assert s[..|s|] == s;
  }

  lemma {:induction false} OneNumber(prefix: string, n: nat)
    requires n <= ULONG_MAX
    ensures ParseList(Reader(prefix), Num(n, 1), MAX_RANGES) == Some([Range(prefix, n, n, Len(n, 1), false)])
  {
    NumReads(n, 1);
    NoDash(n, 1);
    OneReads(prefix, Num(n, 1), n);
    ListEnd(Reader(prefix), Num(n, 1), MAX_RANGES, Range(prefix, n, n, Len(n, 1), false));
  }

  lemma {:induction false} SuffixFound(tok: string, prefix: string, inside: string, suffix: string)
    requires tok == prefix + "[" + inside + "]" + suffix && '[' !in prefix && ']' !in inside
    ensures ParseToken(tok) == ParseBracket(prefix, inside, suffix) && EndlessToken(tok) == EndlessBracket(prefix, inside, suffix)
  {
    var open, close := |prefix|, |prefix| + 1 + |inside|;
    assert tok[0..open] == prefix == tok[..open];
    IndexFound(tok, '[', 0, open);
    assert tok[open + 1..close] == inside && tok[close + 1..] == suffix;
    IndexFound(tok, ']', open + 1, close);
  }

  /** `n[18446744073709551615]x`, with any name before it and any after: the text parses, but the parser has no end. */
  lemma {:induction false} SuffixEndless(s: string, prefix: string, max: nat, suffix: string)
    requires max == ULONG_MAX && Clean(prefix) && Clean(suffix) && suffix != ""
    requires s == prefix + "[" + Num(max, 1) + "]" + suffix
    ensures Parse(s).Some? && Endless(s)
  {
    NoDash(max, 1);
    OneNumber(prefix, max);
    SuffixFound(s, prefix, Num(max, 1), suffix);
    NoSeps(s, prefix, Num(max, 1), suffix);
    TokenIsAll(s);
    WholeToken(s);
  }

  lemma {:induction false} NoSeps(s: string, prefix: string, digits: string, suffix: string)
    requires s == prefix + "[" + digits + "]" + suffix && Clean(prefix) && Clean(suffix) && AllDigits(digits)
    ensures s != "" && !IsSep(s[0]) && ']' in s && forall c :: c in s ==> !IsSep(c)
  {
    forall k | 0 <= k < |s| ensures !IsSep(s[k]) {
      var p, d := |prefix|, |digits|;
      if k < p {
        assert s[k] == prefix[k] && prefix[k] in prefix;
      } else if p < k <= p + d {
        assert s[k] == digits[k - p - 1] && digits[k - p - 1] in digits;
      } else if k > p + d + 1 {
        assert s[k] == suffix[k - p - d - 2] && suffix[k - p - d - 2] in suffix;
      }
    }
    assert s[|prefix| + 1 + |digits|] == ']';
  }

  lemma {:induction false} WholeToken(s: string)
    requires s != "" && !IsSep(s[0]) && TokenEnd(s, 0) == |s| && ParseToken(s).Some?
    ensures Parse(s) == Some(ParseToken(s).value) && (EndlessToken(s) ==> Endless(s))
  {
    assert SkipSeps(s) == s && s[..|s|] == s && s[|s|..] == "";
    assert Parse("") == Some([]);
    assert ParseToken(s).value + [] == ParseToken(s).value;
  }

  // ---- the whole text ----

  /** `s` is read as the hosts `names`. */
  ghost predicate NamesOf(s: string, names: seq<string>) {
    var r := Parse(s);
    r.Some? && AllWellFormed(r.value) && Names(All(r.value)) == names && !Endless(s)
  }

  lemma {:induction false} ParseStep(s: string, e: nat, first: seq<Range>, names: seq<string>, more: seq<string>)
    requires s != "" && !IsSep(s[0]) && e == TokenEnd(s, 0) && ParseToken(s[..e]) == Some(first)
    requires AllWellFormed(first) && Names(All(first)) == names && NamesOf(SkipSeps(s[e..]), more) && !EndlessToken(s[..e])
    ensures NamesOf(s, names + more)
  {
    assert SkipSeps(s) == s;
    var rest := Parse(SkipSeps(s[e..])).value;
    AllConcat(first, rest);
    NamesConcat(All(first), All(rest));
  }

  lemma {:induction false} PrintStep(hr: seq<Range>, text: string, rest: string)
    requires hr != [] && text == GroupText(hr[..Run(hr)])
    requires rest == if Run(hr) < |hr| then "," + Print(hr[Run(hr)..]) else ""
    ensures Print(hr) == text + rest && Stops(rest)
  {
  }

  lemma {:induction false} PrintStarts(hr: seq<Range>)
    requires hr != [] && (forall r :: r in hr ==> Writable(r)) && Fits(hr)
    ensures Print(hr) != "" && !IsSep(Print(hr)[0])
  {
    GroupReads(hr, "");
  }

  lemma {:induction false} NamesSplit(hr: seq<Range>, n: nat)
    requires n <= |hr|
    ensures Names(All(hr)) == Names(All(hr[..n])) + Names(All(hr[n..]))
  {
    assert hr == hr[..n] + hr[n..];
    AllConcat(hr[..n], hr[n..]);
    NamesConcat(All(hr[..n]), All(hr[n..]));
  }

  lemma {:induction false} GroupThenRest(hr: seq<Range>, names: seq<string>)
    requires hr != [] && (forall r :: r in hr ==> Writable(r)) && Fits(hr)
    requires NamesOf(Print(hr[Run(hr)..]), names)
    ensures NamesOf(Print(hr), Names(All(hr[..Run(hr)])) + names)
  {
    var g, later := hr[..Run(hr)], hr[Run(hr)..];
    var text, rest := GroupText(g), if later != [] then "," + Print(later) else "";
    PrintStep(hr, text, rest);
    GroupReads(hr, rest);
    if later != [] { PrintStarts(later); }
    assert SkipSeps(rest) == Print(later);
    var s := text + rest;
    assert s[..|text|] == text && s[|text|..] == rest && s[0] == text[0];
    ParseStep(s, |text|, ParseToken(text).value, Names(All(g)), names);
  }

  /** Parsing the printed form gives the same names in the same order, padding included. */
  lemma {:induction false} RoundTrip(hr: seq<Range>)
    requires (forall r :: r in hr ==> Writable(r)) && Fits(hr)
    ensures NamesOf(Print(hr), Names(All(hr)))
    decreases |hr|
  {
    if hr != [] {
      RoundTrip(hr[Run(hr)..]);
      GroupThenRest(hr, Names(All(hr[Run(hr)..])));
      NamesSplit(hr, Run(hr));
    }
  }

  // ---- names identify hosts ----

  predicate EndsInDigit(s: string) {
    s != "" && IsDigit(s[|s| - 1])
  }

  /** The split between prefix and number is where the trailing digits begin. */
  predicate Plain(h: Host) {
    match h
    case Named(name) => !EndsInDigit(name)
    case Numbered(prefix, num, len) => !EndsInDigit(prefix) && NDigits(num) <= len
  }

  lemma {:induction false} SuffixOf(prefix: string, d: string)
    requires !EndsInDigit(prefix) && AllDigits(d)
    ensures Suffix(prefix + d) == d
  {
    if d == "" {
      assert prefix + d == prefix;
    } else {
      var s := prefix + d;
      assert d[|d| - 1] in d && s[|s| - 1] == d[|d| - 1];
      assert s[..|s| - 1] == prefix + d[..|d| - 1];
      SuffixOf(prefix, d[..|d| - 1]);
    }
  }

  /** Plain hosts that differ have different names. */
  lemma {:induction false} NameInjective(a: Host, b: Host)
    requires Plain(a) && Plain(b) && Name(a) == Name(b)
    ensures a == b
  {
    var da, db := if a.Named? then "" else PadTo(a.num, a.len), if b.Named? then "" else PadTo(b.num, b.len);
    var pa, pb := if a.Named? then a.name else a.prefix, if b.Named? then b.name else b.prefix;
    assert Name(a) == pa + da && Name(b) == pb + db;
    SuffixOf(pa, da);
    SuffixOf(pb, db);
    assert pa == (pa + da)[..|pa + da| - |da|] && pb == (pb + db)[..|pb + db| - |db|];
    if a.Numbered? && b.Numbered? {
      ValueOfPad(a.num, a.len);
      ValueOfPad(b.num, b.len);
    }
  }

  /** A list without a host twice is a list without a name twice, if its hosts are plain. */
  lemma {:induction false} NamesDistinct(h: seq<Host>)
    ensures Distinct(h) && (forall x :: x in h ==> Plain(x)) ==> Distinct(Names(h))
  {
    if Distinct(h) && forall x :: x in h ==> Plain(x) {
      forall i, j | 0 <= i < j < |h| ensures Names(h)[i] != Names(h)[j] {
        assert h[i] in h && h[j] in h;
        if Name(h[i]) == Name(h[j]) { NameInjective(h[i], h[j]); }
      }
    }
  }

  // ---- a list and its text ----

  lemma {:induction false} TwoDigits()
    ensures Num(8, 2) == "08" && Num(10, 2) == "10" && Num(12, 2) == "12"
    ensures PadTo(8, 2) == "08" && PadTo(9, 2) == "09" && PadTo(10, 2) == "10" && PadTo(12, 2) == "12"
  {
    Padded(8, 0, 8);
    Padded(9, 0, 9);
    Padded(10, 1, 0);
    Padded(12, 1, 2);
    assert NDigits(8) == 1 && NDigits(10) == 2 && NDigits(12) == 2;
  }

  lemma {:induction false} Padded(n: nat, a: nat, b: nat)
    requires a < 10 && b < 10 && n == 10 * a + b
    ensures PadTo(n, 2) == [Digit(a), Digit(b)]
  {
    assert PadTo(a, 1) == PadTo(a / 10, 0) + [Digit(a)] == [Digit(a)];
  }

  /** Three ranges, and how they are printed. */
  lemma {:induction false} ExampleText(a: Range, b: Range, c: Range)
    requires a == Range("n", 8, 10, 2, false) && b == Range("n", 12, 12, 2, false) && c == Range("login", 0, 0, 0, true)
    ensures Print([a, b, c]) == "n[08-10,12],login"
  {
    TwoDigits();
    var hr := [a, b, c];
    assert hr[1..] == [b, c] && [b, c][1..] == [c] && hr[..2] == [a, b] && hr[2..] == [c];
    assert Run([b, c]) == 1 && Run(hr) == 2;
    ExampleGroup(a, b);
    ExampleName(c);
    assert Print(hr) == GroupText([a, b]) + ("," + Print([c]));
  }

  lemma {:induction false} ExampleGroup(a: Range, b: Range)
    requires a == Range("n", 8, 10, 2, false) && b == Range("n", 12, 12, 2, false)
    ensures GroupText([a, b]) == "n[08-10,12]"
  {
    TwoDigits();
    GroupOfTwo(a, b, "08-10", "12");
  }

  lemma {:induction false} GroupOfTwo(a: Range, b: Range, s: string, t: string)
    requires RangeText(a) == s && RangeText(b) == t
    ensures GroupText([a, b]) == a.prefix + "[" + (s + "," + t) + "]"
  {
    assert [a, b][1..] == [b] && [b][1..] == [];
    assert Listed([b]) == t + "," + Listed([]) == t + ",";
    assert Listed([a, b]) == s + "," + (t + ",") == s + "," + t + ",";
    assert (s + "," + t + ",")[..|s| + 1 + |t|] == s + "," + t;
  }

  lemma {:induction false} ExampleName(c: Range)
    requires c == Range("login", 0, 0, 0, true)
    ensures Print([c]) == "login"
  {
    assert [c][1..] == [] && [c][..1] == [c] && Run([c]) == 1;
    assert GroupText([c]) == "login" + "" == "login";
  }

  /** The text stands for these names. */
  lemma {:induction false} ExampleNames(a: Range, b: Range, c: Range)
    requires a == Range("n", 8, 10, 2, false) && b == Range("n", 12, 12, 2, false) && c == Range("login", 0, 0, 0, true)
    ensures NamesOf("n[08-10,12],login", ["n08", "n09", "n10", "n12", "login"])
  {
    ExampleText(a, b, c);
    ExampleHosts(a, b, c);
    RoundTrip([a, b, c]);
  }

  lemma {:induction false} ExampleHosts(a: Range, b: Range, c: Range)
    requires a == Range("n", 8, 10, 2, false) && b == Range("n", 12, 12, 2, false) && c == Range("login", 0, 0, 0, true)
    ensures Names(All([a, b, c])) == ["n08", "n09", "n10", "n12", "login"]
    ensures (forall r :: r in [a, b, c] ==> Writable(r)) && Fits([a, b, c])
  {
    ExampleFits(a, b, c);
    ExampleAll(a, b, c);
    TwoDigits();
    FiveNames(All([a, b, c]), "n");
    ExampleWritable(a, b, c);
  }

  lemma {:induction false} FiveNames(h: seq<Host>, n: string)
    requires |h| == 5 && n == "n" && h[0] == Numbered(n, 8, 2) && h[1] == Numbered(n, 9, 2) && h[2] == Numbered(n, 10, 2)
    requires h[3] == Numbered(n, 12, 2) && h[4] == Named("login")
    requires PadTo(8, 2) == "08" && PadTo(9, 2) == "09" && PadTo(10, 2) == "10" && PadTo(12, 2) == "12"
    ensures Names(h) == ["n08", "n09", "n10", "n12", "login"]
  {
    assert n + "08" == "n08" && n + "09" == "n09" && n + "10" == "n10" && n + "12" == "n12";
  }

  lemma {:induction false} ExampleWritable(a: Range, b: Range, c: Range)
    requires a == Range("n", 8, 10, 2, false) && b == Range("n", 12, 12, 2, false) && c == Range("login", 0, 0, 0, true)
    ensures forall r :: r in [a, b, c] ==> Writable(r)
  {
    assert Clean("n") && Clean("login");
    forall r | r in [a, b, c] ensures Writable(r) { assert r == a || r == b || r == c; }
  }

  lemma {:induction false} ExampleAll(a: Range, b: Range, c: Range)
    requires a == Range("n", 8, 10, 2, false) && b == Range("n", 12, 12, 2, false) && c == Range("login", 0, 0, 0, true)
    ensures All([a, b, c]) == [Numbered("n", 8, 2), Numbered("n", 9, 2), Numbered("n", 10, 2), Numbered("n", 12, 2), Named("login")]
  {
    assert NDigits(8) == 1 && NDigits(9) == 1 && NDigits(10) == 2 && NDigits(12) == 2;
    assert Expand(a) == [Numbered("n", 8, 2), Numbered("n", 9, 2), Numbered("n", 10, 2)];
    assert Expand(b) == [Numbered("n", 12, 2)] && Expand(c) == [Named("login")];
    assert [a, b, c] == [a] + ([b] + [c]);
    AllConcat([a], [b] + [c]);
    AllConcat([b], [c]);
    AllOne(a);
    AllOne(b);
    AllOne(c);
  }

  lemma {:induction false} ExampleFits(a: Range, b: Range, c: Range)
    requires a == Range("n", 8, 10, 2, false) && b == Range("n", 12, 12, 2, false) && c == Range("login", 0, 0, 0, true)
    ensures Fits([a, b, c])
  {
    var hr := [a, b, c];
    assert hr[1..] == [b, c] && [b, c][1..] == [c] && hr[..2] == [a, b] && hr[2..] == [c];
    assert Run([b, c]) == 1 && Run(hr) == 2;
    assert [c][1..] == [] && [c][..1] == [c] && Run([c]) == 1;
    assert GroupText([c]) == "login" + "" == "login";
    assert Fits([c]);
  }
}
