/**
  Host names as text: zero-padded numbers, the compressed form `prefix[1-3,5],other`, and the
  parser that reads it back.
*/
module HostText {
  import opened Common
  import opened HostRange
  import opened HostSeq

  const MAX_RANGE: nat := 16384
  const MAX_RANGES: nat := 10240
  const MAX_HOST_SUFFIX: nat := 0x200_0000
  const TOKEN_SIZE: nat := 1024

  // ---- numbers ----

  predicate IsDigit(c: char) {
    '0' <= c <= '9'
  }

  predicate AllDigits(s: string) {
    forall c :: c in s ==> IsDigit(c)
  }

  function Digit(d: nat): (c: char)
    requires d < 10
    ensures IsDigit(c)
  {
    '0' + d as char
  }

  function DigitValue(c: char): (d: nat)
    requires IsDigit(c)
    ensures d < 10 && Digit(d) == c
  {
    (c - '0') as nat
  }

  /** `n` in decimal with `len` digits. */
  function PadTo(n: nat, len: nat): (s: string)
    ensures |s| == len && AllDigits(s)
  {
    if len == 0 then "" else PadTo(n / 10, len - 1) + [Digit(n % 10)]
  }

  function Value(s: string): nat
    requires AllDigits(s)
  {
    if s == "" then 0 else assert s[|s| - 1] in s; 10 * Value(s[..|s| - 1]) + DigitValue(s[|s| - 1])
  }

  lemma {:induction false} ValueOfPad(n: nat, len: nat)
    requires NDigits(n) <= len || n == 0
    ensures Value(PadTo(n, len)) == n
  {
    if len > 0 {
      ValueOfPad(n / 10, len - 1);
      assert PadTo(n, len)[..len - 1] == PadTo(n / 10, len - 1);
    }
  }

  lemma {:induction false} PadOfValue(s: string)
    requires AllDigits(s)
    ensures PadTo(Value(s), |s|) == s
  {
    if s != "" {
      var rest, last := s[..|s| - 1], s[|s| - 1];
      assert last in s;
      PadOfValue(rest);
      assert Value(s) / 10 == Value(rest) && Value(s) % 10 == DigitValue(last);
      assert s == rest + [last];
    }
  }

  /** printf of `%0*lu`. */
  function Num(n: nat, w: nat): (s: string)
    ensures |s| == Len(n, w) && AllDigits(s)
  {
    PadTo(n, Len(n, w))
  }

  function Name(h: Host): string {
    match h
    case Named(name) => name
    case Numbered(prefix, num, len) => prefix + PadTo(num, len)
  }

  function Names(h: seq<Host>): (n: seq<string>)
    ensures |n| == |h| && forall k :: 0 <= k < |n| ==> n[k] == Name(h[k])
  {
    seq(|h|, k requires 0 <= k < |h| => Name(h[k]))
  }

  lemma {:induction false} NamesConcat(a: seq<Host>, b: seq<Host>)
    ensures Names(a + b) == Names(a) + Names(b)
  {
  }

  // ---- printing ----

  /** hostrange_numstr. */
  function RangeText(r: Range): string {
    if r.single then ""
    else Num(r.lo, r.width) + (if r.lo < r.hi then "-" + Num(r.hi, r.width) else "")
  }

  /** hostrange_within_range. */
  predicate Within(a: Range, b: Range) {
    PrefixCmp(a, b) == 0 && !a.single && !b.single
  }

  /** How many ranges go into the first bracketed list. */
  function Run(hr: seq<Range>): (n: nat)
    ensures n <= |hr| && (hr != [] ==> n > 0)
  {
    if |hr| > 1 && Within(hr[0], hr[1]) then 1 + Run(hr[1..]) else |hr[..if hr == [] then 0 else 1]|
  }

  predicate BracketNeeded(g: seq<Range>)
    requires g != []
  {
    UCount(g[0]) > 1 || |g| > 1
  }

  /** The ranges of a list, each followed by a comma. */
  function Listed(g: seq<Range>): string {
    if g == [] then "" else RangeText(g[0]) + "," + Listed(g[1..])
  }

  /** One bracketed list; the last comma becomes the bracket. */
  function GroupText(g: seq<Range>): string
    requires g != []
  {
    if BracketNeeded(g) then g[0].prefix + "[" + Listed(g)[..|Listed(g)| - 1] + "]"
    else g[0].prefix + RangeText(g[0])
  }

  /** What hostlist_ranged_string writes into a buffer that is large enough. */
  function Print(hr: seq<Range>): string
    decreases |hr|
  {
    if hr == [] then ""
    else
      var n := Run(hr);
      GroupText(hr[..n]) + (if n < |hr| then "," + Print(hr[n..]) else "")
  }

  // ---- parsing ----

  predicate IsSep(c: char) {
    c == '\t' || c == ',' || c == ' '
  }

  function IndexOf(s: string, c: char, from: nat): (i: nat)
    requires from <= |s|
    ensures from <= i <= |s| && c !in s[from..i] && (i < |s| ==> s[i] == c)
    decreases |s| - from
  {
    if from == |s| || s[from] == c then from else IndexOf(s, c, from + 1)
  }

  function SkipSeps(s: string): (t: string)
    ensures |t| <= |s| && (t != "" ==> !IsSep(t[0]))
  {
    if s != "" && IsSep(s[0]) then SkipSeps(s[1..]) else s
  }

  /** The next separator from `i` on, or the end. */
  function NextSep(s: string, i: nat): (j: nat)
    requires i <= |s|
    ensures i <= j <= |s| && (j < |s| ==> IsSep(s[j]))
    ensures forall k :: i <= k < j ==> !IsSep(s[k])
    decreases |s| - i
  {
    if i == |s| || IsSep(s[i]) then i else NextSep(s, i + 1)
  }

  /** Where a token ends that starts with `s`: separators inside brackets do not count. */
  function TokenEnd(s: string, from: nat): (e: nat)
    requires from <= |s|
    ensures from <= e <= |s|
    decreases |s| - from
  {
    var e := NextSep(s, from);
    if '[' in s[..e] && ']' !in s[..e] && IndexOf(s, ']', e) < |s| && '[' !in s[e..IndexOf(s, ']', e)] then
      TokenEnd(s, IndexOf(s, ']', e) + 1)
    else e
  }

  predicate IsSpace(c: char) {
    c == ' ' || '\t' <= c <= '\r'
  }

  function SkipSpaces(s: string): (t: string)
    ensures |t| <= |s|
  {
    if s != "" && IsSpace(s[0]) then SkipSpaces(s[1..]) else s
  }

  function LeadingDigits(s: string): (d: string)
    ensures |d| <= |s| && d == s[..|d|] && AllDigits(d)
  {
    if s != "" && IsDigit(s[0]) then [s[0]] + LeadingDigits(s[1..]) else ""
  }

  /** strtoul in base 10: the value and how many characters it took, none if there is no number. */
  function Strtoul(s: string): (r: (nat, nat))
    ensures r.0 <= ULONG_MAX && r.1 <= |s|
  {
    var t := SkipSpaces(s);
    var signed := t != "" && (t[0] == '-' || t[0] == '+');
    var u := if signed then t[1..] else t;
    var d := LeadingDigits(u);
    if d == "" then (0, 0)
    else
      var v := if Value(d) > ULONG_MAX then ULONG_MAX else Value(d);
      (if signed && t[0] == '-' && v != 0 && Value(d) <= ULONG_MAX then ULONG_MAX + 1 - v else v,
       |s| - |u| + |d|)
  }

  /** _parse_single_range, for a range of `prefix`. */
  function ParseRange(prefix: string, s: string): (r: Option<Range>)
    ensures r.Some? ==> !r.value.single && r.value.lo <= r.value.hi <= ULONG_MAX
    ensures r.Some? && r.value.hi - r.value.lo >= MAX_RANGE ==> r.value.lo == 0 && r.value.hi == ULONG_MAX
  {
    var dash := IndexOf(s, '-', 0);
    var first := s[..dash];
    var second := if dash < |s| then s[dash + 1..] else "";
    if second != "" && second[0] == '-' then None
    else
      var (lo, n) := Strtoul(first);
      if n == 0 then None
      else if second == "" then
        if n < |first| then None else Some(Range(prefix, lo, lo, |first|, false))
      else
        var (hi, m) := Strtoul(second);
        if m == 0 || m < |second| || lo > hi || (hi - lo + 1) % (ULONG_MAX + 1) > MAX_RANGE then None
        else Some(Range(prefix, lo, hi, |first|, false))
  }

  function Reader(prefix: string): string -> Option<Range> {
    s => ParseRange(prefix, s)
  }

  /** _parse_range_list with room for `room` ranges, each read by `read`. */
  function ParseList(read: string -> Option<Range>, s: string, room: nat): (r: Option<seq<Range>>)
    decreases room
  {
    if room == 0 then None
    else
      var comma := IndexOf(s, ',', 0);
      var one := read(s[..comma]);
      if one.None? then None
      else if comma == |s| then Some([one.value])
      else
        var rest := ParseList(read, s[comma + 1..], room - 1);
        if rest.None? then None else Some([one.value] + rest.value)
  }

  /** How many trailing digits `s` has. */
  function Suffix(s: string): (d: string)
    ensures |d| <= |s| && d == s[|s| - |d|..] && AllDigits(d)
    ensures |d| < |s| ==> !IsDigit(s[|s| - |d| - 1])
  {
    if s != "" && IsDigit(s[|s| - 1]) then Suffix(s[..|s| - 1]) + [s[|s| - 1]] else ""
  }

  /** hostlist_push_host: the range it pushes. */
  function HostToken(s: string): Range {
    var d := Suffix(s);
    if d != "" && Value(d) <= MAX_HOST_SUFFIX then
      Range(s[..|s| - |d|], Value(d), Value(d), |d|, false)
    else Range(s, 0, 0, 0, true)
  }

  /** _push_range_list_with_suffix, for the hosts of one range. */
  function WithSuffix(hosts: seq<Host>, suffix: string): seq<Range> {
    if hosts == [] then []
    else
      var name := Name(hosts[0]) + suffix;
      [Range(name[..if |name| < 4096 then |name| else 4095], 0, 0, 0, true)] + WithSuffix(hosts[1..], suffix)
  }

  /** The ranges of `prefix[inside]suffix`. */
  function ParseBracket(prefix: string, inside: string, suffix: string): (r: Option<seq<Range>>) {
    var ranges := ParseList(Reader(prefix), inside, MAX_RANGES);
    if ranges.None? then None
    else if suffix != "" then Some(WithSuffix(All(ranges.value), suffix))
    else ranges
  }

  /** The ranges of a token with its bracket at `open` and `close`, if it has both. */
  function ParsePieces(tok: string, open: nat, close: nat): (r: Option<seq<Range>>)
    requires open < close < |tok| || close == |tok|
  {
    if close < |tok| then ParseBracket(tok[..open], tok[open + 1..close], tok[close + 1..])
    else Some([HostToken(tok[..if |tok| < TOKEN_SIZE then |tok| else TOKEN_SIZE - 1])])
  }

  /** The ranges one token stands for. */
  function ParseToken(tok: string): (r: Option<seq<Range>>) {
    var open := IndexOf(tok, '[', 0);
    ParsePieces(tok, open, if open < |tok| then IndexOf(tok, ']', open + 1) else |tok|)
  }

  /** A range that ends at ULONG_MAX is given a suffix: the loop over its hosts, which counts on an unsigned
      long, then has no end. */
  predicate EndlessBracket(prefix: string, inside: string, suffix: string) {
    var ranges := ParseList(Reader(prefix), inside, MAX_RANGES);
    suffix != "" && ranges.Some? && exists k :: 0 <= k < |ranges.value| && ranges.value[k].hi == ULONG_MAX
  }

  predicate EndlessPieces(tok: string, open: nat, close: nat)
    requires open < close < |tok| || close == |tok|
  {
    close < |tok| && EndlessBracket(tok[..open], tok[open + 1..close], tok[close + 1..])
  }

  predicate EndlessToken(tok: string) {
    var open := IndexOf(tok, '[', 0);
    EndlessPieces(tok, open, if open < |tok| then IndexOf(tok, ']', open + 1) else |tok|)
  }

  /** The parser comes to such a token. */
  predicate Endless(s: string)
    decreases |s|
  {
    var t := SkipSeps(s);
    t != "" &&
    (TokenNonempty(t);
     var e := TokenEnd(t, 0);
     EndlessToken(t[..e]) || (ParseToken(t[..e]).Some? && Endless(SkipSeps(t[e..]))))
  }

  /** The ranges _hostlist_create_bracketed pushes, in order. */
  function Parse(s: string): (r: Option<seq<Range>>)
    decreases |s|
  {
    var t := SkipSeps(s);
    if t == "" then Some([])
    else
      TokenNonempty(t);
      var e := TokenEnd(t, 0);
      var first := ParseToken(t[..e]);
      if first.None? then None
      else
        var rest := Parse(SkipSeps(t[e..]));
        if rest.None? then None else Some(first.value + rest.value)
  }

  lemma {:induction false} TokenNonempty(t: string)
    requires t != "" && !IsSep(t[0])
    ensures TokenEnd(t, 0) > 0
  {
  }
}
