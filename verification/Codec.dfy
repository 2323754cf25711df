/** Whole messages: what the builders write, what np_deserialize reads, and how the two fit. */
module Codec {
  import opened Common
  import opened Wire
  import opened Messages

  const NOTAG: nat := 0xFFFF
  const HEADER: nat := 7

  /** The fields of a message with their values. */
  datatype Vals = NoMore | V(name: Label, val: Val, rest: Vals)

  datatype Msg = Msg(mtype: Type, tag: nat, vals: Vals)

  /** The values are for these fields, and each fits its field. */
  predicate Carries(f: Fields, v: Vals) {
    match f
    case End => v.NoMore?
    case F(name, kind, rest) => v.V? && v.name == name && Fits(kind, v.val) && Carries(rest, v.rest)
  }

  function PutAll(f: Fields, v: Vals): seq<byte>
    requires Carries(f, v)
  {
    if f.End? then [] else Put(f.kind, v.val) + PutAll(f.rest, v.rest)
  }

  function GetAll(f: Fields, b: seq<byte>): (r: Got<Vals>)
    ensures r.Got? ==> r.used <= |b|
  {
    if f.End? then Got(NoMore, 0)
    else
      var x := Get(f.kind, b);
      if x.Nothing? then Nothing
      else
        var more := GetAll(f.rest, b[x.used..]);
        if more.Nothing? then Nothing else Got(V(f.name, x.v, more.v), x.used + more.used)
  }

  lemma {:induction false} AllRead(f: Fields, v: Vals, b: seq<byte>)
    requires Carries(f, v) && PutAll(f, v) <= b
    ensures GetAll(f, b) == Got(v, |PutAll(f, v)|)
    decreases f
  {
    if f.F? {
      var first, more := Put(f.kind, v.val), PutAll(f.rest, v.rest);
      Prefixes(first, more, b);
      FieldReads(b, f.kind, v.val);
      AllRead(f.rest, v.rest, b[|first|..]);
    }
  }

  lemma {:induction false} Prefixes(a: seq<byte>, c: seq<byte>, b: seq<byte>)
    requires a + c <= b
    ensures a <= b && c <= b[|a|..]
  {
    assert b[..|a|] == (a + c)[..|a|] == a;
    assert b[|a|..][..|c|] == (a + c)[|a|..] == c;
  }

  lemma {:induction false} AllAre(f: Fields, b: seq<byte>)
    requires GetAll(f, b).Got?
    ensures Carries(f, GetAll(f, b).v) && b[..GetAll(f, b).used] == PutAll(f, GetAll(f, b).v)
    decreases f
  {
    if f.F? {
      FieldIs(f.kind, b);
      var n := Get(f.kind, b).used;
      AllAre(f.rest, b[n..]);
      var m := GetAll(f.rest, b[n..]).used;
      Slices(b, n, m);
    }
  }

  lemma {:induction false} Slices(b: seq<byte>, n: nat, m: nat)
    requires n + m <= |b|
    ensures b[..n + m] == b[..n] + b[n..][..m]
  {
  }

  // ---- messages ----

  predicate Valid(m: Msg) {
    && Known(m.mtype) && m.tag < Pow256(2) && Carries(Created(m.mtype), m.vals)
    && HEADER + |PutAll(Created(m.mtype), m.vals)| < INT_LIMIT
  }

  function Body(m: Msg): seq<byte>
    requires Carries(Created(m.mtype), m.vals)
  {
    PutAll(Created(m.mtype), m.vals)
  }

  /** The header of a message whose packet has `size` bytes. */
  function Header(size: nat, code: nat, tag: nat): (h: seq<byte>)
    ensures |h| == HEADER
  {
    LE(size, 4) + LE(code, 1) + LE(tag, 2)
  }

  /** The packet of a message. */
  function Encode(m: Msg): seq<byte>
    requires Valid(m)
  {
    Header(HEADER + |Body(m)|, Code(m.mtype), m.tag) + Body(m)
  }

  /** np_peek_size. */
  function PeekSize(b: seq<byte>): nat {
    if |b| >= 4 then FromLE(b[..4]) else 0
  }

  /** np_deserialize: the size field bounds what is read, as a C int. */
  function Decode(pkt: seq<byte>): (r: Option<Msg>)
    requires PeekSize(pkt) <= |pkt|
  {
    var size := PeekSize(pkt);
    if size < HEADER || size - 4 >= INT_LIMIT then None
    else
      var t := FromCode(FromLE(pkt[4..5]));
      if t.None? then None
      else
        var g := GetAll(Expected(t.value), pkt[HEADER..size]);
        if g.Nothing? then None else Some(Msg(t.value, FromLE(pkt[5..7]), g.v))
  }

  lemma {:induction false} HeaderReads(pkt: seq<byte>, size: nat, code: nat, tag: nat)
    requires size < Pow256(4) && code < Pow256(1) && tag < Pow256(2) && Header(size, code, tag) <= pkt
    ensures PeekSize(pkt) == size && FromLE(pkt[4..5]) == code && FromLE(pkt[5..7]) == tag
  {
    var a, b, c := LE(size, 4), LE(code, 1), LE(tag, 2);
    assert pkt[..4] == a && pkt[4..5] == b && pkt[5..7] == c;
    LERead(size, 4);
    LERead(code, 1);
    LERead(tag, 2);
  }

  lemma {:induction false} HeaderIs(pkt: seq<byte>)
    requires |pkt| >= HEADER
    ensures pkt[..HEADER] == Header(PeekSize(pkt), FromLE(pkt[4..5]), FromLE(pkt[5..7]))
    ensures PeekSize(pkt) < Pow256(4) && FromLE(pkt[4..5]) < Pow256(1) && FromLE(pkt[5..7]) < Pow256(2)
  {
    LEWrite(pkt[..4]);
    LEWrite(pkt[4..5]);
    LEWrite(pkt[5..7]);
    FromLEBound(pkt[..4]);
    FromLEBound(pkt[4..5]);
    FromLEBound(pkt[5..7]);
    assert pkt[..HEADER] == pkt[..4] + pkt[4..5] + pkt[5..7];
  }

  /** The packet starts, within its size, with the encoding of `m`. */
  ghost predicate BeginsWith(pkt: seq<byte>, m: Msg) {
    && Known(m.mtype) && m.tag < Pow256(2) && Carries(Created(m.mtype), m.vals)
    && |pkt| >= HEADER && PeekSize(pkt) - 4 < INT_LIMIT
    && HEADER + |Body(m)| <= PeekSize(pkt) <= |pkt|
    && pkt[4..HEADER + |Body(m)|] == LE(Code(m.mtype), 1) + LE(m.tag, 2) + Body(m)
  }

  /** np_deserialize succeeds exactly when the packet begins with the full encoding of a message
      of a known type, and that message is what it returns. */
  lemma {:induction false} DecodesWhatBegins(pkt: seq<byte>, m: Msg)
    requires PeekSize(pkt) <= |pkt|
    ensures Decode(pkt) == Some(m) <==> BeginsWith(pkt, m)
  {
    if Decode(pkt) == Some(m) {
      DecodedBegins(pkt, m);
    }
    if BeginsWith(pkt, m) {
      BeginsDecodes(pkt, m);
    }
  }

  /** The parts of a packet: type, tag and body. */
  lemma {:induction false} Parts(pkt: seq<byte>, size: nat, n: nat)
    requires HEADER + n <= size <= |pkt|
    ensures pkt[4..HEADER + n] == pkt[4..5] + pkt[5..7] + pkt[HEADER..size][..n]
  {
  }

  lemma {:induction false} PartsAre(pkt: seq<byte>, size: nat, c: seq<byte>, t: seq<byte>, body: seq<byte>)
    requires |c| == 1 && |t| == 2 && HEADER + |body| <= size <= |pkt| && pkt[4..HEADER + |body|] == c + t + body
    ensures pkt[4..5] == c && pkt[5..7] == t && body <= pkt[HEADER..size]
  {
    Parts(pkt, size, |body|);
    var q := c + t + body;
    assert q[..1] == c && q[1..3] == t && q[3..] == body;
    assert pkt[HEADER..size][..|body|] == body;
  }

  lemma {:induction false} DecodedBegins(pkt: seq<byte>, m: Msg)
    requires PeekSize(pkt) <= |pkt| && Decode(pkt) == Some(m)
    ensures BeginsWith(pkt, m)
  {
    var size := PeekSize(pkt);
    var code, b := FromLE(pkt[4..5]), pkt[HEADER..size];
    HeaderIs(pkt);
    CodeIs(code);
    TablesAgree(m.mtype);
    AllAre(Created(m.mtype), b);
    LEWrite(pkt[4..5]);
    LEWrite(pkt[5..7]);
    Parts(pkt, size, |Body(m)|);
  }

  lemma {:induction false} BeginsDecodes(pkt: seq<byte>, m: Msg)
    requires BeginsWith(pkt, m)
    ensures Decode(pkt) == Some(m)
  {
    var size, body := PeekSize(pkt), Body(m);
    PartsAre(pkt, size, LE(Code(m.mtype), 1), LE(m.tag, 2), body);
    LERead(Code(m.mtype), 1);
    LERead(m.tag, 2);
    CodeReads(m.mtype);
    TablesAgree(m.mtype);
    AllRead(Created(m.mtype), m.vals, pkt[HEADER..size]);
  }

  // ---- what follows for built messages ----

  lemma {:induction false} EncodedBegins(m: Msg, pkt: seq<byte>)
    requires Valid(m) && Encode(m) <= pkt
    ensures BeginsWith(pkt, m) && PeekSize(pkt) == |Encode(m)|
  {
    var body, size := Body(m), HEADER + |Body(m)|;
    var h := Header(size, Code(m.mtype), m.tag);
    Prefixes(h, body, pkt);
    SmallSize(size);
    HeaderReads(pkt, size, Code(m.mtype), m.tag);
    assert pkt[..size] == h + body;
    assert (h + body)[4..] == h[4..] + body;
    assert h[4..] == LE(Code(m.mtype), 1) + LE(m.tag, 2);
  }

  lemma {:induction false} SmallSize(n: nat)
    requires n < INT_LIMIT
    ensures n < Pow256(4)
  {
    assert Pow256(4) == 0x1_0000_0000;
  }

  /** Decoding a built message gives it back: type, tag and every field. */
  lemma {:induction false} RoundTrip(m: Msg)
    requires Valid(m)
    ensures PeekSize(Encode(m)) == |Encode(m)| && Decode(Encode(m)) == Some(m)
  {
    EncodedBegins(m, Encode(m));
    BeginsDecodes(Encode(m), m);
  }

  /** The first `k` bytes of a packet, with a size field that says so. */
  function Truncated(pkt: seq<byte>, k: nat): seq<byte>
    requires 4 <= k <= |pkt|
  {
    LE(k, 4) + pkt[4..k]
  }

  lemma {:induction false} CutSize(full: seq<byte>, k: nat)
    requires 4 <= k <= |full| < INT_LIMIT
    ensures PeekSize(Truncated(full, k)) == k == |Truncated(full, k)|
  {
    SmallSize(k);
    LERead(k, 4);
    assert Truncated(full, k)[..4] == LE(k, 4);
  }

  /** A truncation that is accepted holds the whole message. */
  lemma {:induction false} CutHoldsAll(m: Msg, full: seq<byte>, cut: seq<byte>, k: nat)
    requires Valid(m) && full == Encode(m) && 4 <= k <= |full| && cut == Truncated(full, k)
    requires PeekSize(cut) == k == |cut| && Decode(cut).Some?
    ensures |full| <= k
  {
    var d := Decode(cut).value;
    DecodedBegins(cut, d);
    EncodedBegins(m, full);
    SameBeginning(full, cut, d, k);
    BeginsDecodes(full, m);
  }

  /** No proper truncation of a built message is accepted. */
  lemma {:induction false} TruncationRejected(m: Msg, k: nat)
    requires Valid(m) && 4 <= k < |Encode(m)|
    ensures PeekSize(Truncated(Encode(m), k)) == k && Decode(Truncated(Encode(m), k)) == None
  {
    CutSize(Encode(m), k);
    if Decode(Truncated(Encode(m), k)).Some? {
      CutHoldsAll(m, Encode(m), Truncated(Encode(m), k), k);
    }
  }

  lemma {:induction false} SameBeginning(full: seq<byte>, cut: seq<byte>, m: Msg, k: nat)
    requires 4 <= k <= |full| && cut == Truncated(full, k) && BeginsWith(cut, m)
    requires PeekSize(full) == |full| && |full| < INT_LIMIT
    ensures Decode(full) == Some(m) && HEADER + |Body(m)| <= k
  {
    var n := HEADER + |Body(m)|;
    assert cut[4..] == full[4..k];
    assert cut[4..n] == cut[4..][..n - 4] == full[4..n];
    BeginsDecodes(full, m);
  }

  // ---- packets that are changed after they are built ----

  /** np_set_tag. */
  function WithTag(pkt: seq<byte>, tag: nat): (r: seq<byte>)
    requires |pkt| >= HEADER
  {
    pkt[5 := tag % 256][6 := tag / 256 % 256]
  }

  /** Setting the tag of a packet gives the packet of the message with that tag. */
  lemma {:induction false} TagSet(m: Msg, tag: nat)
    requires Valid(m) && tag < Pow256(2)
    ensures WithTag(Encode(m), tag) == Encode(m.(tag := tag))
  {
    TwoBytes(tag);
    TwoBytes(m.tag);
    var a, c := LE(HEADER + |Body(m)|, 4), LE(Code(m.mtype), 1);
    TagBytes(a, c, m.tag, tag, Body(m));
  }

  lemma {:induction false} TwoBytes(n: nat)
    ensures LE(n, 2) == [n % 256, n / 256 % 256]
  {
    assert LE(n / 256, 1) == [n / 256 % 256] + LE(n / 256 / 256, 0);
  }

  lemma {:induction false} TagBytes(a: seq<byte>, c: seq<byte>, was: nat, tag: nat, body: seq<byte>)
    requires |a| == 4 && |c| == 1
    ensures WithTag(a + c + [was % 256, was / 256 % 256] + body, tag) == a + c + [tag % 256, tag / 256 % 256] + body
  {
  }

  /** np_set_rread_count and np_finalize_rreaddir: a new size and a new count, in place. */
  function WithCount(pkt: seq<byte>, count: nat): (r: seq<byte>)
    requires |pkt| >= 11
  {
    LE(11 + count, 4) + pkt[4..7] + LE(count, 4) + pkt[11..]
  }

  function DataMsg(o: Op, tag: nat, d: seq<byte>): Msg {
    Msg(R(o), tag, V(Payload, Bytes(d), NoMore))
  }

  predicate DataOp(o: Op) {
    o.Read? || o.Readdir?
  }

  lemma {:induction false} DataPacket(o: Op, tag: nat, d: seq<byte>)
    requires DataOp(o) && Valid(DataMsg(o, tag, d))
    ensures Encode(DataMsg(o, tag, d)) == LE(11 + |d|, 4) + LE(Code(R(o)), 1) + LE(tag, 2) + LE(|d|, 4) + d
  {
    var m := DataMsg(o, tag, d);
    assert Created(m.mtype) == F(Payload, Data, End);
    assert Body(m) == Put(Data, Bytes(d)) + PutAll(End, NoMore);
    assert Body(m) == LE(|d|, 4) + d;
    DataConcat(LE(11 + |d|, 4), LE(Code(R(o)), 1), LE(tag, 2), LE(|d|, 4), d);
  }

  lemma {:induction false} DataConcat(s: seq<byte>, c: seq<byte>, t: seq<byte>, n: seq<byte>, d: seq<byte>)
    ensures s + c + t + (n + d) == s + c + t + n + d
  {
  }

  lemma {:induction false} CountBytes(c: seq<byte>, t: seq<byte>, d: seq<byte>, k: nat, n: seq<byte>, s: seq<byte>)
    requires |c| == 1 && |t| == 2 && |n| == 4 && |s| == 4 && k <= |d|
    ensures LE(11 + k, 4) + c + t + LE(k, 4) + d[..k] <= WithCount(s + c + t + n + d, k)
  {
    var pkt := s + c + t + n + d;
    assert pkt[4..7] == c + t && pkt[11..] == d;
    assert WithCount(pkt, k) == LE(11 + k, 4) + c + t + LE(k, 4) + d[..k] + d[k..];
  }

  /** Shrinking the count of a data packet makes it decode to that prefix of the data. */
  lemma {:induction false} CountSet(o: Op, tag: nat, d: seq<byte>, k: nat)
    requires DataOp(o) && Valid(DataMsg(o, tag, d)) && k <= |d|
    ensures Valid(DataMsg(o, tag, d[..k])) && Encode(DataMsg(o, tag, d[..k])) <= WithCount(Encode(DataMsg(o, tag, d)), k)
    ensures PeekSize(WithCount(Encode(DataMsg(o, tag, d)), k)) == 11 + k
    ensures Decode(WithCount(Encode(DataMsg(o, tag, d)), k)) == Some(DataMsg(o, tag, d[..k]))
  {
    var m := DataMsg(o, tag, d[..k]);
    DataPacket(o, tag, d);
    ShortValid(o, tag, d, k);
    DataPacket(o, tag, d[..k]);
    CountBytes(LE(Code(R(o)), 1), LE(tag, 2), d, k, LE(|d|, 4), LE(11 + |d|, 4));
    var pkt := WithCount(Encode(DataMsg(o, tag, d)), k);
    EncodedBegins(m, pkt);
    BeginsDecodes(pkt, m);
  }

  lemma {:induction false} ShortValid(o: Op, tag: nat, d: seq<byte>, k: nat)
    requires DataOp(o) && Valid(DataMsg(o, tag, d)) && k <= |d|
    ensures Valid(DataMsg(o, tag, d[..k]))
  {
    assert Created(R(o)) == F(Payload, Data, End);
    assert PutAll(End, NoMore) == [];
  }

  // ---- the size a builder asks for ----

  function StrsLength(ss: seq<seq<byte>>): nat {
    if ss == [] then 0 else 2 + |ss[0]| + StrsLength(ss[1..])
  }

  /** The part of a field's length that depends on its value. */
  function Length(v: Val): nat {
    match v
    case Bytes(b) => |b|
    case Strs(ss) => StrsLength(ss)
    case QidSeq(qs) => 13 * |qs|
    case _ => 0
  }

  /** The lengths of the fields that are named in `l`, in order. */
  function Lengths(l: Labels, v: Vals): nat {
    if v.NoMore? || l.Nil? then 0
    else if v.name == l.head && (v.val.Bytes? || v.val.Strs? || v.val.QidSeq?) then Length(v.val) + Lengths(l.tail, v.rest)
    else Lengths(l, v.rest)
  }

  /** The size expression of a builder. */
  function SizeOf(t: Type, vals: Vals): nat {
    Allotted(t).fixed + Lengths(Allotted(t).variable, vals)
  }

  lemma {:induction false} StrsSize(ss: seq<seq<byte>>)
    ensures |PutStrs(ss)| == StrsLength(ss)
  {
    if ss != [] { StrsSize(ss[1..]); }
  }

  lemma {:induction false} QidsSize(qs: seq<QidVal>)
    ensures |PutQids(qs)| == 13 * |qs|
  {
    if qs != [] { QidsSize(qs[1..]); }
  }

  lemma {:induction false} FieldSize(k: Kind, v: Val)
    requires Fits(k, v)
    ensures |Put(k, v)| == Base(k) + Length(v)
  {
    match k
    case Names => StrsSize(v.ss);
    case Qids => QidsSize(v.qs);
    case _ =>
  }

  lemma {:induction false} AllSize(f: Fields, v: Vals)
    requires Carries(f, v)
    ensures |PutAll(f, v)| == Fixed(f) + Lengths(Variable(f), v)
    decreases f
  {
    if f.F? {
      FieldSize(f.kind, v.val);
      AllSize(f.rest, v.rest);
    }
  }

  /** The builders compute exactly the size they fill. */
  lemma {:induction false} SizeIs(t: Type, vals: Vals)
    requires Carries(Created(t), vals)
    ensures SizeOf(t, vals) == |PutAll(Created(t), vals)|
  {
    RoomAgrees(t);
    AllSize(Created(t), vals);
  }

  // ---- views ----

  /** `s` is a stretch of `b`. */
  ghost predicate ViewOf(s: seq<byte>, b: seq<byte>) {
    exists i: nat :: StartsAt(s, b, i)
  }

  ghost predicate StartsAt(s: seq<byte>, b: seq<byte>, i: nat) {
    i + |s| <= |b| && b[i..i + |s|] == s
  }

  /** Every string and all data are stretches of `b`. */
  ghost predicate Views(v: Vals, b: seq<byte>) {
    v.V? ==>
      && (v.val.Bytes? ==> ViewOf(v.val.b, b))
      && (v.val.Strs? ==> forall i :: 0 <= i < |v.val.ss| ==> ViewOf(v.val.ss[i], b))
      && Views(v.rest, b)
  }

  lemma {:induction false} ViewAt(s: seq<byte>, b: seq<byte>, i: nat)
    requires i + |s| <= |b| && b[i..i + |s|] == s
    ensures ViewOf(s, b)
  {
    assert StartsAt(s, b, i);
  }

  lemma {:induction false} SliceOfSlice(b: seq<byte>, lo: nat, hi: nat, i: nat, j: nat)
    requires lo <= hi <= |b| && i <= j <= hi - lo
    ensures b[lo..hi][i..j] == b[lo + i..lo + j]
  {
    var p, q := b[lo..hi][i..j], b[lo + i..lo + j];
    assert forall k :: 0 <= k < |p| ==> p[k] == q[k];
  }

  /** A view of a part is a view of the whole. */
  lemma {:induction false} ViewOfPart(s: seq<byte>, b: seq<byte>, lo: nat, hi: nat)
    requires lo <= hi <= |b| && ViewOf(s, b[lo..hi])
    ensures ViewOf(s, b)
  {
    var i: nat :| StartsAt(s, b[lo..hi], i);
    SliceOfSlice(b, lo, hi, i, i + |s|);
    ViewAt(s, b, lo + i);
  }

  lemma {:induction false} ViewsOfPart(v: Vals, b: seq<byte>, n: nat)
    requires n <= |b| && Views(v, b[n..])
    ensures Views(v, b)
    decreases v
  {
    if v.V? {
      assert b[n..] == b[n..|b|];
      if v.val.Bytes? { ViewOfPart(v.val.b, b, n, |b|); }
      if v.val.Strs? {
        forall i | 0 <= i < |v.val.ss| ensures ViewOf(v.val.ss[i], b) { ViewOfPart(v.val.ss[i], b, n, |b|); }
      }
      ViewsOfPart(v.rest, b, n);
    }
  }

  lemma {:induction false} StrsViews(ss: seq<seq<byte>>, i: nat)
    requires i < |ss|
    ensures ViewOf(ss[i], PutStrs(ss))
    decreases i
  {
    var first, more := PutStr(ss[0]), PutStrs(ss[1..]);
    assert PutStrs(ss) == first + more;
    if i == 0 {
      assert (first + more)[2..2 + |ss[0]|] == ss[0];
      ViewAt(ss[0], PutStrs(ss), 2);
    } else {
      StrsViews(ss[1..], i - 1);
      assert (first + more)[|first|..|first + more|] == more;
      ViewOfPart(ss[i], PutStrs(ss), |first|, |first + more|);
    }
  }

  lemma {:induction false} FieldViews(k: Kind, v: Val, b: seq<byte>)
    requires Fits(k, v) && Put(k, v) <= b
    ensures v.Bytes? ==> ViewOf(v.b, b)
    ensures v.Strs? ==> forall i :: 0 <= i < |v.ss| ==> ViewOf(v.ss[i], b)
  {
    if v.Bytes? {
      var n := if k.Str? then 2 else 4;
      assert Put(k, v)[n..] == v.b;
      assert b[n..n + |v.b|] == Put(k, v)[n..];
      ViewAt(v.b, b, n);
    }
    if v.Strs? {
      forall i | 0 <= i < |v.ss| ensures ViewOf(v.ss[i], b) {
        StrsViews(v.ss, i);
        assert b[2..|Put(k, v)|] == PutStrs(v.ss);
        ViewOfPart(v.ss[i], b, 2, |Put(k, v)|);
      }
    }
  }

  lemma {:induction false} AllViews(f: Fields, b: seq<byte>)
    requires GetAll(f, b).Got?
    ensures Views(GetAll(f, b).v, b)
    decreases f
  {
    if f.F? {
      var x := Get(f.kind, b);
      FieldIs(f.kind, b);
      FieldViews(f.kind, x.v, b);
      AllViews(f.rest, b[x.used..]);
      ViewsOfPart(GetAll(f.rest, b[x.used..]).v, b, x.used);
    }
  }

  /** In a message that np_deserialize accepts, every string and all data lie inside the packet. */
  lemma {:induction false} DecodedViews(pkt: seq<byte>, m: Msg)
    requires PeekSize(pkt) <= |pkt| && Decode(pkt) == Some(m)
    ensures Views(m.vals, pkt[HEADER..PeekSize(pkt)])
  {
    AllViews(Expected(m.mtype), pkt[HEADER..PeekSize(pkt)]);
  }
}
