/**
  The fields of 9P2000.L messages as bytes: little-endian integers, counted strings, qids, lists
  of names and of qids, and counted data.  `Put` and `Get` are each other's inverse.
*/
module Wire {
  import opened Common

  type byte = n: nat | n < 256

  const MAXWELEM: nat := 16
  const INT_LIMIT: nat := 0x8000_0000

  // ---- integers ----

  function Pow256(k: nat): (p: nat)
    ensures p > 0
  {
    if k == 0 then 1 else 256 * Pow256(k - 1)
  }

  /** `n` in `k` bytes, lowest first. */
  function LE(n: nat, k: nat): (b: seq<byte>)
    ensures |b| == k
    decreases k
  {
    if k == 0 then [] else [n % 256] + LE(n / 256, k - 1)
  }

  function FromLE(b: seq<byte>): (n: nat) {
    if b == [] then 0 else b[0] + 256 * FromLE(b[1..])
  }

  lemma {:induction false} FromLEBound(b: seq<byte>)
    ensures FromLE(b) < Pow256(|b|)
  {
    if b != [] {
      FromLEBound(b[1..]);
    }
  }

  lemma {:induction false} LERead(n: nat, k: nat)
    requires n < Pow256(k)
    ensures FromLE(LE(n, k)) == n
  {
    if k > 0 {
      LERead(n / 256, k - 1);
      assert LE(n, k)[1..] == LE(n / 256, k - 1);
    }
  }

  lemma {:induction false} LEWrite(b: seq<byte>)
    ensures LE(FromLE(b), |b|) == b
  {
    if b != [] {
      LEWrite(b[1..]);
      assert FromLE(b) % 256 == b[0] && FromLE(b) / 256 == FromLE(b[1..]);
    }
  }

  // ---- fields ----

  datatype Kind = U8 | U16 | U32 | U64 | Str | Qid | Names | Qids | Data

  datatype QidVal = QidVal(qtype: nat, version: nat, path: nat)

  datatype Val =
    | Num(n: nat)
    | Bytes(b: seq<byte>)
    | AQid(q: QidVal)
    | Strs(ss: seq<seq<byte>>)
    | QidSeq(qs: seq<QidVal>)

  function Width(k: Kind): nat {
    match k case U8 => 1 case U16 => 2 case U32 => 4 case U64 => 8 case _ => 0
  }

  predicate QidFits(q: QidVal) {
    q.qtype < Pow256(1) && q.version < Pow256(4) && q.path < Pow256(8)
  }

  /** The values a field can carry. */
  predicate Fits(k: Kind, v: Val) {
    match k
    case Str => v.Bytes? && |v.b| < Pow256(2)
    case Qid => v.AQid? && QidFits(v.q)
    case Names => v.Strs? && |v.ss| <= MAXWELEM && forall i :: 0 <= i < |v.ss| ==> StrFits(v.ss[i])
    case Qids => v.QidSeq? && |v.qs| <= MAXWELEM && forall i :: 0 <= i < |v.qs| ==> QidFits(v.qs[i])
    case Data => v.Bytes? && |v.b| < INT_LIMIT
    case _ => v.Num? && v.n < Pow256(Width(k))
  }

  function PutStr(s: seq<byte>): seq<byte> {
    LE(|s|, 2) + s
  }

  function PutQid(q: QidVal): (b: seq<byte>)
    ensures |b| == 13
  {
    LE(q.qtype, 1) + LE(q.version, 4) + LE(q.path, 8)
  }

  function PutStrs(ss: seq<seq<byte>>): seq<byte> {
    if ss == [] then [] else PutStr(ss[0]) + PutStrs(ss[1..])
  }

  function PutQids(qs: seq<QidVal>): seq<byte> {
    if qs == [] then [] else PutQid(qs[0]) + PutQids(qs[1..])
  }

  /** The items of a list, one after the other. */
  ghost function PutMany<T>(put: T -> seq<byte>, xs: seq<T>): seq<byte> {
    if xs == [] then [] else put(xs[0]) + PutMany(put, xs[1..])
  }

  /** The bytes of a field. */
  function Put(k: Kind, v: Val): seq<byte>
    requires Fits(k, v)
  {
    match k
    case Str => PutStr(v.b)
    case Qid => PutQid(v.q)
    case Names => LE(|v.ss|, 2) + PutStrs(v.ss)
    case Qids => LE(|v.qs|, 2) + PutQids(v.qs)
    case Data => LE(|v.b|, 4) + v.b
    case _ => LE(v.n, Width(k))
  }

  /** A value and the number of bytes it took. */
  datatype Got<T> = Nothing | Got(v: T, used: nat)

  function GetInt(k: nat, b: seq<byte>): (r: Got<nat>)
    ensures r.Got? ==> r.used == k <= |b|
  {
    if |b| < k then Nothing else Got(FromLE(b[..k]), k)
  }

  /** Bytes counted by an integer of `k` bytes before them. */
  function GetCounted(k: nat, b: seq<byte>): (r: Got<seq<byte>>)
    ensures r.Got? ==> r.used == k + |r.v| <= |b|
  {
    var n := GetInt(k, b);
    if n.Nothing? || |b| - k < n.v then Nothing else Got(b[k..k + n.v], k + n.v)
  }

  function GetQid(b: seq<byte>): (r: Got<QidVal>)
    ensures r.Got? ==> r.used == 13 <= |b|
  {
    if |b| < 13 then Nothing
    else Got(QidVal(GetInt(1, b).v, GetInt(4, b[1..]).v, GetInt(8, b[5..]).v), 13)
  }

  function GetStr(b: seq<byte>): Got<seq<byte>> {
    GetCounted(2, b)
  }

  function GetStrs(n: nat, b: seq<byte>): (r: Got<seq<seq<byte>>>)
    ensures r.Got? ==> r.used <= |b| && |r.v| == n
  {
    if n == 0 then Got([], 0)
    else
      var x := GetStr(b);
      if x.Nothing? then Nothing
      else
        var rest := GetStrs(n - 1, b[x.used..]);
        if rest.Nothing? then Nothing else Got([x.v] + rest.v, x.used + rest.used)
  }

  function GetQids(n: nat, b: seq<byte>): (r: Got<seq<QidVal>>)
    ensures r.Got? ==> r.used <= |b| && |r.v| == n
  {
    if n == 0 then Got([], 0)
    else
      var x := GetQid(b);
      if x.Nothing? then Nothing
      else
        var rest := GetQids(n - 1, b[x.used..]);
        if rest.Nothing? then Nothing else Got([x.v] + rest.v, x.used + rest.used)
  }

  /** `n` items of a list. */
  ghost function GetMany<T>(get: seq<byte> -> Got<T>, n: nat, b: seq<byte>): (r: Got<seq<T>>)
    ensures r.Got? ==> r.used <= |b| && |r.v| == n
  {
    if n == 0 then Got([], 0)
    else
      var x := get(b);
      if x.Nothing? || x.used > |b| then Nothing
      else
        var rest := GetMany(get, n - 1, b[x.used..]);
        if rest.Nothing? then Nothing else Got([x.v] + rest.v, x.used + rest.used)
  }

  /** Reads a field. */
  function Get(k: Kind, b: seq<byte>): (r: Got<Val>)
    ensures r.Got? ==> r.used <= |b|
  {
    match k
    case Str => (var r := GetCounted(2, b); if r.Nothing? then Nothing else Got(Bytes(r.v), r.used))
    case Qid => (var r := GetQid(b); if r.Nothing? then Nothing else Got(AQid(r.v), r.used))
    case Names =>
      var n := GetInt(2, b);
      if n.Nothing? || n.v > MAXWELEM then Nothing
      else
        var r := GetStrs(n.v, b[2..]);
        if r.Nothing? then Nothing else Got(Strs(r.v), 2 + r.used)
    case Qids =>
      var n := GetInt(2, b);
      if n.Nothing? || n.v > MAXWELEM then Nothing
      else
        var r := GetQids(n.v, b[2..]);
        if r.Nothing? then Nothing else Got(QidSeq(r.v), 2 + r.used)
    case Data =>
      var r := GetCounted(4, b);
      if r.Nothing? || |r.v| >= INT_LIMIT then Nothing else Got(Bytes(r.v), r.used)
    case _ =>
      var r := GetInt(Width(k), b);
      if r.Nothing? then Nothing else Got(Num(r.v), r.used)
  }

  // ---- what is read is what the bytes in front encode ----

  lemma {:induction false} IntIs(k: nat, b: seq<byte>)
    requires k <= |b|
    ensures GetInt(k, b).v < Pow256(k) && b[..k] == LE(GetInt(k, b).v, k)
  {
    FromLEBound(b[..k]);
    LEWrite(b[..k]);
  }

  lemma {:induction false} CountedIs(k: nat, b: seq<byte>, s: seq<byte>)
    requires GetCounted(k, b) == Got(s, k + |s|)
    ensures |s| < Pow256(k) && b[..k + |s|] == LE(|s|, k) + s
  {
    IntIs(k, b);
    assert b[..k + |s|] == b[..k] + b[k..k + |s|];
  }

  lemma {:induction false} QidIs(b: seq<byte>, q: QidVal)
    requires GetQid(b) == Got(q, 13)
    ensures QidFits(q) && b[..13] == PutQid(q)
  {
    IntIs(1, b);
    IntIs(4, b[1..]);
    IntIs(8, b[5..]);
    assert b[..13] == b[..1] + b[1..][..4] + b[5..][..8];
  }

  /** What `get` reads is what `put` writes. */
  ghost predicate Right<T(!new)>(put: T -> seq<byte>, get: seq<byte> -> Got<T>, ok: T -> bool) {
    forall b :: get(b).Got? ==> get(b).used <= |b| && ok(get(b).v) && b[..get(b).used] == put(get(b).v)
  }

  /** `get` reads back what `put` has written. */
  ghost predicate Back<T(!new)>(put: T -> seq<byte>, get: seq<byte> -> Got<T>, ok: T -> bool) {
    forall x, b {:trigger put(x), get(b)} :: ok(x) && put(x) <= b ==> get(b) == Got(x, |put(x)|)
  }

  lemma {:induction false} Prefixes(b: seq<byte>, i: nat, j: nat)
    requires i + j <= |b|
    ensures b[..i + j] == b[..i] + b[i..][..j]
  {
  }

  lemma {:induction false} PutManyCons<T>(put: T -> seq<byte>, x: T, xs: seq<T>)
    ensures PutMany(put, [x] + xs) == put(x) + PutMany(put, xs)
  {
    assert ([x] + xs)[1..] == xs;
  }

  lemma {:induction false} ManyAre<T(!new)>(put: T -> seq<byte>, get: seq<byte> -> Got<T>, ok: T -> bool, n: nat, b: seq<byte>)
    requires Right(put, get, ok) && GetMany(get, n, b).Got?
    ensures b[..GetMany(get, n, b).used] == PutMany(put, GetMany(get, n, b).v)
    ensures forall i :: 0 <= i < n ==> ok(GetMany(get, n, b).v[i])
    decreases n
  {
    if n > 0 {
      var x := get(b);
      var c := b[x.used..];
      var rest := GetMany(get, n - 1, c);
      ManyAre(put, get, ok, n - 1, c);
      Prefixes(b, x.used, rest.used);
      PutManyCons(put, x.v, rest.v);
    }
  }

  lemma {:induction false} ManyRead<T(!new)>(put: T -> seq<byte>, get: seq<byte> -> Got<T>, ok: T -> bool, xs: seq<T>, b: seq<byte>)
    requires Back(put, get, ok) && (forall i :: 0 <= i < |xs| ==> ok(xs[i])) && PutMany(put, xs) <= b
    ensures GetMany(get, |xs|, b) == Got(xs, |PutMany(put, xs)|)
    decreases |xs|
  {
    if xs != [] {
      var first, more := put(xs[0]), PutMany(put, xs[1..]);
      assert first <= b && more <= b[|first|..] by {
        assert PutMany(put, xs) == first + more;
      }
      ManyRead(put, get, ok, xs[1..], b[|first|..]);
      assert xs == [xs[0]] + xs[1..];
    }
  }

  // ---- strings and qids are such items ----

  lemma {:induction false} StrsPut(ss: seq<seq<byte>>)
    ensures PutStrs(ss) == PutMany(PutStr, ss)
  {
    if ss != [] { StrsPut(ss[1..]); }
  }

  lemma {:induction false} QidsPut(qs: seq<QidVal>)
    ensures PutQids(qs) == PutMany(PutQid, qs)
  {
    if qs != [] { QidsPut(qs[1..]); }
  }

  lemma {:induction false} StrsGet(n: nat, b: seq<byte>)
    ensures GetStrs(n, b) == GetMany(GetStr, n, b)
  {
    if n > 0 && GetStr(b).Got? { StrsGet(n - 1, b[GetStr(b).used..]); }
  }

  lemma {:induction false} QidsGet(n: nat, b: seq<byte>)
    ensures GetQids(n, b) == GetMany(GetQid, n, b)
  {
    if n > 0 && GetQid(b).Got? { QidsGet(n - 1, b[GetQid(b).used..]); }
  }

  predicate StrFits(s: seq<byte>) {
    |s| < Pow256(2)
  }

  lemma {:induction false} StrInverse()
    ensures Right(PutStr, GetStr, StrFits) && Back(PutStr, GetStr, StrFits)
  {
    forall b: seq<byte> | GetStr(b).Got?
      ensures GetStr(b).used <= |b| && StrFits(GetStr(b).v) && b[..GetStr(b).used] == PutStr(GetStr(b).v)
    {
      CountedIs(2, b, GetStr(b).v);
    }
    forall s: seq<byte>, b: seq<byte> | StrFits(s) && PutStr(s) <= b ensures GetStr(b) == Got(s, |PutStr(s)|) {
      StrReads(b, s, 2);
    }
  }

  lemma {:induction false} QidInverse()
    ensures Right(PutQid, GetQid, QidFits) && Back(PutQid, GetQid, QidFits)
  {
    forall b: seq<byte> | GetQid(b).Got?
      ensures GetQid(b).used <= |b| && QidFits(GetQid(b).v) && b[..GetQid(b).used] == PutQid(GetQid(b).v)
    {
      QidIs(b, GetQid(b).v);
    }
    forall q: QidVal, b: seq<byte> | QidFits(q) && PutQid(q) <= b ensures GetQid(b) == Got(q, |PutQid(q)|) {
      QidReads(b, q);
    }
  }

  /** A list is its length in two bytes and its items. */
  ghost predicate ListOf<T(!new)>(put: T -> seq<byte>, get: seq<byte> -> Got<T>, ok: T -> bool, b: seq<byte>, xs: seq<T>, used: nat) {
    && used <= |b| && |xs| <= MAXWELEM && (forall i :: 0 <= i < |xs| ==> ok(xs[i]))
    && b[..used] == LE(|xs|, 2) + PutMany(put, xs)
  }

  lemma {:induction false} ListIs<T(!new)>(put: T -> seq<byte>, get: seq<byte> -> Got<T>, ok: T -> bool, b: seq<byte>)
    requires Right(put, get, ok) && |b| >= 2 && GetInt(2, b).v <= MAXWELEM && GetMany(get, GetInt(2, b).v, b[2..]).Got?
    ensures var r := GetMany(get, GetInt(2, b).v, b[2..]);
            ListOf(put, get, ok, b, r.v, 2 + r.used)
  {
    var n, c := GetInt(2, b).v, b[2..];
    var r := GetMany(get, n, c);
    IntIs(2, b);
    ManyAre(put, get, ok, n, c);
    assert b[..2 + r.used] == b[..2] + c[..r.used];
  }

  lemma {:induction false} ListReads<T(!new)>(put: T -> seq<byte>, get: seq<byte> -> Got<T>, ok: T -> bool, b: seq<byte>, xs: seq<T>)
    requires Back(put, get, ok) && |xs| <= MAXWELEM && (forall i :: 0 <= i < |xs| ==> ok(xs[i]))
    requires LE(|xs|, 2) + PutMany(put, xs) <= b
    ensures GetInt(2, b) == Got(|xs|, 2) && GetMany(get, |xs|, b[2..]) == Got(xs, |PutMany(put, xs)|)
  {
    assert b[..2] == LE(|xs|, 2) && PutMany(put, xs) <= b[2..];
    IntReads(b, |xs|, 2);
    ManyRead(put, get, ok, xs, b[2..]);
  }

  // ---- reading back what was put ----

  lemma {:induction false} IntReads(b: seq<byte>, n: nat, k: nat)
    requires n < Pow256(k) && LE(n, k) <= b
    ensures GetInt(k, b) == Got(n, k)
  {
    LERead(n, k);
    assert b[..k] == LE(n, k);
  }

  lemma {:induction false} StrReads(b: seq<byte>, s: seq<byte>, k: nat)
    requires |s| < Pow256(k) && LE(|s|, k) + s <= b
    ensures GetCounted(k, b) == Got(s, k + |s|)
  {
    assert b[..k] == LE(|s|, k) && b[k..k + |s|] == s;
    IntReads(b, |s|, k);
  }

  lemma {:induction false} QidParts(b: seq<byte>, x: seq<byte>, y: seq<byte>, z: seq<byte>)
    requires |x| == 1 && |y| == 4 && |z| == 8 && x + y + z <= b
    ensures |b| >= 13 && x <= b && y <= b[1..] && z <= b[5..]
  {
    assert b[..1] == x && b[1..][..4] == y && b[5..][..8] == z;
  }

  lemma {:induction false} QidReads(b: seq<byte>, q: QidVal)
    requires QidFits(q) && PutQid(q) <= b
    ensures GetQid(b) == Got(q, 13)
  {
    QidParts(b, LE(q.qtype, 1), LE(q.version, 4), LE(q.path, 8));
    IntReads(b, q.qtype, 1);
    IntReads(b[1..], q.version, 4);
    IntReads(b[5..], q.path, 8);
  }

  /** What is read fits, and the bytes in front are its encoding. */
  lemma {:induction false} FieldIs(k: Kind, b: seq<byte>)
    requires Get(k, b).Got?
    ensures Fits(k, Get(k, b).v) && b[..Get(k, b).used] == Put(k, Get(k, b).v)
  {
    match k
    case Str => CountedIs(2, b, GetCounted(2, b).v);
    case Qid => QidIs(b, GetQid(b).v);
    case Names =>
      StrInverse();
      var n, c := GetInt(2, b).v, b[2..];
      StrsGet(n, c);
      ListIs(PutStr, GetStr, StrFits, b);
      StrsPut(GetStrs(n, c).v);
    case Qids =>
      QidInverse();
      var n, c := GetInt(2, b).v, b[2..];
      QidsGet(n, c);
      ListIs(PutQid, GetQid, QidFits, b);
      QidsPut(GetQids(n, c).v);
    case Data => CountedIs(4, b, GetCounted(4, b).v);
    case _ => IntIs(Width(k), b);
  }

  lemma {:induction false} NamesRead(b: seq<byte>, v: Val)
    requires Fits(Names, v) && Put(Names, v) <= b
    ensures Get(Names, b) == Got(v, |Put(Names, v)|)
  {
    StrInverse();
    StrsPut(v.ss);
    ListReads(PutStr, GetStr, StrFits, b, v.ss);
    StrsGet(|v.ss|, b[2..]);
  }

  lemma {:induction false} QidsRead(b: seq<byte>, v: Val)
    requires Fits(Qids, v) && Put(Qids, v) <= b
    ensures Get(Qids, b) == Got(v, |Put(Qids, v)|)
  {
    QidInverse();
    QidsPut(v.qs);
    ListReads(PutQid, GetQid, QidFits, b, v.qs);
    QidsGet(|v.qs|, b[2..]);
  }

  /** A field is read back whatever follows it. */
  lemma {:induction false} FieldReads(b: seq<byte>, k: Kind, v: Val)
    requires Fits(k, v) && Put(k, v) <= b
    ensures Get(k, b) == Got(v, |Put(k, v)|)
  {
    match k
    case Str => StrReads(b, v.b, 2);
    case Qid => QidReads(b, v.q);
    case Names => NamesRead(b, v);
    case Qids => QidsRead(b, v);
    case Data => StrReads(b, v.b, 4);
    case _ => IntReads(b, v.n, Width(k));
  }
}
