/**
  The cursor of np.c over a packet: it moves on while there is room, and once it has run past the
  end it stays there.  Builders and np_deserialize are proved to be `Encode` and `Decode`.
*/
module CbufModule {
  import opened Common
  import opened Wire
  import opened Messages
  import opened Codec

  class Cbuf {
    const data: array<byte>
    const ep: int
    var p: int
    ghost var past: seq<byte>       // what lies before the cursor

    ghost predicate Valid()
      reads this, data
    {
      0 <= p && ep <= data.Length && (p <= ep ==> |past| == p && Holds(p))
    }

    /** The first `n` bytes of the buffer are those of `past`. */
    ghost predicate Holds(n: nat)
      requires n <= data.Length && n <= |past|
      reads this, data
    {
      n == 0 || (data[n - 1] == past[n - 1] && Holds(n - 1))
    }

    lemma {:induction false} HoldsAll(n: nat)
      requires n <= data.Length && n <= |past| && Holds(n)
      ensures data[..n] == past[..n]
    {
      if n > 0 {
        HoldsAll(n - 1);
        assert data[..n] == data[..n - 1] + [data[n - 1]];
      }
    }

    lemma {:induction false} AllHolds(n: nat)
      requires n <= data.Length && n <= |past| && data[..n] == past[..n]
      ensures Holds(n)
    {
      if n > 0 {
        assert data[..n][n - 1] == past[..n][n - 1];
        assert data[..n - 1] == data[..n][..n - 1];
        AllHolds(n - 1);
      }
    }

    predicate Overflow()
      reads this
    {
      p > ep
    }

    /** buf_init: `len` may come out negative. */
    constructor (d: array<byte>, start: nat, len: int)
      requires start <= d.Length && start + len <= d.Length
      ensures Valid() && data == d && p == start && ep == start + len && past == d[..start]
    {
      data, p, ep := d, start, start + len;
      past := d[..start];
      new;
      AllHolds(p);
    }

    /** buf_check_size. */
    method CheckSize(len: nat) returns (ok: bool)
      requires Valid()
      modifies this`p
      ensures Valid() && ok == (old(p) + len <= ep)
      ensures ok ==> p == old(p)
      ensures !ok ==> Overflow() && (old(Overflow()) ==> p == old(p))
    {
      if p + len > ep {
        if p <= ep {
          p := ep + 1;
        }
        return false;
      }
      ok := true;
    }

    /** The new bytes follow the old ones, or there was no room for them. */
    twostate predicate Appended(b: seq<byte>)
      reads this
    {
      if old(p) + |b| <= ep then p == old(p) + |b| && past == old(past) + b else Overflow()
    }

    // ---- writing ----

    /** Writes one byte at the cursor. */
    method PutByte(x: byte)
      requires Valid() && p < ep
      modifies this, data
      ensures Valid() && p == old(p) + 1 && past == old(past) + [x]
    {
      HoldsAll(p);
      data[p] := x;
      past := past + [x];
      p := p + 1;
      assert past[..p - 1] == old(past)[..p - 1];
      assert data[..p] == data[..p - 1] + [x] == past[..p];
      AllHolds(p);
    }

    /** buf_put_int8, 16, 32 and 64. */
    method PutInt(val: nat, k: nat)
      requires Valid()
      modifies this, data
      ensures Valid() && Appended(LE(val, k))
    {
      var ok := CheckSize(k);
      if !ok {
        return;
      }
      var i, v := 0, val;
      while i < k
        invariant 0 <= i <= k && Valid() && p == old(p) + i && old(p) + k <= ep
        invariant past + LE(v, k - i) == old(past) + LE(val, k)
      {
        PutOne(past, v, k - i);
        PutByte(v % 256);
        v := v / 256;
        i := i + 1;
      }
      assert past + LE(v, 0) == past;
    }

    static lemma PutOne(past: seq<byte>, v: nat, k: nat)
      requires k > 0
      ensures past + LE(v, k) == past + [v % 256] + LE(v / 256, k - 1)
    {
    }

    /** buf_alloc and memmove. */
    method PutRaw(b: seq<byte>)
      requires Valid()
      modifies this, data
      ensures Valid() && Appended(b)
    {
      var ok := CheckSize(|b|);
      if !ok {
        return;
      }
      var i := 0;
      while i < |b|
        invariant 0 <= i <= |b| && Valid() && p == old(p) + i && old(p) + |b| <= ep
        invariant past == old(past) + b[..i]
      {
        PutByte(b[i]);
        i := i + 1;
        assert b[..i] == b[..i - 1] + [b[i - 1]];
      }
      assert b[..i] == b;
    }

    /** buf_put_str. */
    method PutStr(s: seq<byte>)
      requires Valid()
      modifies this, data
      ensures Valid() && Appended(Wire.PutStr(s))
    {
      var ok := CheckSize(2 + |s|);
      if ok {
        Assoc(past, LE(|s|, 2), s);
        PutInt(|s|, 2);
        PutRaw(s);
      }
    }

    /** buf_put_qid. */
    method PutQid(q: QidVal)
      requires Valid()
      modifies this, data
      ensures Valid() && Appended(Wire.PutQid(q))
    {
      ghost var a, b, c := LE(q.qtype, 1), LE(q.version, 4), LE(q.path, 8);
      Assoc(past, a, b);
      Assoc(past, a + b, c);
      PutInt(q.qtype, 1);
      PutInt(q.version, 4);
      PutInt(q.path, 8);
    }

    /** The loops over names and over qids in the builders. */
    method PutStrs(ss: seq<seq<byte>>)
      requires Valid()
      modifies this, data
      ensures Valid() && Appended(Wire.PutStrs(ss))
    {
      var i := 0;
      while i < |ss|
        invariant 0 <= i <= |ss| && Valid() && Appended(Wire.PutStrs(ss[..i]))
      {
        StrsOne(ss, i);
        Assoc(old(past), Wire.PutStrs(ss[..i]), Wire.PutStr(ss[i]));
        PutStr(ss[i]);
        i := i + 1;
      }
      assert ss[..i] == ss;
    }

    method PutQids(qs: seq<QidVal>)
      requires Valid()
      modifies this, data
      ensures Valid() && Appended(Wire.PutQids(qs))
    {
      var i := 0;
      while i < |qs|
        invariant 0 <= i <= |qs| && Valid() && Appended(Wire.PutQids(qs[..i]))
      {
        QidsOne(qs, i);
        Assoc(old(past), Wire.PutQids(qs[..i]), Wire.PutQid(qs[i]));
        PutQid(qs[i]);
        i := i + 1;
      }
      assert qs[..i] == qs;
    }

    method PutField(k: Kind, v: Val)
      requires Valid() && Fits(k, v)
      modifies this, data
      ensures Valid() && Appended(Put(k, v))
    {
      match k
      case Str => PutStr(v.b);
      case Qid => PutQid(v.q);
      case Names =>
        Assoc(past, LE(|v.ss|, 2), Wire.PutStrs(v.ss));
        PutInt(|v.ss|, 2);
        PutStrs(v.ss);
      case Qids =>
        Assoc(past, LE(|v.qs|, 2), Wire.PutQids(v.qs));
        PutInt(|v.qs|, 2);
        PutQids(v.qs);
      case Data =>
        Assoc(past, LE(|v.b|, 4), v.b);
        PutInt(|v.b|, 4);
        PutRaw(v.b);
      case _ => PutInt(v.n, Width(k));
    }

    /** The calls of a builder after the header. */
    method PutFields(f: Fields, v: Vals)
      requires Valid() && Carries(f, v)
      modifies this, data
      ensures Valid() && Appended(PutAll(f, v))
      decreases f
    {
      if f.F? {
        Assoc(past, Put(f.kind, v.val), PutAll(f.rest, v.rest));
        PutField(f.kind, v.val);
        PutFields(f.rest, v.rest);
      }
    }
  }

  lemma {:induction false} StrsOne(ss: seq<seq<byte>>, i: nat)
    requires i < |ss|
    ensures PutStrs(ss[..i + 1]) == PutStrs(ss[..i]) + PutStr(ss[i])
    decreases i
  {
    if i == 0 {
      assert ss[..1] == [ss[0]] && [ss[0]][1..] == ss[..0];
    } else {
      assert ss[..i + 1][1..] == ss[1..][..i] && ss[..i][1..] == ss[1..][..i - 1];
      StrsOne(ss[1..], i - 1);
    }
  }

  lemma {:induction false} QidsOne(qs: seq<QidVal>, i: nat)
    requires i < |qs|
    ensures PutQids(qs[..i + 1]) == PutQids(qs[..i]) + PutQid(qs[i])
    decreases i
  {
    if i == 0 {
      assert qs[..1] == [qs[0]] && [qs[0]][1..] == qs[..0];
    } else {
      assert qs[..i + 1][1..] == qs[1..][..i] && qs[..i][1..] == qs[1..][..i - 1];
      QidsOne(qs[1..], i - 1);
    }
  }

  // ---- reading ----

  /** The same cursor over a packet that is only read. */
  class Reader {
    const data: seq<byte>
    const ep: int
    var p: int

    ghost predicate Valid()
      reads this
    {
      0 <= p && ep <= |data|
    }

    predicate Overflow()
      reads this
    {
      p > ep
    }

    ghost function Ahead(): seq<byte>
      requires Valid()
      reads this
    {
      if p <= ep then data[p..ep] else []
    }

    constructor (d: seq<byte>, start: nat, len: int)
      requires start + len <= |d|
      ensures Valid() && data == d && p == start && ep == start + len
    {
      data, p, ep := d, start, start + len;
    }

    method CheckSize(len: nat) returns (ok: bool)
      requires Valid()
      modifies this
      ensures Valid() && ok == (old(p) + len <= ep)
      ensures ok ==> p == old(p)
      ensures !ok ==> Overflow() && (old(Overflow()) ==> p == old(p))
    {
      if p + len > ep {
        if p <= ep {
          p := ep + 1;
        }
        return false;
      }
      ok := true;
    }

    /** The cursor has moved over `n` bytes; an overflow stays. */
    twostate predicate Moved(n: nat)
      requires old(Valid()) && Valid()
      reads this
    {
      !old(Overflow()) && p == old(p) + n <= ep && n <= |old(Ahead())| && Ahead() == old(Ahead())[n..]
    }

    /** buf_get_int8, 16, 32 and 64. */
    method GetInt(k: nat) returns (n: nat)
      requires Valid()
      modifies this
      ensures Valid()
      ensures if !old(Overflow()) && Wire.GetInt(k, old(Ahead())).Got? then Moved(k) && n == Wire.GetInt(k, old(Ahead())).v
              else Overflow() && n == 0
    {
      n := 0;
      var ok := CheckSize(k);
      if ok {
        var i := k;
        assert data[p + k..p + k] == [];
        while i > 0
          invariant 0 <= i <= k && p == old(p) && n == FromLE(data[p + i..p + k])
        {
          i := i - 1;
          assert data[p + i..p + k] == [data[p + i]] + data[p + i + 1..p + k];
          n := data[p + i] + 256 * n;
        }
        assert data[p..ep][..k] == data[p..p + k];
        p := p + k;
      }
    }

    /** buf_alloc, as a view of the packet. */
    method Alloc(len: nat) returns (b: seq<byte>)
      requires Valid()
      modifies this
      ensures Valid()
      ensures if !old(Overflow()) && len <= |old(Ahead())| then Moved(len) && b == old(Ahead())[..len]
              else Overflow() && b == []
    {
      b := [];
      var ok := CheckSize(len);
      if ok {
        b := data[p..p + len];
        assert data[p..ep][..len] == data[p..p + len];
        p := p + len;
      }
    }

    /** What `Wire` reads is what was read; otherwise the cursor has run over. */
    twostate predicate Read<X(!new)>(r: Got<X>, x: X)
      requires old(Valid()) && Valid()
      reads this
    {
      if !old(Overflow()) && r.Got? then Moved(r.used) && x == r.v else Overflow()
    }

    /** buf_get_str. */
    method GetStr() returns (s: seq<byte>)
      requires Valid()
      modifies this
      ensures Valid() && Read(Wire.GetStr(old(Ahead())), s)
    {
      var n := GetInt(2);
      s := Alloc(n);
      Slice(old(Ahead()), 2, n);
    }

    /** buf_get_qid. */
    method GetQid() returns (q: QidVal)
      requires Valid()
      modifies this
      ensures Valid() && Read(Wire.GetQid(old(Ahead())), q)
    {
      var t := GetInt(1);
      var v := GetInt(4);
      var path := GetInt(8);
      q := QidVal(t, v, path);
      Slice(old(Ahead()), 1, 4);
      Slice(old(Ahead()), 5, 8);
    }

    /** `i` of `n` names have been read, from `start` on; or there is an overflow, as `Wire` has it. */
    ghost predicate StrsState(start: int, n: nat, i: nat, xs: seq<seq<byte>>, live: bool)
      requires Valid()
      reads this
    {
      if !live then Overflow()
      else
        && 0 <= start <= ep
        && if Overflow() then Wire.GetStrs(n, data[start..ep]).Nothing?
           else start <= p && Wire.GetStrs(i, data[start..ep]) == Got(xs, p - start)
    }

    method StrsStep(xs: seq<seq<byte>>, ghost start: int, ghost n: nat, ghost i: nat, ghost live: bool) returns (xs': seq<seq<byte>>)
      requires Valid() && i < n && StrsState(start, n, i, xs, live)
      modifies this
      ensures Valid() && StrsState(start, n, i + 1, xs', live)
    {
      ghost var at, used := p, p - start;
      ghost var b := Ahead();
      var x := GetStr();
      if live && at <= ep {
        GetStrsNext(i, n, data[start..ep], used);
        assert b == data[start..ep][used..];
      }
      xs' := xs + [x];
    }

    /** The loop over names in np_deserialize. */
    method GetStrs(n: nat) returns (xs: seq<seq<byte>>)
      requires Valid()
      modifies this
      ensures Valid() && Read(Wire.GetStrs(n, old(Ahead())), xs)
    {
      xs := [];
      ghost var start, live := p, !Overflow();
      var i := 0;
      while i < n
        invariant 0 <= i <= n && Valid() && StrsState(start, n, i, xs, live)
      {
        xs := StrsStep(xs, start, n, i, live);
        i := i + 1;
      }
      if live && !Overflow() { SliceRest(data, start, p, ep); }
    }

    /** `i` of `n` qids have been read, from `start` on; or there is an overflow, as `Wire` has it. */
    ghost predicate QidsState(start: int, n: nat, i: nat, xs: seq<QidVal>, live: bool)
      requires Valid()
      reads this
    {
      if !live then Overflow()
      else
        && 0 <= start <= ep
        && if Overflow() then Wire.GetQids(n, data[start..ep]).Nothing?
           else start <= p && Wire.GetQids(i, data[start..ep]) == Got(xs, p - start)
    }

    method QidsStep(xs: seq<QidVal>, ghost start: int, ghost n: nat, ghost i: nat, ghost live: bool) returns (xs': seq<QidVal>)
      requires Valid() && i < n && QidsState(start, n, i, xs, live)
      modifies this
      ensures Valid() && QidsState(start, n, i + 1, xs', live)
    {
      ghost var at, used := p, p - start;
      ghost var b := Ahead();
      var x := GetQid();
      if live && at <= ep {
        GetQidsNext(i, n, data[start..ep], used);
        assert b == data[start..ep][used..];
      }
      xs' := xs + [x];
    }

    /** The loop over qids in np_deserialize. */
    method GetQids(n: nat) returns (xs: seq<QidVal>)
      requires Valid()
      modifies this
      ensures Valid() && Read(Wire.GetQids(n, old(Ahead())), xs)
    {
      xs := [];
      ghost var start, live := p, !Overflow();
      var i := 0;
      while i < n
        invariant 0 <= i <= n && Valid() && QidsState(start, n, i, xs, live)
      {
        xs := QidsStep(xs, start, n, i, live);
        i := i + 1;
      }
      if live && !Overflow() { SliceRest(data, start, p, ep); }
    }

    /** A field, or an error at once if a list is too long. */
    twostate predicate ReadField(k: Kind, ok: bool, v: Val)
      requires old(Valid()) && Valid()
      reads this
    {
      var r := Wire.Get(k, old(Ahead()));
      if !old(Overflow()) && r.Got? then ok && Moved(r.used) && v == r.v else !ok || Overflow()
    }

    method GetNames() returns (ok: bool, v: Val)
      requires Valid()
      modifies this
      ensures Valid() && ReadField(Names, ok, v)
    {
      var n := GetInt(2);
      if n > MAXWELEM {
        return false, Strs([]);
      }
      var ss := GetStrs(n);
      ListSlices(old(Ahead()));
      ok, v := true, Strs(ss);
    }

    method GetQidList() returns (ok: bool, v: Val)
      requires Valid()
      modifies this
      ensures Valid() && ReadField(Qids, ok, v)
    {
      var n := GetInt(2);
      if n > MAXWELEM {
        return false, QidSeq([]);
      }
      var qs := GetQids(n);
      ListSlices(old(Ahead()));
      ok, v := true, QidSeq(qs);
    }

    method GetField(k: Kind) returns (ok: bool, v: Val)
      requires Valid() && !k.Data?
      modifies this
      ensures Valid() && ReadField(k, ok, v)
    {
      ok := true;
      match k
      case Str =>
        var s := GetStr();
        v := Bytes(s);
      case Qid =>
        var q := GetQid();
        v := AQid(q);
      case Names =>
        ok, v := GetNames();
      case Qids =>
        ok, v := GetQidList();
      case U8 =>
        v := GetNum(k);
      case U16 =>
        v := GetNum(k);
      case U32 =>
        v := GetNum(k);
      case U64 =>
        v := GetNum(k);
    }

    method GetNum(k: Kind) returns (v: Val)
      requires Valid() && (k.U8? || k.U16? || k.U32? || k.U64?)
      modifies this
      ensures Valid() && ReadField(k, true, v)
    {
      var n := GetInt(Width(k));
      v := Num(n);
    }

    /** A count and buf_alloc, which takes it as an int: with a negative one the cursor moves backwards. */
    method GetData() returns (v: Val, back: bool)
      requires Valid()
      modifies this
      ensures back <==> !old(Overflow()) && BigCount(old(Ahead()))
      ensures back ==> !Overflow() && p < old(p) + 4
      ensures !back ==> Valid() && ReadField(Data, true, v)
    {
      var len := GetCount();
      back, v := len < 0, Bytes([]);
      if back {
        p := p + len;
      } else {
        var b := Alloc(len);
        v := Bytes(b);
        Slice(old(Ahead()), 4, len);
      }
    }

    /** The count, as an int. */
    method GetCount() returns (len: int)
      requires Valid()
      modifies this
      ensures Valid()
      ensures if old(Overflow()) || |old(Ahead())| < 4 then Overflow() && len == 0
              else Moved(4) && if BigCount(old(Ahead())) then len < 0 else len == FromLE(old(Ahead())[..4])
    {
      var n := GetInt(4);
      if !Overflow() { CountBound(old(Ahead())[..4]); }
      len := Int32(n);
    }

    /** One case of the switch of np_deserialize, and the check at its end. */
    method GetFields(f: Fields) returns (ok: bool, v: Vals, back: bool)
      requires Valid() && DataLast(f)
      modifies this
      ensures back <==> !old(Overflow()) && Backward(f, old(Ahead()))
      ensures back ==> ok && !Overflow()
      ensures !back ==> Valid() && (ok && !Overflow() <==> !old(Overflow()) && GetAll(f, old(Ahead())).Got?)
      ensures !back && ok && !Overflow() ==> v == GetAll(f, old(Ahead())).v
      decreases f
    {
      ok, v, back := true, NoMore, false;
      if f.F? {
        var x, more;
        if f.kind.Data? {
          x, back := GetData();
          v := V(f.name, x, NoMore);
          return;
        }
        ok, x := GetField(f.kind);
        if !ok {
          return;
        }
        ok, more, back := GetFields(f.rest);
        v := V(f.name, x, more);
      }
    }
  }

  /** Data come last in a message. */
  predicate DataLast(f: Fields) {
    f.F? ==> (f.kind.Data? ==> f.rest.End?) && DataLast(f.rest)
  }

  lemma FourMore(f: Fields)
    requires f.F? && f.rest.F? && f.rest.rest.F? && f.rest.rest.rest.F?
    requires !f.kind.Data? && !f.rest.kind.Data? && !f.rest.rest.kind.Data? && !f.rest.rest.rest.kind.Data?
    requires DataLast(f.rest.rest.rest.rest)
    ensures DataLast(f)
  {
    assert DataLast(f.rest.rest);
  }

  lemma TimesLast()
    ensures DataLast(ExpectedTimes())
  {
    var f := ExpectedTimes();
    FourMore(f.rest.rest.rest.rest);
    FourMore(f);
  }

  lemma DataIsLastT(o: Op)
    ensures DataLast(ExpectedT(o))
  {
    var f := ExpectedT(o);
    if f.F? && f.rest.F? && f.rest.rest.F? && f.rest.rest.rest.F? {
      if o.Setattr? { FourMore(f.rest.rest.rest.rest); }
      FourMore(f);
    }
  }

  lemma DataIsLastR(o: Op)
    ensures DataLast(ExpectedR(o))
  {
    var f := ExpectedR(o);
    if o.Getattr? {
      TimesLast();
      FourMore(f.rest.rest.rest.rest.rest.rest);
      FourMore(f.rest.rest);
    } else if f.F? && f.rest.F? && f.rest.rest.F? && f.rest.rest.rest.F? {
      if o.Statfs? { FourMore(f.rest.rest.rest.rest); }
      FourMore(f);
    }
  }

  lemma DataIsLast(t: Type)
    ensures DataLast(Expected(t))
  {
    if t.T? { DataIsLastT(t.op); } else { DataIsLastR(t.op); }
  }

  /** A count of 2^31 or more is negative as a C int. */
  ghost predicate BigCount(b: seq<byte>) {
    |b| >= 4 && FromLE(b[..4]) >= INT_LIMIT
  }

  /** The fields can be read up to the data, whose count is negative. */
  ghost predicate Backward(f: Fields, b: seq<byte>) {
    f.F? && if f.kind.Data? then BigCount(b) else Get(f.kind, b).Got? && Backward(f.rest, b[Get(f.kind, b).used..])
  }

  lemma {:induction false} BackwardNothing(f: Fields, b: seq<byte>)
    requires Backward(f, b)
    ensures GetAll(f, b).Nothing?
    decreases f
  {
    if !f.kind.Data? {
      BackwardNothing(f.rest, b[Get(f.kind, b).used..]);
    }
  }

  lemma {:induction false} ListSlices(b: seq<byte>)
    ensures forall k: nat :: 2 + k <= |b| ==> b[2..][k..] == b[2 + k..]
  {
  }

  lemma {:induction false} SliceRest(b: seq<byte>, start: nat, p: nat, ep: nat)
    requires start <= p <= ep <= |b|
    ensures b[start..ep][p - start..] == b[p..ep]
  {
  }

  lemma {:induction false} Slice(b: seq<byte>, k: nat, n: nat)
    ensures k + n <= |b| ==> b[k..][..n] == b[k..k + n] && b[k..][n..] == b[k + n..]
  {
  }

  /** Reading one item more, and what an item that cannot be read means for the whole list. */
  lemma {:induction false} GetStrsNext(i: nat, n: nat, b: seq<byte>, used: nat)
    requires i < n && GetStrs(i, b).Got? && GetStrs(i, b).used == used
    ensures var x := GetStr(b[used..]);
            if x.Nothing? then GetStrs(n, b).Nothing?
            else GetStrs(i + 1, b) == Got(GetStrs(i, b).v + [x.v], used + x.used)
  {
    if i == 0 {
      assert b[0..] == b;
      var x := GetStr(b);
      if x.Got? {
        assert GetStrs(0, b[x.used..]) == Got([], 0);
        assert [x.v] + [] == [x.v] == [] + [x.v];
      }
    } else {
      var y := GetStr(b);
      var c := b[y.used..];
      var rest := GetStrs(i - 1, c);
      assert c[rest.used..] == b[used..];
      GetStrsNext(i - 1, n - 1, c, rest.used);
      var x := GetStr(b[used..]);
      if x.Got? {
        assert [y.v] + (rest.v + [x.v]) == [y.v] + rest.v + [x.v];
      }
    }
  }

  /** Reading one item more, and what an item that cannot be read means for the whole list. */
  lemma {:induction false} GetQidsNext(i: nat, n: nat, b: seq<byte>, used: nat)
    requires i < n && GetQids(i, b).Got? && GetQids(i, b).used == used
    ensures var x := GetQid(b[used..]);
            if x.Nothing? then GetQids(n, b).Nothing?
            else GetQids(i + 1, b) == Got(GetQids(i, b).v + [x.v], used + x.used)
  {
    if i == 0 {
      assert b[0..] == b;
      var x := GetQid(b);
      if x.Got? {
        assert GetQids(0, b[x.used..]) == Got([], 0);
        assert [x.v] + [] == [x.v] == [] + [x.v];
      }
    } else {
      var y := GetQid(b);
      var c := b[y.used..];
      var rest := GetQids(i - 1, c);
      assert c[rest.used..] == b[used..];
      GetQidsNext(i - 1, n - 1, c, rest.used);
      var x := GetQid(b[used..]);
      if x.Got? {
        assert [y.v] + (rest.v + [x.v]) == [y.v] + rest.v + [x.v];
      }
    }
  }

  // ---- builders and np_deserialize ----

  /** The np_create functions: room for the header and the fields, then the fields one by one.
      The cursor ends exactly at the end of the packet. */
  method Create(t: Type, vals: Vals) returns (pkt: array<byte>)
    requires Codec.Valid(Msg(t, NOTAG, vals))
    ensures fresh(pkt) && pkt[..] == Encode(Msg(t, NOTAG, vals))
  {
    SizeIs(t, vals);
    var size := HEADER + SizeOf(t, vals);
    pkt := new byte[size];
    var buf := new Cbuf(pkt, 0, size);
    PutHeader(buf, size, Code(t));
    buf.PutFields(Created(t), vals);
    assert !buf.Overflow() && buf.p == buf.ep;    // np_post_check
    buf.HoldsAll(size);
    WholePacket(pkt, buf.past, size);
    EncodeIs(t, vals, buf.past);
  }

  lemma {:induction false} EncodeIs(t: Type, vals: Vals, packet: seq<byte>)
    requires Codec.Valid(Msg(t, NOTAG, vals)) && SizeOf(t, vals) == |PutAll(Created(t), vals)|
    requires packet == Header(HEADER + SizeOf(t, vals), Code(t), NOTAG) + PutAll(Created(t), vals)
    ensures packet == Encode(Msg(t, NOTAG, vals))
  {
  }

  lemma {:induction false} WholePacket(pkt: array<byte>, past: seq<byte>, size: nat)
    requires size == pkt.Length == |past| && pkt[..size] == past[..size]
    ensures pkt[..] == past
  {
  }

  /** np_create_common. */
  method PutHeader(buf: Cbuf, size: nat, code: nat)
    requires buf.Valid() && buf.p == 0 && HEADER <= buf.ep && buf.past == []
    modifies buf, buf.data
    ensures buf.Valid() && buf.p == HEADER && buf.past == Header(size, code, NOTAG)
  {
    ghost var a, c, n := LE(size, 4), LE(code, 1), LE(NOTAG, 2);
    buf.PutInt(size, 4);
    buf.PutInt(code, 1);
    buf.PutInt(NOTAG, 2);
    assert [] + a == a;
  }

  /** `x` as a 32-bit C int. */
  function Int32(x: int): int {
    (x + INT_LIMIT) % (2 * INT_LIMIT) - INT_LIMIT
  }

  lemma {:induction false} IntSize(d: seq<byte>, size: nat)
    requires |d| >= 4 && size == FromLE(d[..4])
    ensures Int32(size - 4) == if size - 4 < INT_LIMIT then size - 4 else size - 4 - 2 * INT_LIMIT
    ensures size - 4 >= INT_LIMIT ==> Int32(size - 4) < 0
  {
    FromLEBound(d[..4]);
    assert Pow256(4) == 2 * INT_LIMIT;
  }

  /** A packet with a data count that is negative as a C int. */
  ghost predicate Negative(pkt: seq<byte>)
    requires PeekSize(pkt) <= |pkt|
  {
    var size := PeekSize(pkt);
    HEADER <= size && size - 4 < INT_LIMIT &&
      var t := FromCode(FromLE(pkt[4..5]));
      t.Some? && Backward(Expected(t.value), pkt[HEADER..size])
  }

  /** Such a packet is no message. */
  lemma {:induction false} NegativeIsNone(pkt: seq<byte>)
    requires PeekSize(pkt) <= |pkt| && Negative(pkt)
    ensures Decode(pkt).None?
  {
    BackwardNothing(Expected(FromCode(FromLE(pkt[4..5])).value), pkt[HEADER..PeekSize(pkt)]);
  }

  /** np_deserialize: it accepts exactly the packets that begin with a message, and those whose data count is
      negative as an int, which do not. */
  method Deserialize(pkt: array<byte>) returns (accepted: bool, r: Option<Msg>)
    requires 4 <= pkt.Length && PeekSize(pkt[..]) <= pkt.Length
    ensures accepted <==> Decode(pkt[..]).Some? || Negative(pkt[..])
    ensures r == Decode(pkt[..])
  {
    var d := pkt[..];
    assert d[0..4] == d[..4] && d[0..4][..4] == d[..4];
    accepted, r := false, None;
    var head := new Reader(d, 0, 4);
    var n := head.GetInt(4);
    var size: int := n;
    IntSize(d, size);
    var buf := new Reader(d, 4, Int32(size - 4));
    var code, tag := GetTypeAndTag(buf, size);
    var t := FromCode(code);
    if t.None? {
      return;
    }
    DataIsLast(t.value);
    var ok, vals, back := buf.GetFields(Expected(t.value));
    if !ok || buf.Overflow() {
      return;
    }
    accepted := true;
    if back {
      NegativeIsNone(d);
    } else {
      r := Some(Msg(t.value, tag, vals));
    }
  }

  lemma {:induction false} CountBound(b: seq<byte>)
    requires |b| == 4
    ensures FromLE(b) < 2 * INT_LIMIT
    ensures Int32(FromLE(b)) == if FromLE(b) < INT_LIMIT then FromLE(b) else FromLE(b) - 2 * INT_LIMIT
  {
    FromLEBound(b);
    assert Pow256(4) == 2 * INT_LIMIT;
  }

  /** A packet of a type that carries data alone, as Rread and Rreaddir do, and that ends with a count of
      2^31 or more is one of those. */
  lemma {:induction false} BackwardsCount(pkt: seq<byte>, t: Type, tag: nat, size: nat, count: seq<byte>)
    requires Known(t) && Expected(t) == F(Payload, Data, End)
    requires tag < Pow256(2) && size == HEADER + 4 && |count| == 4 && FromLE(count) >= INT_LIMIT
    requires Code(t) < Pow256(1) && size < Pow256(4) && pkt == Header(size, Code(t), tag) + count
    ensures PeekSize(pkt) == |pkt| == size && Negative(pkt) && Decode(pkt).None?
  {
    CodeReads(t);
    HeaderReads(pkt, size, Code(t), tag);
    assert pkt[HEADER..size] == count && count[..4] == count;
    assert Backward(Expected(t), pkt[HEADER..size]);
    NegativeIsNone(pkt);
  }

  method GetTypeAndTag(buf: Reader, ghost size: nat) returns (code: nat, tag: nat)
    requires buf.Valid() && buf.p == 4 && buf.ep <= size && (buf.ep < 4 || buf.ep == size)
    modifies buf
    ensures buf.Valid()
    ensures if buf.ep == size && size >= HEADER then
              && !buf.Overflow() && buf.Ahead() == buf.data[HEADER..size]
              && code == FromLE(buf.data[4..5]) && tag == FromLE(buf.data[5..7])
            else buf.Overflow() || size > buf.ep
    ensures buf.ep < HEADER ==> buf.Overflow()
  {
    code := buf.GetInt(1);
    tag := buf.GetInt(2);
    if buf.ep >= HEADER {
      ghost var d := buf.data;
      assert d[4..size][..1] == d[4..5] && d[4..size][1..][..2] == d[5..7] && d[4..size][1..][2..] == d[7..size];
    }
  }

  /** Overwrites four bytes with an integer. */
  method PutAt(pkt: array<byte>, at: nat, val: nat)
    requires at + 4 <= pkt.Length
    modifies pkt
    ensures pkt[..] == old(pkt[..at]) + LE(val, 4) + old(pkt[at + 4..])
  {
    var i: nat, v := 0, val;
    while i < 4
      invariant i <= 4 && pkt[at + i..] == old(pkt[at + i..]) && pkt[..at + i] + LE(v, 4 - i) == old(pkt[..at]) + LE(val, 4)
    {
      Cbuf.PutOne(pkt[..at + i], v, 4 - i);
      pkt[at + i] := v % 256;
      assert pkt[..at + i + 1] == pkt[..at + i] + [v % 256];
      assert pkt[at + i + 1..] == pkt[at + i..][1..];
      v := v / 256;
      i := i + 1;
    }
    assert pkt[..] == pkt[..at + 4] + pkt[at + 4..];
    assert pkt[..at + 4] + LE(v, 0) == pkt[..at + 4];
  }

  /** np_set_tag. */
  method SetTag(pkt: array<byte>, tag: nat)
    requires pkt.Length >= HEADER
    modifies pkt
    ensures pkt[..] == WithTag(old(pkt[..]), tag)
  {
    pkt[5] := tag % 256;
    pkt[6] := tag / 256 % 256;
  }

  /** np_set_rread_count and np_finalize_rreaddir. */
  method SetCount(pkt: array<byte>, count: nat)
    requires pkt.Length >= 11
    modifies pkt
    ensures pkt[..] == WithCount(old(pkt[..]), count)
  {
    PutAt(pkt, 0, 11 + count);
    ghost var a, was := LE(11 + count, 4), old(pkt[..]);
    assert pkt[..] == a + was[4..];
    assert pkt[..7] == a + was[4..7] && pkt[11..] == was[11..];
    PutAt(pkt, 7, count);
  }
}
