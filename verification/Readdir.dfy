/**
  Reading a directory page by page: np_ctl_readdir fills a reply with the entries that fit, and
  npc_readdir_r hands them out one by one and asks for the next page at the offset of the last.
*/
module Readdir {
  import opened Common
  import opened Wire
  import CbufModule

  const DT_DIR: nat := 4
  const DT_REG: nat := 8
  const PATH_MAX: nat := 4096

  datatype Child = Child(qid: QidVal, name: seq<byte>)

  /** What the client learns of an entry. */
  datatype Entry = Entry(qid: QidVal, off: nat, dtype: nat, name: seq<byte>)

  /** A child that can be put into an entry and taken out again. */
  predicate Proper(c: Child) {
    QidFits(c.qid) && |c.name| <= PATH_MAX
  }

  predicate Directory(cs: seq<Child>) {
    |cs| < Pow256(8) - 1 && forall k :: 0 <= k < |cs| ==> Proper(cs[k])
  }

  /** The entry of a child at place `off`: it carries the place after it. */
  function EntryOf(c: Child, off: nat): Entry {
    Entry(c.qid, off + 1, if c.qid.qtype / 128 % 2 == 1 then DT_DIR else DT_REG, c.name)
  }

  function Size(c: Child): nat {
    24 + |c.name|
  }

  function PutEntry(e: Entry): (b: seq<byte>)
    ensures |b| == 24 + |e.name|
  {
    PutQid(e.qid) + LE(e.off, 8) + LE(e.dtype, 1) + PutStr(e.name)
  }

  function GetEntry(b: seq<byte>): (r: Got<Entry>)
    ensures r.Got? ==> r.used <= |b|
  {
    if |b| < 22 then Nothing
    else
      var s := GetStr(b[22..]);
      if s.Nothing? then Nothing
      else Got(Entry(GetQid(b).v, GetInt(8, b[13..]).v, GetInt(1, b[21..]).v, s.v), 22 + s.used)
  }

  lemma {:induction false} EntryParts(b: seq<byte>, x: seq<byte>, y: seq<byte>, z: seq<byte>, s: seq<byte>)
    requires |x| == 13 && |y| == 8 && |z| == 1 && x + y + z + s <= b
    ensures x <= b && y <= b[13..] && z <= b[21..] && s <= b[22..]
  {
    var q := x + y + z + s;
    assert b[..13] == q[..13] == x && b[13..][..8] == q[13..21] == y;
    assert b[21..][..1] == q[21..22] == z && b[22..][..|s|] == q[22..] == s;
  }

  lemma {:induction false} EntryReads(b: seq<byte>, e: Entry)
    requires QidFits(e.qid) && e.off < Pow256(8) && e.dtype < Pow256(1) && StrFits(e.name) && PutEntry(e) <= b
    ensures GetEntry(b) == Got(e, |PutEntry(e)|)
  {
    EntryParts(b, PutQid(e.qid), LE(e.off, 8), LE(e.dtype, 1), PutStr(e.name));
    QidReads(b, e.qid);
    IntReads(b[13..], e.off, 8);
    IntReads(b[21..], e.dtype, 1);
    StrReads(b[22..], e.name, 2);
  }

  // ---- pages ----

  /** How many entries from `off` on fit into `count` bytes. */
  function Fit(cs: seq<Child>, off: nat, count: nat): (n: nat)
    ensures off <= |cs| ==> off + n <= |cs|
    ensures n > 0 <==> off < |cs| && Size(cs[off]) <= count
    decreases |cs| - off
  {
    if off < |cs| && Size(cs[off]) <= count then 1 + Fit(cs, off + 1, count - Size(cs[off])) else 0
  }

  /** The bytes that the entries from `off` up to `end` take. */
  function Bytes(cs: seq<Child>, off: nat, end: nat): nat
    requires end <= |cs|
    decreases end - off
  {
    if off >= end then 0 else Size(cs[off]) + Bytes(cs, off + 1, end)
  }

  /** They fit, and one more would not. */
  lemma {:induction false} FitMaximal(cs: seq<Child>, off: nat, count: nat)
    requires off <= |cs|
    ensures var end := off + Fit(cs, off, count);
            Bytes(cs, off, end) <= count && (end < |cs| ==> Bytes(cs, off, end + 1) > count)
    decreases |cs| - off
  {
    if off < |cs| && Size(cs[off]) <= count {
      FitMaximal(cs, off + 1, count - Size(cs[off]));
    } else if off < |cs| {
      assert Bytes(cs, off, off + 1) == Size(cs[off]) + Bytes(cs, off + 1, off + 1);
    }
  }

  /** The entries of a directory as bytes, from place `k` on. */
  function EncodedFrom(cs: seq<Child>, k: nat): (es: seq<seq<byte>>)
    requires k <= |cs|
    ensures |es| == |cs| - k
    decreases |cs| - k
  {
    if k == |cs| then [] else [PutEntry(EntryOf(cs[k], k))] + EncodedFrom(cs, k + 1)
  }

  function Encoded(cs: seq<Child>): seq<seq<byte>> {
    EncodedFrom(cs, 0)
  }

  lemma {:induction false} EncodedDrop(cs: seq<Child>, k: nat, i: nat)
    requires k <= i <= |cs|
    ensures EncodedFrom(cs, k)[i - k..] == EncodedFrom(cs, i)
    decreases i - k
  {
    if k < i {
      EncodedDrop(cs, k + 1, i);
      Behind(PutEntry(EntryOf(cs[k], k)), EncodedFrom(cs, k + 1), i - k);
    }
  }

  lemma {:induction false} Behind(first: seq<byte>, rest: seq<seq<byte>>, n: nat)
    requires 0 < n <= |rest| + 1
    ensures ([first] + rest)[n..] == rest[n - 1..]
  {
  }

  lemma {:induction false} EntrySize(c: Child, i: nat)
    ensures |PutEntry(EntryOf(c, i))| == Size(c)
  {
  }

  lemma {:induction false} EncodedAt(cs: seq<Child>, i: nat)
    requires i < |cs|
    ensures Encoded(cs)[i] == PutEntry(EntryOf(cs[i], i)) && |Encoded(cs)[i]| == Size(cs[i])
  {
    EncodedDrop(cs, 0, i);
    assert Encoded(cs)[i] == Encoded(cs)[i..][0];
    EntrySize(cs[i], i);
  }

  /** The entries of the places from `off` up to `end`. */
  function Page(es: seq<seq<byte>>, off: nat, end: nat): seq<byte>
    requires end <= |es|
    decreases end - off
  {
    if off >= end then [] else es[off] + Page(es, off + 1, end)
  }

  lemma {:induction false} PageGrows(es: seq<seq<byte>>, off: nat, end: nat)
    requires off <= end < |es|
    ensures Page(es, off, end + 1) == Page(es, off, end) + es[end]
    decreases end - off
  {
    if off < end {
      PageGrows(es, off + 1, end);
      Common.Assoc(es[off], Page(es, off + 1, end), es[end]);
    }
  }

  /** np_serialize_p9dirent; an empty result means that the entry does not fit. */
  method SerializeDirent(cs: seq<Child>, off: nat, room: nat) returns (b: seq<byte>)
    requires off < |cs|
    ensures b == if Size(cs[off]) <= room then Encoded(cs)[off] else []
    ensures |Encoded(cs)[off]| == Size(cs[off])
  {
    EncodedAt(cs, off);
    var c := cs[off];
    if Size(c) > room {
      return [];
    }
    b := PutEntry(EntryOf(c, off));
  }

  /** np_ctl_readdir: all entries from `offset` on that fit, in order. */
  method CtlReaddir(cs: seq<Child>, offset: nat, count: nat) returns (data: seq<byte>)
    ensures data == if offset <= |cs| then Page(Encoded(cs), offset, offset + Fit(cs, offset, count)) else []
    ensures |data| <= count
  {
    data := [];
    var off := 0;
    ghost var es, all := Encoded(cs), Fit(cs, offset, count);
    while off < |cs|
      invariant 0 <= off <= |cs| && |data| <= count
      invariant off <= offset ==> data == []
      invariant off > offset ==> data == Page(es, offset, off) && all == off - offset + Fit(cs, off, count - |data|)
    {
      if off >= offset {
        var entry := SerializeDirent(cs, off, count - |data|);
        if |entry| == 0 {
          break;
        }
        PageGrows(es, offset, off);
        data := data + entry;
      }
      off := off + 1;
    }
  }

  /** np_deserialize_p9dirent for a name buffer of PATH_MAX + 1 bytes. */
  method DeserializeDirent(b: seq<byte>) returns (n: nat, e: Entry)
    ensures var r := GetEntry(b);
            if r.Got? && |r.v.name| <= PATH_MAX then n == r.used && e == r.v else n == 0
  {
    var buf := new CbufModule.Reader(b, 0, |b|);
    assert b[0..|b|] == b;
    var q, off, dtype := GetFixed(buf, b);
    var s := buf.GetStr();
    e := Entry(q, off, dtype, s);
    if buf.Overflow() || |s| >= PATH_MAX + 1 {
      return 0, e;
    }
    n := buf.p;
  }

  method GetFixed(buf: CbufModule.Reader, ghost b: seq<byte>) returns (q: QidVal, off: nat, dtype: nat)
    requires buf.Valid() && buf.p == 0 && buf.ep == |b| && buf.Ahead() == b
    modifies buf
    ensures buf.Valid()
    ensures if |b| < 22 then buf.Overflow()
            else !buf.Overflow() && buf.p == 22 && buf.Ahead() == b[22..]
                 && q == GetQid(b).v && off == GetInt(8, b[13..]).v && dtype == GetInt(1, b[21..]).v
  {
    q := buf.GetQid();
    off := buf.GetInt(8);
    dtype := buf.GetInt(1);
    EntrySlices(b);
  }

  lemma {:induction false} EntrySlices(b: seq<byte>)
    ensures |b| >= 21 ==> b[13..][8..] == b[21..]
    ensures |b| >= 22 ==> b[21..][1..] == b[22..]
  {
  }

  lemma {:induction false} PageEmpty(cs: seq<Child>, off: nat, end: nat)
    requires end <= |cs|
    ensures Page(Encoded(cs), off, end) == [] <==> off >= end
  {
    if off < end { EncodedAt(cs, off); }
  }

  lemma {:induction false} FitSizes(cs: seq<Child>, off: nat, count: nat, k: nat)
    requires off <= k < off + Fit(cs, off, count) && off <= |cs|
    ensures k < |cs| && Size(cs[k]) <= count
    decreases |cs| - off
  {
    if off < k {
      FitSizes(cs, off + 1, count - Size(cs[off]), k);
    }
  }

  // ---- the client ----

  /** A call returns an entry, the end of the directory, or an error. */
  datatype Result = An(e: Entry) | End | Failed

  class Dir {
    const bufSize: nat
    var offset: nat
    var buf: seq<byte>        // up to buf_len
    var used: nat
    ghost var end: nat        // the place up to which `buf` reaches

    ghost function Pending(): seq<byte>
      reads this
    {
      if used <= |buf| then buf[used..] else []
    }

    /** The unused part of the buffer holds the entries from `offset` on. */
    ghost predicate Valid(cs: seq<Child>)
      reads this
    {
      && offset <= end <= |cs| && Pending() == Page(Encoded(cs), offset, end)
      && forall k :: offset <= k < end ==> Size(cs[k]) <= bufSize
    }

    /** npc_opendir. */
    constructor (size: nat, ghost cs: seq<Child>)
      ensures Valid(cs) && offset == 0 && bufSize == size
    {
      bufSize, offset, buf, used, end := size, 0, [], 0, 0;
    }

    /** npc_readdir_r on a directory that does not change. */
    method ReaddirR(cs: seq<Child>) returns (r: Result)
      requires Directory(cs) && Valid(cs)
      modifies this
      ensures Valid(cs)
      ensures if old(offset) < |cs| && Size(cs[old(offset)]) <= bufSize
              then r == An(EntryOf(cs[old(offset)], old(offset))) && offset == old(offset) + 1
              else r == End && offset == old(offset)
    {
      PageEmpty(cs, offset, end);
      if used >= |buf| {
        Refill(cs);
        if |buf| == 0 {
          return End;
        }
        used := 0;
      }
      r := TakeEntry(cs);
    }

    /** The next page, from `offset` on; an empty one means the end. */
    method Refill(cs: seq<Child>)
      requires offset <= |cs|
      modifies this`buf, this`end
      ensures offset <= end <= |cs| && buf == Page(Encoded(cs), offset, end)
      ensures buf == [] <==> offset == end
      ensures offset < end <==> offset < |cs| && Size(cs[offset]) <= bufSize
      ensures forall k :: offset <= k < end ==> Size(cs[k]) <= bufSize
    {
      buf := CtlReaddir(cs, offset, bufSize);
      end := offset + Fit(cs, offset, bufSize);
      PageEmpty(cs, offset, end);
      forall k | offset <= k < end ensures Size(cs[k]) <= bufSize {
        FitSizes(cs, offset, bufSize, k);
      }
    }

    method TakeEntry(cs: seq<Child>) returns (r: Result)
      requires Directory(cs) && Valid(cs) && used < |buf| && offset < end
      modifies this
      ensures Valid(cs) && offset == old(offset) + 1 && r == An(EntryOf(cs[old(offset)], old(offset)))
    {
      FirstEntry(cs, offset, end, buf[used..]);
      var n, e := DeserializeDirent(buf[used..]);
      if n == 0 {
        return Failed;
      }
      assert buf[used..][n..] == buf[used + n..];
      offset := e.off;
      used := used + n;
      r := An(e);
    }
  }

  /** The first entry of a page is read back, and what follows is the rest of the page. */
  lemma {:induction false} FirstEntry(cs: seq<Child>, off: nat, end: nat, b: seq<byte>)
    requires Directory(cs) && off < end <= |cs| && b == Page(Encoded(cs), off, end)
    ensures GetEntry(b) == Got(EntryOf(cs[off], off), Size(cs[off]))
    ensures Size(cs[off]) <= |b| && b[Size(cs[off])..] == Page(Encoded(cs), off + 1, end)
  {
    var e := EntryOf(cs[off], off);
    EncodedAt(cs, off);
    assert b == PutEntry(e) + Page(Encoded(cs), off + 1, end);
    assert Proper(cs[off]);
    assert Pow256(1) == 256 && Pow256(2) == 65536;
    EntryReads(b, e);
  }

  // ---- the whole directory ----

  ghost predicate Returned(cs: seq<Child>, size: nat, es: seq<Entry>) {
    |es| <= |cs| && forall k :: 0 <= k < |es| ==> es[k] == EntryOf(cs[k], k) && Size(cs[k]) <= size
  }

  ghost function Answer(cs: seq<Child>, size: nat, n: nat): Result {
    if n < |cs| && Size(cs[n]) <= size then An(EntryOf(cs[n], n)) else End
  }

  /** The place of the first entry that is too large for the buffer. */
  function Reached(cs: seq<Child>, size: nat, from: nat): (n: nat)
    requires from <= |cs|
    ensures from <= n <= |cs|
    ensures forall k :: from <= k < n ==> Size(cs[k]) <= size
    ensures n < |cs| ==> Size(cs[n]) > size
    decreases |cs| - from
  {
    if from < |cs| && Size(cs[from]) <= size then Reached(cs, size, from + 1) else from
  }

  /** Reading until the end: every child once and in order, up to the first whose entry does not
      fit the buffer; so all of them exactly when every entry fits. */
  method ReadAll(cs: seq<Child>, size: nat) returns (es: seq<Entry>)
    requires Directory(cs)
    ensures |es| == Reached(cs, size, 0) && forall k :: 0 <= k < |es| ==> es[k] == EntryOf(cs[k], k)
    ensures |es| == |cs| <==> forall k :: 0 <= k < |cs| ==> Size(cs[k]) <= size
  {
    var d := new Dir(size, cs);
    es := [];
    var r := d.ReaddirR(cs);
    while r.An?
      invariant d.Valid(cs) && d.bufSize == size && fresh(d)
      invariant Returned(cs, size, es) && r == Answer(cs, size, |es|) && d.offset == |es| + if r.An? then 1 else 0
      decreases |cs| - |es|
    {
      es := es + [r.e];
      r := d.ReaddirR(cs);
    }
  }

  /** qid[13] offset[8] type[1] name[s], the offset and the length with the least significant byte first. */
  lemma EntryLayout(e: Entry)
    ensures var b := PutEntry(e);
            && |b| == 24 + |e.name| && b[..13] == LE(e.qid.qtype, 1) + LE(e.qid.version, 4) + LE(e.qid.path, 8)
            && b[13..21] == LE(e.off, 8) && b[21..22] == LE(e.dtype, 1) && b[22..24] == LE(|e.name|, 2) && b[24..] == e.name
  {
    Laid(PutQid(e.qid), LE(e.off, 8), LE(e.dtype, 1), LE(|e.name|, 2), e.name, PutEntry(e));
  }

  lemma Laid(q: seq<byte>, o: seq<byte>, t: seq<byte>, n: seq<byte>, name: seq<byte>, b: seq<byte>)
    requires |q| == 13 && |o| == 8 && |t| == 1 && |n| == 2 && b == q + o + t + (n + name)
    ensures b[..13] == q && b[13..21] == o && b[21..22] == t && b[22..24] == n && b[24..] == name
  {
  }
}
