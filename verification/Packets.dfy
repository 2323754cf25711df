/** The layout of some packets as 9P2000.L has it: the type byte, and the fields in order. */
module Packets {
  import opened Common
  import opened Wire
  import opened Messages
  import opened Codec

  /** The packet of `m` is a size, a type byte, a tag and these fields, and it decodes to `m`. */
  ghost predicate IsPacket(m: Msg, code: byte, body: seq<byte>) {
    && Codec.Valid(m) && Encode(m) == LE(7 + |body|, 4) + [code] + LE(m.tag, 2) + body
    && PeekSize(Encode(m)) == |Encode(m)| && Decode(Encode(m)) == Some(m)
  }

  /** Least significant byte first. */
  lemma LittleEndian()
    ensures LE(0x0403_0201, 4) == [1, 2, 3, 4] && LE(0x0201, 2) == [1, 2]
  {
    assert LE(0x0403, 2) == [3, 4];
  }

  // ---- fields and headers ----

  lemma More(f: Fields, v: Vals, x: seq<byte>, rest: seq<byte>)
    requires f.F? && v.V? && v.name == f.name && Fits(f.kind, v.val) && Put(f.kind, v.val) == x
    requires Carries(f.rest, v.rest) && PutAll(f.rest, v.rest) == rest
    ensures Carries(f, v) && PutAll(f, v) == x + rest
  {
  }

  lemma Last(f: Fields, v: Vals, x: seq<byte>)
    requires f.F? && f.rest.End? && v.V? && v.rest.NoMore? && v.name == f.name && Fits(f.kind, v.val) && Put(f.kind, v.val) == x
    ensures Carries(f, v) && PutAll(f, v) == x
  {
    assert x + [] == x;
  }

  lemma Whole(m: Msg, f: Fields, body: seq<byte>)
    requires Known(m.mtype) && Created(m.mtype) == f && Carries(f, m.vals) && PutAll(f, m.vals) == body
    requires HEADER + |body| < INT_LIMIT && m.tag < Pow256(2)
    ensures IsPacket(m, Code(m.mtype), body)
  {
    assert LE(Code(m.mtype), 1) == [Code(m.mtype)] by { assert LE(Code(m.mtype) / 256, 0) == []; }
    RoundTrip(m);
  }

  // ---- packets ----

  /** Tversion: msize[4] version[s]. */
  lemma VersionPacket(m: Msg, msize: Val, version: Val)
    requires m == Msg(T(Version), m.tag, V(Msize, msize, V(TheVersion, version, NoMore)))
    requires Fits(U32, msize) && Fits(Str, version)
    requires m.tag < Pow256(2) && HEADER + |Put(U32, msize) + Put(Str, version)| < INT_LIMIT
    ensures IsPacket(m, 100, Put(U32, msize) + Put(Str, version))
  {
    var f, v := Created(m.mtype), m.vals;
    Last(f.rest, v.rest, Put(Str, version));
    More(f, v, Put(U32, msize), Put(Str, version));
    Whole(m, f, Put(U32, msize) + Put(Str, version));
  }

  /** Tattach: fid[4] afid[4] uname[s] aname[s] n_uname[4]. */
  lemma AttachPacket(m: Msg, fid: Val, afid: Val, uname: Val, aname: Val, nUname: Val)
    requires m == Msg(T(Attach), m.tag, V(Fid, fid, V(AFid, afid, V(Uname, uname, V(Aname, aname, V(NUname, nUname, NoMore))))))
    requires Fits(U32, fid) && Fits(U32, afid) && Fits(Str, uname) && Fits(Str, aname) && Fits(U32, nUname)
    requires m.tag < Pow256(2) && HEADER + |Put(U32, fid) + (Put(U32, afid) + (Put(Str, uname) + (Put(Str, aname) + Put(U32, nUname))))| < INT_LIMIT
    ensures IsPacket(m, 104, Put(U32, fid) + (Put(U32, afid) + (Put(Str, uname) + (Put(Str, aname) + Put(U32, nUname)))))
  {
    var f, v := Created(m.mtype), m.vals;
    Last(f.rest.rest.rest.rest, v.rest.rest.rest.rest, Put(U32, nUname));
    More(f.rest.rest.rest, v.rest.rest.rest, Put(Str, aname), Put(U32, nUname));
    More(f.rest.rest, v.rest.rest, Put(Str, uname), Put(Str, aname) + Put(U32, nUname));
    More(f.rest, v.rest, Put(U32, afid), Put(Str, uname) + (Put(Str, aname) + Put(U32, nUname)));
    More(f, v, Put(U32, fid), Put(U32, afid) + (Put(Str, uname) + (Put(Str, aname) + Put(U32, nUname))));
    Whole(m, f, Put(U32, fid) + (Put(U32, afid) + (Put(Str, uname) + (Put(Str, aname) + Put(U32, nUname)))));
  }

  /** Twalk: fid[4] newfid[4] nwname[2] nwname*(wname[s]). */
  lemma WalkPacket(m: Msg, fid: Val, newfid: Val, names: Val)
    requires m == Msg(T(Walk), m.tag, V(Fid, fid, V(NewFid, newfid, V(WNames, names, NoMore))))
    requires Fits(U32, fid) && Fits(U32, newfid) && Fits(Names, names)
    requires m.tag < Pow256(2) && HEADER + |Put(U32, fid) + (Put(U32, newfid) + Put(Names, names))| < INT_LIMIT
    ensures IsPacket(m, 110, Put(U32, fid) + (Put(U32, newfid) + Put(Names, names)))
  {
    var f, v := Created(m.mtype), m.vals;
    Last(f.rest.rest, v.rest.rest, Put(Names, names));
    More(f.rest, v.rest, Put(U32, newfid), Put(Names, names));
    More(f, v, Put(U32, fid), Put(U32, newfid) + Put(Names, names));
    Whole(m, f, Put(U32, fid) + (Put(U32, newfid) + Put(Names, names)));
  }

  /** Rlopen: qid[13] iounit[4]. */
  lemma OpenedPacket(m: Msg, qid: Val, iounit: Val)
    requires m == Msg(R(Lopen), m.tag, V(TheQid, qid, V(Iounit, iounit, NoMore)))
    requires Fits(Qid, qid) && Fits(U32, iounit)
    requires m.tag < Pow256(2) && HEADER + |Put(Qid, qid) + Put(U32, iounit)| < INT_LIMIT
    ensures IsPacket(m, 13, Put(Qid, qid) + Put(U32, iounit))
  {
    var f, v := Created(m.mtype), m.vals;
    Last(f.rest, v.rest, Put(U32, iounit));
    More(f, v, Put(Qid, qid), Put(U32, iounit));
    Whole(m, f, Put(Qid, qid) + Put(U32, iounit));
  }

  /** Twrite: fid[4] offset[8] count[4] data[count]. */
  lemma WritePacket(m: Msg, fid: Val, offset: Val, data: Val)
    requires m == Msg(T(Write), m.tag, V(Fid, fid, V(Offset, offset, V(Payload, data, NoMore))))
    requires Fits(U32, fid) && Fits(U64, offset) && Fits(Data, data)
    requires m.tag < Pow256(2) && HEADER + |Put(U32, fid) + (Put(U64, offset) + Put(Data, data))| < INT_LIMIT
    ensures IsPacket(m, 118, Put(U32, fid) + (Put(U64, offset) + Put(Data, data)))
  {
    var f, v := Created(m.mtype), m.vals;
    Last(f.rest.rest, v.rest.rest, Put(Data, data));
    More(f.rest, v.rest, Put(U64, offset), Put(Data, data));
    More(f, v, Put(U32, fid), Put(U64, offset) + Put(Data, data));
    Whole(m, f, Put(U32, fid) + (Put(U64, offset) + Put(Data, data)));
  }

  /** Rread: count[4] data[count]. */
  lemma ReadPacket(m: Msg, data: Val)
    requires m == Msg(R(Read), m.tag, V(Payload, data, NoMore))
    requires Fits(Data, data)
    requires m.tag < Pow256(2) && HEADER + |Put(Data, data)| < INT_LIMIT
    ensures IsPacket(m, 117, Put(Data, data))
  {
    var f, v := Created(m.mtype), m.vals;
    Last(f, v, Put(Data, data));
    Whole(m, f, Put(Data, data));
  }

  /** Rlerror: ecode[4]. */
  lemma ErrorPacket(m: Msg, ecode: Val)
    requires m == Msg(R(Lerror), m.tag, V(Ecode, ecode, NoMore))
    requires Fits(U32, ecode)
    requires m.tag < Pow256(2) && HEADER + |Put(U32, ecode)| < INT_LIMIT
    ensures IsPacket(m, 7, Put(U32, ecode))
  {
    var f, v := Created(m.mtype), m.vals;
    Last(f, v, Put(U32, ecode));
    Whole(m, f, Put(U32, ecode));
  }

  /** Tflush: oldtag[2]. */
  lemma FlushPacket(m: Msg, oldtag: Val)
    requires m == Msg(T(Flush), m.tag, V(OldTag, oldtag, NoMore))
    requires Fits(U16, oldtag)
    requires m.tag < Pow256(2) && HEADER + |Put(U16, oldtag)| < INT_LIMIT
    ensures IsPacket(m, 108, Put(U16, oldtag))
  {
    var f, v := Created(m.mtype), m.vals;
    Last(f, v, Put(U16, oldtag));
    Whole(m, f, Put(U16, oldtag));
  }

  /** Tlink: dfid[4] fid[4] name[s]. */
  lemma LinkPacket(m: Msg, dfid: Val, fid: Val, name: Val)
    requires m == Msg(T(Link), m.tag, V(DFid, dfid, V(Fid, fid, V(Name, name, NoMore))))
    requires Fits(U32, dfid) && Fits(U32, fid) && Fits(Str, name)
    requires m.tag < Pow256(2) && HEADER + |Put(U32, dfid) + (Put(U32, fid) + Put(Str, name))| < INT_LIMIT
    ensures IsPacket(m, 70, Put(U32, dfid) + (Put(U32, fid) + Put(Str, name)))
  {
    var f, v := Created(m.mtype), m.vals;
    Last(f.rest.rest, v.rest.rest, Put(Str, name));
    More(f.rest, v.rest, Put(U32, fid), Put(Str, name));
    More(f, v, Put(U32, dfid), Put(U32, fid) + Put(Str, name));
    Whole(m, f, Put(U32, dfid) + (Put(U32, fid) + Put(Str, name)));
  }

  /** Trename: fid[4] dfid[4] name[s]. */
  lemma RenamePacket(m: Msg, fid: Val, dfid: Val, name: Val)
    requires m == Msg(T(Rename), m.tag, V(Fid, fid, V(DFid, dfid, V(Name, name, NoMore))))
    requires Fits(U32, fid) && Fits(U32, dfid) && Fits(Str, name)
    requires m.tag < Pow256(2) && HEADER + |Put(U32, fid) + (Put(U32, dfid) + Put(Str, name))| < INT_LIMIT
    ensures IsPacket(m, 20, Put(U32, fid) + (Put(U32, dfid) + Put(Str, name)))
  {
    var f, v := Created(m.mtype), m.vals;
    Last(f.rest.rest, v.rest.rest, Put(Str, name));
    More(f.rest, v.rest, Put(U32, dfid), Put(Str, name));
    More(f, v, Put(U32, fid), Put(U32, dfid) + Put(Str, name));
    Whole(m, f, Put(U32, fid) + (Put(U32, dfid) + Put(Str, name)));
  }

  /** Tflush with tag 1 of tag 0x0205. */
  lemma FlushBytes(m: Msg, oldtag: Val, b: seq<byte>)
    requires m == Msg(T(Flush), 1, V(OldTag, oldtag, NoMore)) && oldtag == Num(0x0205)
    requires b == [9, 0, 0, 0] + [108] + [1, 0] + [5, 2]
    ensures Codec.Valid(m) && Encode(m) == b
  {
    SmallNumbers();
    FlushPacket(m, oldtag);
    assert Put(U16, oldtag) == LE(0x0205, 2);
  }

  lemma SmallNumbers()
    ensures LE(9, 4) == [9, 0, 0, 0] && LE(1, 2) == [1, 0] && LE(0x0205, 2) == [5, 2] && Pow256(2) == 65536
  {
  }
}
