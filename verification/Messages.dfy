/**
  The messages of 9P2000.L as np.c knows them, in three tables written down separately: the fields
  in the order the builders put them, the fields in the order np_deserialize gets them, and the
  room the builders ask for.
*/
module Messages {
  import opened Common
  import opened Wire

  datatype Op =
    | Lerror | Statfs | Lopen | Lcreate | Symlink | Mknod | Rename | Readlink | Getattr | Setattr
    | Xattrwalk | Xattrcreate | Readdir | Fsync | Lock | Getlock | Link | Mkdir | Renameat | Unlinkat
    | Version | Auth | Attach | Flush | Walk | Read | Write | Clunk | Remove

  /** A request or its answer; there is no request for Rlerror. */
  datatype Type = T(op: Op) | R(op: Op)

  predicate Known(t: Type) {
    t != T(Lerror)
  }

  function OpCode(o: Op): (c: nat)
    ensures c < 255 && c % 2 == 0
  {
    match o
    case Lerror => 6
    case Statfs => 8
    case Lopen => 12
    case Lcreate => 14
    case Symlink => 16
    case Mknod => 18
    case Rename => 20
    case Readlink => 22
    case Getattr => 24
    case Setattr => 26
    case Xattrwalk => 30
    case Xattrcreate => 32
    case Readdir => 40
    case Fsync => 50
    case Lock => 52
    case Getlock => 54
    case Link => 70
    case Mkdir => 72
    case Renameat => 74
    case Unlinkat => 76
    case Version => 100
    case Auth => 102
    case Attach => 104
    case Flush => 108
    case Walk => 110
    case Read => 116
    case Write => 118
    case Clunk => 120
    case Remove => 122
  }

  function Code(t: Type): (c: nat)
    ensures c < 256
  {
    if t.T? then OpCode(t.op) else OpCode(t.op) + 1
  }

  function FromOpCode(c: nat): Option<Op> {
    match c
    case 6 => Some(Lerror)
    case 8 => Some(Statfs)
    case 12 => Some(Lopen)
    case 14 => Some(Lcreate)
    case 16 => Some(Symlink)
    case 18 => Some(Mknod)
    case 20 => Some(Rename)
    case 22 => Some(Readlink)
    case 24 => Some(Getattr)
    case 26 => Some(Setattr)
    case 30 => Some(Xattrwalk)
    case 32 => Some(Xattrcreate)
    case 40 => Some(Readdir)
    case 50 => Some(Fsync)
    case 52 => Some(Lock)
    case 54 => Some(Getlock)
    case 70 => Some(Link)
    case 72 => Some(Mkdir)
    case 74 => Some(Renameat)
    case 76 => Some(Unlinkat)
    case 100 => Some(Version)
    case 102 => Some(Auth)
    case 104 => Some(Attach)
    case 108 => Some(Flush)
    case 110 => Some(Walk)
    case 116 => Some(Read)
    case 118 => Some(Write)
    case 120 => Some(Clunk)
    case 122 => Some(Remove)
    case _ => None
  }

  /** The switch of np_deserialize. */
  function FromCode(c: nat): (t: Option<Type>)
    ensures t.Some? ==> Known(t.value)
  {
    var o := FromOpCode(c - c % 2);
    if o.None? || (c % 2 == 0 && o.value == Lerror) then None
    else Some(if c % 2 == 0 then T(o.value) else R(o.value))
  }

  lemma CodeReads(t: Type)
    requires Known(t)
    ensures FromCode(Code(t)) == Some(t)
  {
    assert (OpCode(t.op) + 1) % 2 == 1;
    assert FromOpCode(OpCode(t.op)) == Some(t.op);
  }

  lemma CodeIs(c: nat)
    requires FromCode(c).Some?
    ensures Code(FromCode(c).value) == c
  {
    assert OpCode(FromOpCode(c - c % 2).value) == c - c % 2;
  }

  /** The members of the fcall union. */
  datatype Label =
    | AFid | Aname | AtimeNsec | AtimeSec | AttrFid | Bavail | Bfree | Blksize | Blocks | Bsize
    | BtimeNsec | BtimeSec | ClientId | Count | CtimeNsec | CtimeSec | DFid | DataVersion | Datasync
    | DirFid | Ecode | Ffree | Fid | Files | Flag | Flags | Fsid | Gen | Gid | Iounit | Length | Major
    | Minor | Mode | Msize | MtimeNsec | MtimeSec | NUname | Name | Namelen | NewDirFid | NewFid
    | NewName | Nlink | Offset | OldDirFid | OldName | OldTag | Payload | ProcId | Rdev | RequestMask
    | Start | Status | Symtgt | Target | TheQid | TheSize | TheType | TheVersion | Uid | Uname | Valid
    | WNames | WQids

  /** The fields of a message, in the order they are on the wire. */
  datatype Fields = End | F(name: Label, kind: Kind, rest: Fields)

  /** What the np_create functions put after the header. */
  function Created(t: Type): Fields {
    if t.T? then CreatedT(t.op) else CreatedR(t.op)
  }

  function CreatedT(o: Op): Fields {
    match o
    case Lerror => End
    case Statfs => F(Fid, U32, End)
    case Lopen => F(Fid, U32, F(Flags, U32, End))
    case Lcreate => F(Fid, U32, F(Name, Str, F(Flags, U32, F(Mode, U32, F(Gid, U32, End)))))
    case Symlink => F(Fid, U32, F(Name, Str, F(Symtgt, Str, F(Gid, U32, End))))
    case Mknod =>
      var a := F(Gid, U32, End);
      F(Fid, U32, F(Name, Str, F(Mode, U32, F(Major, U32, F(Minor, U32, a)))))
    case Rename => F(Fid, U32, F(DFid, U32, F(Name, Str, End)))
    case Readlink => F(Fid, U32, End)
    case Getattr => F(Fid, U32, F(RequestMask, U64, End))
    case Setattr =>
      var a := F(TheSize, U64, F(AtimeSec, U64, F(AtimeNsec, U64, F(MtimeSec, U64, F(MtimeNsec, U64, End)))));
      F(Fid, U32, F(Valid, U32, F(Mode, U32, F(Uid, U32, F(Gid, U32, a)))))
    case Xattrwalk => F(Fid, U32, F(AttrFid, U32, F(Name, Str, End)))
    case Xattrcreate => F(Fid, U32, F(Name, Str, F(TheSize, U64, F(Flag, U32, End))))
    case Readdir => F(Fid, U32, F(Offset, U64, F(Count, U32, End)))
    case Fsync => F(Fid, U32, F(Datasync, U32, End))
    case Lock =>
      var a := F(ProcId, U32, F(ClientId, Str, End));
      F(Fid, U32, F(TheType, U8, F(Flags, U32, F(Start, U64, F(Length, U64, a)))))
    case Getlock =>
      var a := F(ClientId, Str, End);
      F(Fid, U32, F(TheType, U8, F(Start, U64, F(Length, U64, F(ProcId, U32, a)))))
    case Link => F(DFid, U32, F(Fid, U32, F(Name, Str, End)))
    case Mkdir => F(Fid, U32, F(Name, Str, F(Mode, U32, F(Gid, U32, End))))
    case Renameat => F(OldDirFid, U32, F(OldName, Str, F(NewDirFid, U32, F(NewName, Str, End))))
    case Unlinkat => F(DirFid, U32, F(Name, Str, F(Flags, U32, End)))
    case Version => F(Msize, U32, F(TheVersion, Str, End))
    case Auth => F(AFid, U32, F(Uname, Str, F(Aname, Str, F(NUname, U32, End))))
    case Attach => F(Fid, U32, F(AFid, U32, F(Uname, Str, F(Aname, Str, F(NUname, U32, End)))))
    case Flush => F(OldTag, U16, End)
    case Walk => F(Fid, U32, F(NewFid, U32, F(WNames, Names, End)))
    case Read => F(Fid, U32, F(Offset, U64, F(Count, U32, End)))
    case Write => F(Fid, U32, F(Offset, U64, F(Payload, Data, End)))
    case Clunk => F(Fid, U32, End)
    case Remove => F(Fid, U32, End)
  }

  function CreatedR(o: Op): Fields {
    match o
    case Lerror => F(Ecode, U32, End)
    case Statfs =>
      var a := F(Files, U64, F(Ffree, U64, F(Fsid, U64, F(Namelen, U32, End))));
      F(TheType, U32, F(Bsize, U32, F(Blocks, U64, F(Bfree, U64, F(Bavail, U64, a)))))
    case Lopen => F(TheQid, Qid, F(Iounit, U32, End))
    case Lcreate => F(TheQid, Qid, F(Iounit, U32, End))
    case Symlink => F(TheQid, Qid, End)
    case Mknod => F(TheQid, Qid, End)
    case Rename => End
    case Readlink => F(Target, Str, End)
    case Getattr =>
      var a := F(Nlink, U64, F(Rdev, U64, F(TheSize, U64, F(Blksize, U64, F(Blocks, U64, CreatedTimes())))));
      F(Valid, U64, F(TheQid, Qid, F(Mode, U32, F(Uid, U32, F(Gid, U32, a)))))
    case Setattr => End
    case Xattrwalk => F(TheSize, U64, End)
    case Xattrcreate => End
    case Readdir => F(Payload, Data, End)
    case Fsync => End
    case Lock => F(Status, U8, End)
    case Getlock => F(TheType, U8, F(Start, U64, F(Length, U64, F(ProcId, U32, F(ClientId, Str, End)))))
    case Link => End
    case Mkdir => F(TheQid, Qid, End)
    case Renameat => End
    case Unlinkat => End
    case Version => F(Msize, U32, F(TheVersion, Str, End))
    case Auth => F(TheQid, Qid, End)
    case Attach => F(TheQid, Qid, End)
    case Flush => End
    case Walk => F(WQids, Qids, End)
    case Read => F(Payload, Data, End)
    case Write => F(Count, U32, End)
    case Clunk => End
    case Remove => End
  }

  /** The last fields of Rgetattr. */
  function CreatedTimes(): Fields {
      var a := F(CtimeNsec, U64, F(BtimeSec, U64, F(BtimeNsec, U64, F(Gen, U64, F(DataVersion, U64, End)))));
      F(AtimeSec, U64, F(AtimeNsec, U64, F(MtimeSec, U64, F(MtimeNsec, U64, F(CtimeSec, U64, a)))))
  }

  /** What np_deserialize gets after the header. */
  function Expected(t: Type): Fields {
    if t.T? then ExpectedT(t.op) else ExpectedR(t.op)
  }

  function ExpectedT(o: Op): Fields {
    match o
    case Lerror => End
    case Statfs => F(Fid, U32, End)
    case Lopen => F(Fid, U32, F(Flags, U32, End))
    case Lcreate => F(Fid, U32, F(Name, Str, F(Flags, U32, F(Mode, U32, F(Gid, U32, End)))))
    case Symlink => F(Fid, U32, F(Name, Str, F(Symtgt, Str, F(Gid, U32, End))))
    case Mknod =>
      var a := F(Gid, U32, End);
      F(Fid, U32, F(Name, Str, F(Mode, U32, F(Major, U32, F(Minor, U32, a)))))
    case Rename => F(Fid, U32, F(DFid, U32, F(Name, Str, End)))
    case Readlink => F(Fid, U32, End)
    case Getattr => F(Fid, U32, F(RequestMask, U64, End))
    case Setattr =>
      var a := F(TheSize, U64, F(AtimeSec, U64, F(AtimeNsec, U64, F(MtimeSec, U64, F(MtimeNsec, U64, End)))));
      F(Fid, U32, F(Valid, U32, F(Mode, U32, F(Uid, U32, F(Gid, U32, a)))))
    case Xattrwalk => F(Fid, U32, F(AttrFid, U32, F(Name, Str, End)))
    case Xattrcreate => F(Fid, U32, F(Name, Str, F(TheSize, U64, F(Flag, U32, End))))
    case Readdir => F(Fid, U32, F(Offset, U64, F(Count, U32, End)))
    case Fsync => F(Fid, U32, F(Datasync, U32, End))
    case Lock =>
      var a := F(ProcId, U32, F(ClientId, Str, End));
      F(Fid, U32, F(TheType, U8, F(Flags, U32, F(Start, U64, F(Length, U64, a)))))
    case Getlock =>
      var a := F(ClientId, Str, End);
      F(Fid, U32, F(TheType, U8, F(Start, U64, F(Length, U64, F(ProcId, U32, a)))))
    case Link => F(DFid, U32, F(Fid, U32, F(Name, Str, End)))
    case Mkdir => F(Fid, U32, F(Name, Str, F(Mode, U32, F(Gid, U32, End))))
    case Renameat => F(OldDirFid, U32, F(OldName, Str, F(NewDirFid, U32, F(NewName, Str, End))))
    case Unlinkat => F(DirFid, U32, F(Name, Str, F(Flags, U32, End)))
    case Version => F(Msize, U32, F(TheVersion, Str, End))
    case Auth => F(AFid, U32, F(Uname, Str, F(Aname, Str, F(NUname, U32, End))))
    case Attach => F(Fid, U32, F(AFid, U32, F(Uname, Str, F(Aname, Str, F(NUname, U32, End)))))
    case Flush => F(OldTag, U16, End)
    case Walk => F(Fid, U32, F(NewFid, U32, F(WNames, Names, End)))
    case Read => F(Fid, U32, F(Offset, U64, F(Count, U32, End)))
    case Write => F(Fid, U32, F(Offset, U64, F(Payload, Data, End)))
    case Clunk => F(Fid, U32, End)
    case Remove => F(Fid, U32, End)
  }

  function ExpectedR(o: Op): Fields {
    match o
    case Lerror => F(Ecode, U32, End)
    case Statfs =>
      var a := F(Files, U64, F(Ffree, U64, F(Fsid, U64, F(Namelen, U32, End))));
      F(TheType, U32, F(Bsize, U32, F(Blocks, U64, F(Bfree, U64, F(Bavail, U64, a)))))
    case Lopen => F(TheQid, Qid, F(Iounit, U32, End))
    case Lcreate => F(TheQid, Qid, F(Iounit, U32, End))
    case Symlink => F(TheQid, Qid, End)
    case Mknod => F(TheQid, Qid, End)
    case Rename => End
    case Readlink => F(Target, Str, End)
    case Getattr =>
      var a := F(Nlink, U64, F(Rdev, U64, F(TheSize, U64, F(Blksize, U64, F(Blocks, U64, ExpectedTimes())))));
      F(Valid, U64, F(TheQid, Qid, F(Mode, U32, F(Uid, U32, F(Gid, U32, a)))))
    case Setattr => End
    case Xattrwalk => F(TheSize, U64, End)
    case Xattrcreate => End
    case Readdir => F(Payload, Data, End)
    case Fsync => End
    case Lock => F(Status, U8, End)
    case Getlock => F(TheType, U8, F(Start, U64, F(Length, U64, F(ProcId, U32, F(ClientId, Str, End)))))
    case Link => End
    case Mkdir => F(TheQid, Qid, End)
    case Renameat => End
    case Unlinkat => End
    case Version => F(Msize, U32, F(TheVersion, Str, End))
    case Auth => F(TheQid, Qid, End)
    case Attach => F(TheQid, Qid, End)
    case Flush => End
    case Walk => F(WQids, Qids, End)
    case Read => F(Payload, Data, End)
    case Write => F(Count, U32, End)
    case Clunk => End
    case Remove => End
  }

  /** The last fields of Rgetattr. */
  function ExpectedTimes(): Fields {
      var a := F(CtimeNsec, U64, F(BtimeSec, U64, F(BtimeNsec, U64, F(Gen, U64, F(DataVersion, U64, End)))));
      F(AtimeSec, U64, F(AtimeNsec, U64, F(MtimeSec, U64, F(MtimeNsec, U64, F(CtimeSec, U64, a)))))
  }

  /** The size a builder computes: a fixed part, and the lengths of these fields. */
  datatype Room = Room(fixed: nat, variable: Labels)

  datatype Labels = Nil | Cons(head: Label, tail: Labels)

  function Allotted(t: Type): Room {
    if t.T? then AllottedT(t.op) else AllottedR(t.op)
  }

  function AllottedT(o: Op): Room {
    match o
    case Lerror => Room(0, Nil)
    case Statfs => Room(4, Nil)
    case Lopen => Room(4 + 4, Nil)
    case Lcreate => Room(4 + 2 + 4 + 4 + 4, Cons(Name, Nil))
    case Symlink => Room(4 + 2 + 2 + 4, Cons(Name, Cons(Symtgt, Nil)))
    case Mknod => Room(4 + 2 + 4 + 4 + 4 + 4, Cons(Name, Nil))
    case Rename => Room(4 + 4 + 2, Cons(Name, Nil))
    case Readlink => Room(4, Nil)
    case Getattr => Room(4 + 8, Nil)
    case Setattr => Room(5 * 4 + 5 * 8, Nil)
    case Xattrwalk => Room(2 * 4 + 2, Cons(Name, Nil))
    case Xattrcreate => Room(4 + 2 + 8 + 4, Cons(Name, Nil))
    case Readdir => Room(4 + 8 + 4, Nil)
    case Fsync => Room(4 + 4, Nil)
    case Lock => Room(4 + 1 + 4 + 2 * 8 + 4 + 2, Cons(ClientId, Nil))
    case Getlock => Room(4 + 1 + 2 * 8 + 4 + 2, Cons(ClientId, Nil))
    case Link => Room(2 * 4 + 2, Cons(Name, Nil))
    case Mkdir => Room(4 + 2 + 4 + 4, Cons(Name, Nil))
    case Renameat => Room(4 + 2 + 4 + 2, Cons(OldName, Cons(NewName, Nil)))
    case Unlinkat => Room(4 + 2 + 4, Cons(Name, Nil))
    case Version => Room(4 + 2, Cons(TheVersion, Nil))
    case Auth => Room(4 + 2 + 2 + 4, Cons(Uname, Cons(Aname, Nil)))
    case Attach => Room(2 * 4 + 2 + 2 + 4, Cons(Uname, Cons(Aname, Nil)))
    case Flush => Room(2, Nil)
    case Walk => Room(2 * 4 + 2, Cons(WNames, Nil))
    case Read => Room(4 + 8 + 4, Nil)
    case Write => Room(4 + 8 + 4, Cons(Payload, Nil))
    case Clunk => Room(4, Nil)
    case Remove => Room(4, Nil)
  }

  function AllottedR(o: Op): Room {
    match o
    case Lerror => Room(4, Nil)
    case Statfs => Room(2 * 4 + 6 * 8 + 4, Nil)
    case Lopen => Room(13 + 4, Nil)
    case Lcreate => Room(13 + 4, Nil)
    case Symlink => Room(13, Nil)
    case Mknod => Room(13, Nil)
    case Rename => Room(0, Nil)
    case Readlink => Room(2, Cons(Target, Nil))
    case Getattr => Room(8 + 13 + 3 * 4 + 15 * 8, Nil)
    case Setattr => Room(0, Nil)
    case Xattrwalk => Room(8, Nil)
    case Xattrcreate => Room(0, Nil)
    case Readdir => Room(4, Cons(Payload, Nil))
    case Fsync => Room(0, Nil)
    case Lock => Room(1, Nil)
    case Getlock => Room(1 + 2 * 8 + 4 + 2, Cons(ClientId, Nil))
    case Link => Room(0, Nil)
    case Mkdir => Room(13, Nil)
    case Renameat => Room(0, Nil)
    case Unlinkat => Room(0, Nil)
    case Version => Room(4 + 2, Cons(TheVersion, Nil))
    case Auth => Room(13, Nil)
    case Attach => Room(13, Nil)
    case Flush => Room(0, Nil)
    case Walk => Room(2, Cons(WQids, Nil))
    case Read => Room(4, Cons(Payload, Nil))
    case Write => Room(4, Nil)
    case Clunk => Room(0, Nil)
    case Remove => Room(0, Nil)
  }

  // ---- the tables fit together ----

  /** The part of a field's length that does not depend on its value. */
  function Base(k: Kind): nat {
    match k case Str => 2 case Qid => 13 case Names => 2 case Qids => 2 case Data => 4 case _ => Width(k)
  }

  predicate Varies(k: Kind) {
    k.Str? || k.Names? || k.Qids? || k.Data?
  }

  function Fixed(f: Fields): nat {
    if f.End? then 0 else Base(f.kind) + Fixed(f.rest)
  }

  function Variable(f: Fields): Labels {
    if f.End? then Nil else if Varies(f.kind) then Cons(f.name, Variable(f.rest)) else Variable(f.rest)
  }

  lemma TimesAgree()
    ensures ExpectedTimes() == CreatedTimes() && Fixed(CreatedTimes()) == 80 && Variable(CreatedTimes()) == Nil
  {
  }

  /** Builders and np_deserialize agree on the fields, their names, kinds and order. */
  lemma TablesAgree(t: Type)
    ensures Expected(t) == Created(t)
  {
    TimesAgree();
  }

  predicate RoomFits(room: Room, f: Fields) {
    room.fixed == Fixed(f) && room.variable == Variable(f)
  }

  /** The size of five fields and what follows. */
  lemma FiveFixed(f: Fields)
    requires f.F? && f.rest.F? && f.rest.rest.F? && f.rest.rest.rest.F? && f.rest.rest.rest.rest.F?
    ensures Fixed(f) == Base(f.kind) + Base(f.rest.kind) + Base(f.rest.rest.kind) + Base(f.rest.rest.rest.kind)
                        + Base(f.rest.rest.rest.rest.kind) + Fixed(f.rest.rest.rest.rest.rest)
  {
    var g := f.rest.rest;
    assert Fixed(f) == Base(f.kind) + Base(f.rest.kind) + Fixed(g);
    assert Fixed(g) == Base(g.kind) + Base(g.rest.kind) + Fixed(g.rest.rest);
  }

  lemma SetattrAgrees()
    ensures AllottedT(Setattr).fixed == Fixed(CreatedT(Setattr))
  {
    var f := CreatedT(Setattr);
    FiveFixed(f);
    FiveFixed(f.rest.rest.rest.rest.rest);
  }

  lemma LockAgrees()
    ensures AllottedT(Lock).fixed == Fixed(CreatedT(Lock))
  {
    FiveFixed(CreatedT(Lock));
  }

  lemma TGetlockAgrees()
    ensures AllottedT(Getlock).fixed == Fixed(CreatedT(Getlock))
  {
    FiveFixed(CreatedT(Getlock));
  }

  lemma MakersAgree()
    ensures AllottedT(Lcreate).fixed == Fixed(CreatedT(Lcreate)) && AllottedT(Mknod).fixed == Fixed(CreatedT(Mknod))
  {
    FiveFixed(CreatedT(Lcreate));
    FiveFixed(CreatedT(Mknod));
  }

  lemma TreesAgree()
    ensures AllottedT(Attach).fixed == Fixed(CreatedT(Attach)) && AllottedT(Auth).fixed == Fixed(CreatedT(Auth))
  {
    FiveFixed(CreatedT(Attach));
  }

  lemma TRenameatAgrees()
    ensures AllottedT(Renameat).fixed == Fixed(CreatedT(Renameat))
  {
  }

  /** Messages of three fields and more. */
  lemma NamesAgree()
    ensures AllottedT(Symlink).fixed == Fixed(CreatedT(Symlink)) && AllottedT(Mkdir).fixed == Fixed(CreatedT(Mkdir))
    ensures AllottedT(Xattrcreate).fixed == Fixed(CreatedT(Xattrcreate))
  {
  }

  lemma FixedAgreesLowT(o: Op)
    requires OpCode(o) < 70 && !o.Lcreate? && !o.Mknod? && !o.Attach? && !o.Auth? && !o.Renameat? && !o.Symlink? && !o.Mkdir? && !o.Xattrcreate? && !o.Setattr? && !o.Lock? && !o.Getlock?
    ensures AllottedT(o).fixed == Fixed(CreatedT(o))
  {
    match o
    case Xattrwalk => assert AllottedT(Xattrwalk).fixed == Fixed(CreatedT(Xattrwalk));
    case Readdir => assert AllottedT(Readdir).fixed == Fixed(CreatedT(Readdir));
    case _ =>
  }

  lemma FixedAgreesHighT(o: Op)
    requires OpCode(o) >= 70 && !o.Lcreate? && !o.Mknod? && !o.Attach? && !o.Auth? && !o.Renameat? && !o.Symlink? && !o.Mkdir? && !o.Xattrcreate? && !o.Setattr? && !o.Lock? && !o.Getlock?
    ensures AllottedT(o).fixed == Fixed(CreatedT(o))
  {
    match o
    case Link => assert AllottedT(Link).fixed == Fixed(CreatedT(Link));
    case Unlinkat => assert AllottedT(Unlinkat).fixed == Fixed(CreatedT(Unlinkat));
    case _ =>
  }

  lemma FixedAgreesT(o: Op)
    ensures AllottedT(o).fixed == Fixed(CreatedT(o))
  {
    match o
    case Lcreate => MakersAgree();
    case Mknod => MakersAgree();
    case Attach => TreesAgree();
    case Auth => TreesAgree();
    case Renameat => TRenameatAgrees();
    case Symlink => NamesAgree();
    case Mkdir => NamesAgree();
    case Xattrcreate => NamesAgree();
    case Setattr => SetattrAgrees();
    case Lock => LockAgrees();
    case Getlock => TGetlockAgrees();
    case _ => if OpCode(o) < 70 { FixedAgreesLowT(o); } else { FixedAgreesHighT(o); }
  }

  lemma StatfsAgrees()
    ensures AllottedR(Statfs).fixed == Fixed(CreatedR(Statfs))
  {
  }


  lemma GetattrAgrees()
    ensures AllottedR(Getattr).fixed == Fixed(CreatedR(Getattr))
  {
    TimesAgree();
    var f := CreatedR(Getattr);
    FiveFixed(f);
    FiveFixed(f.rest.rest.rest.rest.rest);
  }

  lemma GetlockAgrees()
    ensures AllottedR(Getlock).fixed == Fixed(CreatedR(Getlock))
  {
  }

  lemma FixedAgreesLow(o: Op)
    requires OpCode(o) < 70 && !o.Statfs? && !o.Getattr? && !o.Getlock?
    ensures AllottedR(o).fixed == Fixed(CreatedR(o))
  {
    match o
    case Lopen => assert AllottedR(Lopen).fixed == Fixed(CreatedR(Lopen));
    case Lcreate => assert AllottedR(Lcreate).fixed == Fixed(CreatedR(Lcreate));
    case _ =>
  }

  lemma FixedAgreesHigh(o: Op)
    requires OpCode(o) >= 70
    ensures AllottedR(o).fixed == Fixed(CreatedR(o))
  {
    match o
    case Version => assert AllottedR(Version).fixed == Fixed(CreatedR(Version));
    case _ =>
  }

  lemma FixedAgreesR(o: Op)
    ensures AllottedR(o).fixed == Fixed(CreatedR(o))
  {
    match o
    case Statfs => StatfsAgrees();
    case Getattr => GetattrAgrees();
    case Getlock => GetlockAgrees();
    case _ => if OpCode(o) < 70 { FixedAgreesLow(o); } else { FixedAgreesHigh(o); }
  }

  lemma VariableAgreesT(o: Op)
    ensures AllottedT(o).variable == Variable(CreatedT(o))
  {
    match o
    case Setattr => assert AllottedT(Setattr).variable == Variable(CreatedT(Setattr));
    case Lock => assert AllottedT(Lock).variable == Variable(CreatedT(Lock));
    case Getlock => assert AllottedT(Getlock).variable == Variable(CreatedT(Getlock));
    case _ =>
  }

  lemma VariableAgreesR(o: Op)
    ensures AllottedR(o).variable == Variable(CreatedR(o))
  {
    match o
    case Statfs => assert AllottedR(Statfs).variable == Variable(CreatedR(Statfs));
    case Getattr => TimesAgree(); assert AllottedR(Getattr).variable == Variable(CreatedR(Getattr));
    case Getlock => assert AllottedR(Getlock).variable == Variable(CreatedR(Getlock));
    case _ =>
  }

  /** The room a builder asks for is that of the fields it puts. */
  lemma RoomAgrees(t: Type)
    ensures RoomFits(Allotted(t), Created(t))
  {
    FixedAgreesT(t.op);
    FixedAgreesR(t.op);
    VariableAgreesT(t.op);
    VariableAgreesR(t.op);
  }
}
