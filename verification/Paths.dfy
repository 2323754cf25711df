/**
  The pool of Paths that fids share, and the open files (IOCtx) that hang off a Path.

  `held` registers every reference to a Path: that of a fid, and those of handlers that have
  allocated a Path and not yet passed it on.  The counts are kept by the code alone.
*/
module Paths {
  import opened Common

  type PathId = nat
  type IoId = nat
  type FidId = nat

  datatype Path = Path(s: string, refs: int, opens: seq<IoId>)
  datatype Io = Io(refs: int, flags: nat, uid: nat, isFile: bool)
  datatype Holder = ByFid(f: FidId) | ByHandler(r: nat, slot: nat)

  datatype State = State(
    pool: map<string, PathId>,
    paths: map<PathId, Path>,
    held: map<Holder, PathId>,
    ios: map<IoId, Io>,
    users: map<FidId, IoId>,          // f->ioctx
    madePaths: set<PathId>,
    madeIos: set<IoId>,
    closed: seq<IoId>)                // in the order they were closed

  function Empty(): State {
    State(map[], map[], map[], map[], map[], {}, {}, [])
  }

  // ---- paths ----

  function SetPath(s: State, id: PathId, p: Path): State {
    s.(paths := s.paths[id := p])
  }

  /** _path_alloc: the Path of that string, or a new one. */
  function Alloc(s: State, str: string, id: PathId, h: Holder): State {
    if str in s.pool && s.pool[str] in s.paths then
      var p := s.pool[str];
      SetPath(s, p, s.paths[p].(refs := s.paths[p].refs + 1)).(held := s.held[h := p])
    else
      s.(pool := s.pool[str := id], paths := s.paths[id := Path(str, 1, [])], held := s.held[h := id],
         madePaths := s.madePaths + {id})
  }

  /** path_incref for a new holder. */
  function Share(s: State, from: Holder, h: Holder): State {
    if from in s.held && s.held[from] in s.paths then
      var p := s.held[from];
      SetPath(s, p, s.paths[p].(refs := s.paths[p].refs + 1)).(held := s.held[h := p])
    else s
  }

  /** path_decref: the last one takes the Path out of the pool and frees it. */
  function Release(s: State, h: Holder): State {
    if h in s.held && s.held[h] in s.paths then
      var id := s.held[h];
      var p := s.paths[id];
      var s1 := s.(held := s.held - {h});
      if p.refs == 1 then s1.(pool := s.pool - {p.s}, paths := s.paths - {id})
      else SetPath(s1, id, p.(refs := p.refs - 1))
    else s
  }

  /** The pointer moves to another variable. */
  function Pass(s: State, from: Holder, to: Holder): State {
    if from in s.held then s.(held := (s.held - {from})[to := s.held[from]]) else s
  }

  // ---- open files ----

  predicate Sharable(s: State, io: IoId, flags: nat, uid: nat) {
    io in s.ios && s.ios[io].isFile && s.ios[io].flags == flags && s.ios[io].uid == uid
  }

  /** The loop of ioctx_open. */
  function FindIo(s: State, opens: seq<IoId>, flags: nat, uid: nat): (r: Option<IoId>)
    ensures r.Some? ==> r.value in opens && Sharable(s, r.value, flags, uid)
    ensures r.None? ==> forall io :: io in opens ==> !Sharable(s, io, flags, uid)
  {
    if opens == [] then None
    else if Sharable(s, opens[0], flags, uid) then Some(opens[0])
    else FindIo(s, opens[1..], flags, uid)
  }

  /** Which open file ioctx_open shares, if any: only one that is open for reading. */
  function Shared(s: State, f: FidId, share: bool, flags: nat, uid: nat): Option<IoId> {
    if share && flags % 4 == 0 && ByFid(f) in s.held && s.held[ByFid(f)] in s.paths
    then FindIo(s, s.paths[s.held[ByFid(f)]].opens, flags, uid) else None
  }

  function JoinIo(s: State, f: FidId, io: IoId): State {
    if io in s.ios then s.(ios := s.ios[io := s.ios[io].(refs := s.ios[io].refs + 1)], users := s.users[f := io]) else s
  }

  /** _ioctx_create_open and _link_ioctx. */
  function NewIo(s: State, f: FidId, io: IoId, flags: nat, uid: nat, isFile: bool): State {
    if ByFid(f) in s.held && s.held[ByFid(f)] in s.paths then
      var id := s.held[ByFid(f)];
      SetPath(s, id, s.paths[id].(opens := [io] + s.paths[id].opens))
        .(ios := s.ios[io := Io(1, flags, uid, isFile)], users := s.users[f := io], madeIos := s.madeIos + {io})
    else s
  }

  /** ioctx_open; `can` says whether open() succeeds when it has to be called. */
  function Open(s: State, f: FidId, share: bool, flags: nat, uid: nat, io: IoId, isFile: bool, can: bool): State {
    var known := Shared(s, f, share, flags, uid);
    if known.Some? then JoinIo(s, f, known.value) else if can then NewIo(s, f, io, flags, uid, isFile) else s
  }

  /** ioctx_close: the last fid unlinks and closes. */
  function Close(s: State, f: FidId): State {
    if f in s.users && s.users[f] in s.ios && ByFid(f) in s.held && s.held[ByFid(f)] in s.paths then
      var io, id := s.users[f], s.held[ByFid(f)];
      var s1 := s.(users := s.users - {f});
      if s.ios[io].refs == 1 then
        SetPath(s1, id, s.paths[id].(opens := Without(s.paths[id].opens, io))).(ios := s.ios - {io}, closed := s.closed + [io])
      else s1.(ios := s.ios[io := s.ios[io].(refs := s.ios[io].refs - 1)])
    else s
  }

  // ---- steps ----

  datatype Action =
    | Create(h: Holder, str: string, id: PathId)
    | Copy(from: Holder, h: Holder)
    | Drop(h: Holder)
    | Move(from: Holder, to: Holder)
    | OpenFid(f: FidId, share: bool, flags: nat, uid: nat, io: IoId, isFile: bool, can: bool)
    | CloseFid(f: FidId)

  /** The Path of an open fid is not replaced or dropped. */
  predicate Loose(s: State, h: Holder) {
    h.ByFid? ==> h.f !in s.users
  }

  ghost predicate Enabled(s: State, a: Action) {
    match a
    case Create(h, str, id) => h !in s.held && id !in s.madePaths
    case Copy(from, h) => from in s.held && h !in s.held
    case Drop(h) => h in s.held && Loose(s, h)
    case Move(from, to) => from in s.held && to !in s.held && Loose(s, from)
    case OpenFid(f, share, flags, uid, io, isFile, can) => ByFid(f) in s.held && f !in s.users && io !in s.madeIos
    case CloseFid(f) => f in s.users
  }

  ghost function Next(s: State, a: Action): State
    requires Enabled(s, a)
  {
    match a
    case Create(h, str, id) => Alloc(s, str, id, h)
    case Copy(from, h) => Share(s, from, h)
    case Drop(h) => Release(s, h)
    case Move(from, to) => Pass(s, from, to)
    case OpenFid(f, share, flags, uid, io, isFile, can) => Open(s, f, share, flags, uid, io, isFile, can)
    case CloseFid(f) => Close(s, f)
  }

  ghost predicate Run(ss: seq<State>, acts: seq<Action>) {
    && |ss| == |acts| + 1 && ss[0] == Empty()
    && forall i :: 0 <= i < |acts| ==> Enabled(ss[i], acts[i]) && ss[i + 1] == Next(ss[i], acts[i])
  }

  // ---- what every step keeps ----

  ghost function Holders(held: map<Holder, PathId>, id: PathId): set<Holder> {
    set h | h in held && held[h] == id
  }

  ghost function Users(users: map<FidId, IoId>, io: IoId): set<FidId> {
    set f | f in users && users[f] == io
  }

  /** A live Path is in the pool under its string, counts its holders and lists each open file once. */
  ghost predicate PathOk(s: State, id: PathId) {
    id in s.paths ==>
      && s.paths[id].s in s.pool && s.pool[s.paths[id].s] == id && id in s.madePaths
      && s.paths[id].refs == |Holders(s.held, id)| > 0 && Distinct(s.paths[id].opens)
  }

  ghost predicate NameOk(s: State, str: string) {
    str in s.pool ==> s.pool[str] in s.paths && s.paths[s.pool[str]].s == str
  }

  ghost predicate HolderOk(s: State, h: Holder) {
    h in s.held ==> s.held[h] in s.paths
  }

  /** An open file counts its fids, is shared only for reading, and is closed when it has no fid left. */
  ghost predicate IoOk(s: State, io: IoId) {
    && (io in s.ios ==> s.ios[io].refs == |Users(s.users, io)| > 0 && io in s.madeIos)
    && (io in s.ios && s.ios[io].refs > 1 ==> s.ios[io].isFile && s.ios[io].flags % 4 == 0)
    && (io in s.closed <==> io in s.madeIos && io !in s.ios)
  }

  /** The open file of a fid is on the list of the fid's own Path. */
  ghost predicate UserOk(s: State, f: FidId) {
    f in s.users ==>
      && s.users[f] in s.ios && ByFid(f) in s.held && s.held[ByFid(f)] in s.paths
      && s.users[f] in s.paths[s.held[ByFid(f)]].opens
  }

  /** What a Path lists is open, and listed nowhere else. */
  ghost predicate ListedOk(s: State, id: PathId, io: IoId) {
    id in s.paths && io in s.paths[id].opens ==>
      io in s.ios && forall k :: k in s.paths && io in s.paths[k].opens ==> k == id
  }

  ghost predicate Inv(s: State) {
    && Distinct(s.closed)
    && (forall id {:trigger PathOk(s, id)} :: PathOk(s, id))
    && (forall str {:trigger NameOk(s, str)} :: NameOk(s, str))
    && (forall h {:trigger HolderOk(s, h)} :: HolderOk(s, h))
    && (forall io {:trigger IoOk(s, io)} :: IoOk(s, io))
    && (forall f {:trigger UserOk(s, f)} :: UserOk(s, f))
    && (forall id, io {:trigger ListedOk(s, id, io)} :: ListedOk(s, id, io))
  }

  lemma EmptyInv()
    ensures Inv(Empty())
  {
  }

  lemma ShareKeeps(s: State, from: Holder, h: Holder)
    requires Inv(s) && from in s.held && h !in s.held
    ensures Inv(Share(s, from, h))
  {
    var t, p := Share(s, from, h), s.held[from];
    assert HolderOk(s, from);
    forall id ensures PathOk(t, id) {
      assert PathOk(s, id);
      assert Holders(t.held, id) == Holders(s.held, id) + if id == p then {h} else {};
    }
    forall str ensures NameOk(t, str) { assert NameOk(s, str); }
    forall g ensures HolderOk(t, g) { assert HolderOk(s, g); }
    forall io ensures IoOk(t, io) { assert IoOk(s, io); }
    forall f ensures UserOk(t, f) { assert UserOk(s, f); }
    forall id, io ensures ListedOk(t, id, io) { assert ListedOk(s, id, io); }
  }

  lemma NewPathKeeps(s: State, str: string, id: PathId, h: Holder)
    requires Inv(s) && h !in s.held && id !in s.madePaths && str !in s.pool
    ensures Inv(Alloc(s, str, id, h))
  {
    var t := Alloc(s, str, id, h);
    assert PathOk(s, id);
    assert Holders(t.held, id) == {h} by {
      forall g | g in s.held ensures s.held[g] != id { assert HolderOk(s, g); }
    }
    forall k ensures PathOk(t, k) {
      assert PathOk(s, k);
      assert k != id ==> Holders(t.held, k) == Holders(s.held, k);
    }
    forall x ensures NameOk(t, x) { assert NameOk(s, x); }
    forall g ensures HolderOk(t, g) { assert HolderOk(s, g); }
    forall io ensures IoOk(t, io) { assert IoOk(s, io); }
    forall f ensures UserOk(t, f) { assert UserOk(s, f); }
    forall k, io ensures ListedOk(t, k, io) { assert ListedOk(s, k, io); }
  }

  lemma AllocKeeps(s: State, str: string, id: PathId, h: Holder)
    requires Inv(s) && h !in s.held && id !in s.madePaths
    ensures Inv(Alloc(s, str, id, h))
  {
    if str in s.pool {
      assert NameOk(s, str) && PathOk(s, s.pool[str]);
      var g :| g in Holders(s.held, s.pool[str]);
      ShareKeeps(s, g, h);
    } else {
      NewPathKeeps(s, str, id, h);
    }
  }

  lemma PassPath(s: State, from: Holder, to: Holder, id: PathId)
    requires PathOk(s, id) && from in s.held && to !in s.held
    ensures PathOk(Pass(s, from, to), id)
  {
    var held := Pass(s, from, to).held;
    if id == s.held[from] {
      assert Holders(held, id) == Holders(s.held, id) - {from} + {to};
      assert from in Holders(s.held, id) && to !in Holders(s.held, id);
    } else {
      assert Holders(held, id) == Holders(s.held, id);
    }
  }

  lemma PassKeeps(s: State, from: Holder, to: Holder)
    requires Inv(s) && from in s.held && to !in s.held && Loose(s, from)
    ensures Inv(Pass(s, from, to))
  {
    var t := Pass(s, from, to);
    forall id ensures PathOk(t, id) {
      assert PathOk(s, id);
      PassPath(s, from, to, id);
    }
    forall str ensures NameOk(t, str) { assert NameOk(s, str); }
    forall g ensures HolderOk(t, g) { assert HolderOk(s, g) && HolderOk(s, from); }
    forall io ensures IoOk(t, io) { assert IoOk(s, io); }
    forall f ensures UserOk(t, f) { assert UserOk(s, f); }
    forall id, io ensures ListedOk(t, id, io) { assert ListedOk(s, id, io); }
  }

  lemma LessKeeps(s: State, h: Holder)
    requires Inv(s) && h in s.held && Loose(s, h) && s.held[h] in s.paths && s.paths[s.held[h]].refs != 1
    ensures Inv(Release(s, h))
  {
    var t, p := Release(s, h), s.held[h];
    forall id ensures PathOk(t, id) {
      assert PathOk(s, id);
      assert Holders(t.held, id) == Holders(s.held, id) - if id == p then {h} else {};
      assert id == p ==> h in Holders(s.held, id);
    }
    forall str ensures NameOk(t, str) { assert NameOk(s, str); }
    forall g ensures HolderOk(t, g) { assert HolderOk(s, g); }
    forall io ensures IoOk(t, io) { assert IoOk(s, io); }
    forall f ensures UserOk(t, f) { assert UserOk(s, f); }
    forall id, io ensures ListedOk(t, id, io) { assert ListedOk(s, id, io); }
  }

  /** A Path with an open file on its list is held by a fid that has the file open. */
  lemma OpenHeld(s: State, id: PathId, io: IoId) returns (f: FidId)
    requires Inv(s) && id in s.paths && io in s.paths[id].opens
    ensures f in s.users && s.users[f] == io && ByFid(f) in s.held && s.held[ByFid(f)] == id
  {
    assert ListedOk(s, id, io) && IoOk(s, io);
    f :| f in Users(s.users, io);
    assert UserOk(s, f);
  }

  lemma HeldApart(s: State, h: Holder, io: IoId)
    requires Inv(s) && h in s.held && Loose(s, h) && s.held[h] in s.paths && io in s.paths[s.held[h]].opens
    ensures Holders(s.held, s.held[h]) != {h}
  {
    var f := OpenHeld(s, s.held[h], io);
    assert ByFid(f) in Holders(s.held, s.held[h]);
  }

  lemma FreeKeeps(s: State, h: Holder)
    requires Inv(s) && h in s.held && Loose(s, h) && s.held[h] in s.paths && s.paths[s.held[h]].refs == 1
    ensures Inv(Release(s, h)) && s.paths[s.held[h]].opens == []
  {
    var t, p := Release(s, h), s.held[h];
    assert PathOk(s, p);
    assert Holders(s.held, p) == {h} by {
      assert h in Holders(s.held, p);
      assert |Holders(s.held, p) - {h}| == 0;
    }
    if s.paths[p].opens != [] {
      HeldApart(s, h, s.paths[p].opens[0]);
    }
    forall id ensures PathOk(t, id) {
      assert PathOk(s, id);
      assert id != p ==> Holders(t.held, id) == Holders(s.held, id);
    }
    forall str ensures NameOk(t, str) { assert NameOk(s, str); }
    forall g ensures HolderOk(t, g) {
      assert HolderOk(s, g);
      assert g in t.held && t.held[g] == p ==> g in Holders(s.held, p);
    }
    forall io ensures IoOk(t, io) { assert IoOk(s, io); }
    forall f ensures UserOk(t, f) {
      assert UserOk(s, f);
      assert f in s.users && s.held[ByFid(f)] == p ==> ByFid(f) in Holders(s.held, p);
    }
    forall id, io ensures ListedOk(t, id, io) { assert ListedOk(s, id, io); }
  }

  lemma ReleaseKeeps(s: State, h: Holder)
    requires Inv(s) && h in s.held && Loose(s, h)
    ensures Inv(Release(s, h))
  {
    assert HolderOk(s, h);
    if s.paths[s.held[h]].refs == 1 {
      FreeKeeps(s, h);
    } else {
      LessKeeps(s, h);
    }
  }

  // ---- open files ----

  lemma JoinKeeps(s: State, f: FidId, io: IoId)
    requires Inv(s) && ByFid(f) in s.held && f !in s.users && io in s.ios
    requires s.held[ByFid(f)] in s.paths && io in s.paths[s.held[ByFid(f)]].opens
    requires s.ios[io].isFile && s.ios[io].flags % 4 == 0
    ensures Inv(JoinIo(s, f, io))
  {
    var t := JoinIo(s, f, io);
    forall id ensures PathOk(t, id) { assert PathOk(s, id); }
    forall str ensures NameOk(t, str) { assert NameOk(s, str); }
    forall g ensures HolderOk(t, g) { assert HolderOk(s, g); }
    forall k ensures IoOk(t, k) {
      assert IoOk(s, k);
      assert Users(t.users, k) == Users(s.users, k) + if k == io then {f} else {};
    }
    forall g ensures UserOk(t, g) { assert UserOk(s, g); }
    forall id, k ensures ListedOk(t, id, k) { assert ListedOk(s, id, k); }
  }

  lemma NewIoKeeps(s: State, f: FidId, io: IoId, flags: nat, uid: nat, isFile: bool)
    requires Inv(s) && ByFid(f) in s.held && f !in s.users && io !in s.madeIos
    ensures Inv(NewIo(s, f, io, flags, uid, isFile))
  {
    var t, p := NewIo(s, f, io, flags, uid, isFile), s.held[ByFid(f)];
    assert HolderOk(s, ByFid(f)) && IoOk(s, io);
    assert Users(t.users, io) == {f} by {
      forall g | g in s.users ensures s.users[g] != io { assert UserOk(s, g); }
    }
    forall id ensures io !in (if id in s.paths then s.paths[id].opens else []) { assert ListedOk(s, id, io); }
    forall id ensures PathOk(t, id) { assert PathOk(s, id); }
    forall str ensures NameOk(t, str) { assert NameOk(s, str); }
    forall g ensures HolderOk(t, g) { assert HolderOk(s, g); }
    forall k ensures IoOk(t, k) {
      assert IoOk(s, k);
      assert k != io ==> Users(t.users, k) == Users(s.users, k);
    }
    forall g ensures UserOk(t, g) { assert UserOk(s, g); }
    forall id, k ensures ListedOk(t, id, k) { assert ListedOk(s, id, k); }
  }

  lemma OpenKeeps(s: State, f: FidId, share: bool, flags: nat, uid: nat, io: IoId, isFile: bool, can: bool)
    requires Inv(s) && ByFid(f) in s.held && f !in s.users && io !in s.madeIos
    ensures Inv(Open(s, f, share, flags, uid, io, isFile, can))
  {
    assert HolderOk(s, ByFid(f));
    var known := Shared(s, f, share, flags, uid);
    if known.Some? {
      JoinKeeps(s, f, known.value);
    } else if can {
      NewIoKeeps(s, f, io, flags, uid, isFile);
    }
  }

  lemma LeaveKeeps(s: State, f: FidId)
    requires Inv(s) && f in s.users && UserOk(s, f) && s.ios[s.users[f]].refs != 1
    ensures Inv(Close(s, f))
  {
    var t, io := Close(s, f), s.users[f];
    forall id ensures PathOk(t, id) { assert PathOk(s, id); }
    forall str ensures NameOk(t, str) { assert NameOk(s, str); }
    forall g ensures HolderOk(t, g) { assert HolderOk(s, g); }
    forall k ensures IoOk(t, k) {
      assert IoOk(s, k);
      assert Users(t.users, k) == Users(s.users, k) - if k == io then {f} else {};
      assert k == io ==> f in Users(s.users, k);
    }
    forall g ensures UserOk(t, g) { assert UserOk(s, g); }
    forall id, k ensures ListedOk(t, id, k) { assert ListedOk(s, id, k); }
  }

  lemma LastCloseKeeps(s: State, f: FidId)
    requires Inv(s) && f in s.users && UserOk(s, f) && s.ios[s.users[f]].refs == 1
    ensures Inv(Close(s, f))
  {
    var t, io, p := Close(s, f), s.users[f], s.held[ByFid(f)];
    assert IoOk(s, io) && PathOk(s, p);
    assert Users(s.users, io) == {f} by {
      assert f in Users(s.users, io);
      assert |Users(s.users, io) - {f}| == 0;
    }
    WithoutMembers(s.paths[p].opens, io);
    forall id ensures PathOk(t, id) { assert PathOk(s, id); }
    forall str ensures NameOk(t, str) { assert NameOk(s, str); }
    forall g ensures HolderOk(t, g) { assert HolderOk(s, g); }
    forall k ensures IoOk(t, k) {
      assert IoOk(s, k);
      assert k != io ==> Users(t.users, k) == Users(s.users, k);
    }
    forall g ensures UserOk(t, g) {
      assert UserOk(s, g);
      assert g in t.users && t.users[g] == io ==> g in Users(s.users, io);
    }
    forall id, k ensures ListedOk(t, id, k) { assert ListedOk(s, id, k) && ListedOk(s, p, io); }
  }

  lemma CloseKeeps(s: State, f: FidId)
    requires Inv(s) && f in s.users
    ensures Inv(Close(s, f))
  {
    assert UserOk(s, f);
    if s.ios[s.users[f]].refs == 1 {
      LastCloseKeeps(s, f);
    } else {
      LeaveKeeps(s, f);
    }
  }

  // ---- runs ----

  lemma StepInv(s: State, a: Action)
    requires Inv(s) && Enabled(s, a)
    ensures Inv(Next(s, a))
  {
    match a
    case Create(h, str, id) => AllocKeeps(s, str, id, h);
    case Copy(from, h) => ShareKeeps(s, from, h);
    case Drop(h) => ReleaseKeeps(s, h);
    case Move(from, to) => PassKeeps(s, from, to);
    case OpenFid(f, share, flags, uid, io, isFile, can) => OpenKeeps(s, f, share, flags, uid, io, isFile, can);
    case CloseFid(f) => CloseKeeps(s, f);
  }

  lemma {:induction false} RunInv(ss: seq<State>, acts: seq<Action>, n: nat)
    requires Run(ss, acts) && n < |ss|
    ensures Inv(ss[n])
  {
    if n == 0 {
      EmptyInv();
    } else {
      RunInv(ss, acts, n - 1);
      StepInv(ss[n - 1], acts[n - 1]);
    }
  }
}
