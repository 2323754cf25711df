/** What holds of Paths and open files in every state of every run. */
module PathTheorems {
  import opened Common
  import opened Paths

  /** A Path is in the pool while somebody holds it, and its count is the number of holders. */
  lemma PathsCounted(ss: seq<State>, acts: seq<Action>, n: nat, id: PathId)
    requires Run(ss, acts) && n < |ss|
    ensures id in ss[n].paths <==> exists h :: h in ss[n].held && ss[n].held[h] == id
    ensures id in ss[n].paths ==> ss[n].paths[id].refs == |Holders(ss[n].held, id)|
    ensures id in ss[n].paths <==> exists str :: str in ss[n].pool && ss[n].pool[str] == id
  {
    var s := ss[n];
    RunInv(ss, acts, n);
    assert PathOk(s, id);
    if id in s.paths {
      var h :| h in Holders(s.held, id);
      assert s.paths[id].s in s.pool;
    }
    forall h | h in s.held && s.held[h] == id ensures id in s.paths { assert HolderOk(s, h); }
    forall str | str in s.pool && s.pool[str] == id ensures id in s.paths { assert NameOk(s, str); }
  }

  /** Equal strings are one Path. */
  lemma StringsShared(ss: seq<State>, acts: seq<Action>, n: nat, g: Holder, h: Holder)
    requires Run(ss, acts) && n < |ss| && g in ss[n].held && h in ss[n].held
    ensures ss[n].held[g] in ss[n].paths && ss[n].held[h] in ss[n].paths
    ensures ss[n].held[g] == ss[n].held[h] <==> ss[n].paths[ss[n].held[g]].s == ss[n].paths[ss[n].held[h]].s
  {
    var s := ss[n];
    RunInv(ss, acts, n);
    assert HolderOk(s, g) && HolderOk(s, h);
    assert PathOk(s, s.held[g]) && PathOk(s, s.held[h]);
  }

  /** An open file is on the list of exactly the Paths through which a fid has it open. */
  lemma ListedWhileOpen(ss: seq<State>, acts: seq<Action>, n: nat, id: PathId, io: IoId)
    requires Run(ss, acts) && n < |ss|
    ensures id in ss[n].paths && io in ss[n].paths[id].opens
       <==> exists f :: f in ss[n].users && ss[n].users[f] == io && ByFid(f) in ss[n].held && ss[n].held[ByFid(f)] == id
  {
    var s := ss[n];
    RunInv(ss, acts, n);
    if id in s.paths && io in s.paths[id].opens {
      var f := OpenHeld(s, id, io);
      assert f in s.users && s.users[f] == io;
    }
    forall f | f in s.users && s.users[f] == io && ByFid(f) in s.held && s.held[ByFid(f)] == id
      ensures id in s.paths && io in s.paths[id].opens
    {
      assert UserOk(s, f);
    }
  }

  /** It counts the fids that have it open, and is closed once: when there is none left. */
  lemma ClosedOnce(ss: seq<State>, acts: seq<Action>, n: nat, io: IoId)
    requires Run(ss, acts) && n < |ss|
    ensures Distinct(ss[n].closed)
    ensures io in ss[n].closed <==> io in ss[n].madeIos && Users(ss[n].users, io) == {}
    ensures io in ss[n].ios ==> ss[n].ios[io].refs == |Users(ss[n].users, io)|
  {
    var s := ss[n];
    RunInv(ss, acts, n);
    assert IoOk(s, io);
    forall f | f in Users(s.users, io) ensures io in s.ios { assert UserOk(s, f); }
  }

  lemma CloseGrows(s: State, f: FidId)
    requires Inv(s) && f in s.users
    ensures Close(s, f).closed ==
      if Users(s.users, s.users[f]) == {f} then s.closed + [s.users[f]] else s.closed
  {
    var us := Users(s.users, s.users[f]);
    assert UserOk(s, f) && IoOk(s, s.users[f]);
    assert f in us && us == us - {f} + {f};
    assert |us - {f}| == |us| - 1;
  }

  /** The close() happens in the step in which the last fid lets go. */
  lemma LastFidCloses(ss: seq<State>, acts: seq<Action>, n: nat)
    requires Run(ss, acts) && n < |acts|
    ensures acts[n].CloseFid? ==> acts[n].f in ss[n].users
    ensures ss[n + 1].closed ==
      if acts[n].CloseFid? && Users(ss[n].users, ss[n].users[acts[n].f]) == {acts[n].f}
      then ss[n].closed + [ss[n].users[acts[n].f]] else ss[n].closed
  {
    RunInv(ss, acts, n);
    var s, a := ss[n], acts[n];
    assert Enabled(s, a) && ss[n + 1] == Next(s, a);
    if a.CloseFid? {
      CloseGrows(s, a.f);
    }
  }

  /** Two fids have one file open between them only if it is a regular file, open for reading. */
  lemma SharedForReading(ss: seq<State>, acts: seq<Action>, n: nat, f: FidId, g: FidId)
    requires Run(ss, acts) && n < |ss| && f in ss[n].users && g in ss[n].users && f != g
    requires ss[n].users[f] == ss[n].users[g]
    ensures ss[n].users[f] in ss[n].ios && ss[n].ios[ss[n].users[f]].isFile && ss[n].ios[ss[n].users[f]].flags % 4 == 0
    ensures ByFid(f) in ss[n].held && ByFid(g) in ss[n].held && ss[n].held[ByFid(f)] == ss[n].held[ByFid(g)]
  {
    var s := ss[n];
    RunInv(ss, acts, n);
    assert UserOk(s, f) && UserOk(s, g) && IoOk(s, s.users[f]) && ListedOk(s, s.held[ByFid(f)], s.users[f]);
    assert |Users(s.users, s.users[f])| >= 2 by {
      assert {f, g} <= Users(s.users, s.users[f]);
      assert |Users(s.users, s.users[f]) - {f, g}| == |Users(s.users, s.users[f])| - 2;
    }
  }

  // ---- whose file a fid has open ----

  /** A regular file that is open with these flags, for this user. */
  predicate Suits(s: State, io: IoId, flags: nat, uid: nat) {
    io in s.ios && s.ios[io].isFile && s.ios[io].flags == flags && s.ios[io].uid == uid
  }

  /** Some fid of the same Path has such a file open. */
  ghost predicate OpenAlready(s: State, f: FidId, flags: nat, uid: nat)
    requires ByFid(f) in s.held
  {
    exists g :: g in s.users && ByFid(g) in s.held && s.held[ByFid(g)] == s.held[ByFid(f)] && Suits(s, s.users[g], flags, uid)
  }

  lemma FoundExactly(s: State, f: FidId, flags: nat, uid: nat)
    requires Inv(s) && ByFid(f) in s.held
    ensures s.held[ByFid(f)] in s.paths
    ensures var r := FindIo(s, s.paths[s.held[ByFid(f)]].opens, flags, uid);
            && (r.Some? <==> OpenAlready(s, f, flags, uid))
            && (r.Some? ==> exists g :: g in s.users && s.users[g] == r.value)
            && (r.Some? ==> Suits(s, r.value, flags, uid))
  {
    assert HolderOk(s, ByFid(f));
    var id := s.held[ByFid(f)];
    var r := FindIo(s, s.paths[id].opens, flags, uid);
    if r.Some? {
      var g := OpenHeld(s, id, r.value);
      assert Suits(s, s.users[g], flags, uid);
    }
    if OpenAlready(s, f, flags, uid) {
      var g :| g in s.users && ByFid(g) in s.held && s.held[ByFid(g)] == id && Suits(s, s.users[g], flags, uid);
      assert UserOk(s, g);
    }
  }

  /** An open that may share takes a file that the same user has open on the Path with the same flags; only if there
      is none, or the open may not share, is a new file opened, and then only if open() lets that user. */
  lemma OpenExactly(s: State, f: FidId, share: bool, flags: nat, uid: nat, io: IoId, isFile: bool, can: bool)
    requires Inv(s) && ByFid(f) in s.held && f !in s.users && io !in s.madeIos
    ensures var t := Next(s, OpenFid(f, share, flags, uid, io, isFile, can));
            if share && flags % 4 == 0 && OpenAlready(s, f, flags, uid) then
              && t.madeIos == s.madeIos && f in t.users && Suits(t, t.users[f], flags, uid)
              && (exists g :: g in s.users && s.users[g] == t.users[f])
              && forall x :: x in t.ios ==> x in s.ios && t.ios[x] == s.ios[x].(refs := t.ios[x].refs)
            else if can then
              t.madeIos == s.madeIos + {io} && f in t.users && t.users[f] == io && t.ios == s.ios[io := Io(1, flags, uid, isFile)]
            else t == s
  {
    FoundExactly(s, f, flags, uid);
  }

  /** Of a step: a fid that has a file open has just opened it with these flags, for this user, or had it open
      before; and what a file was opened with does not change. */
  ghost predicate SameFile(s: State, a: Action, t: State, f: FidId) {
    f in t.users && t.users[f] in t.ios ==>
      if a.OpenFid? && a.f == f then t.ios[t.users[f]].flags == a.flags && t.ios[t.users[f]].uid == a.uid
      else
        && f in s.users && s.users[f] == t.users[f] && s.users[f] in s.ios
        && t.ios[t.users[f]].flags == s.ios[s.users[f]].flags && t.ios[t.users[f]].uid == s.ios[s.users[f]].uid
  }

  lemma StepSameFile(s: State, a: Action, f: FidId)
    requires Inv(s) && Enabled(s, a)
    ensures SameFile(s, a, Next(s, a), f)
  {
    assert UserOk(s, f);
    if a.OpenFid? {
      OpenExactly(s, a.f, a.share, a.flags, a.uid, a.io, a.isFile, a.can);
      assert IoOk(s, a.io);
    }
  }

  /** `k` is the step at which `f` opened the file it has open after step `n`. */
  ghost predicate OpenedAt(ss: seq<State>, acts: seq<Action>, k: nat, n: nat, f: FidId) {
    && k < n < |ss| && k < |acts| && acts[k].OpenFid? && acts[k].f == f && f in ss[n].users
    && forall i :: k < i <= n ==> f in ss[i].users && ss[i].users[f] == ss[n].users[f]
  }

  /** The file a fid has open was opened with the flags of the fid's own open, for the user of that open, whoever
      opened it first. */
  lemma {:induction false} OwnFile(ss: seq<State>, acts: seq<Action>, n: nat, f: FidId) returns (k: nat)
    requires Run(ss, acts) && n < |ss| && f in ss[n].users
    ensures ss[n].users[f] in ss[n].ios && OpenedAt(ss, acts, k, n, f)
    ensures ss[n].ios[ss[n].users[f]].flags == acts[k].flags && ss[n].ios[ss[n].users[f]].uid == acts[k].uid
  {
    RunInv(ss, acts, n);
    assert UserOk(ss[n], f);
    RunInv(ss, acts, n - 1);
    StepSameFile(ss[n - 1], acts[n - 1], f);
    if acts[n - 1].OpenFid? && acts[n - 1].f == f {
      k := n - 1;
    } else {
      k := OwnFile(ss, acts, n - 1, f);
    }
  }

  lemma StepFile(s: State, a: Action, io: IoId)
    requires Inv(s) && Enabled(s, a) && io in Next(s, a).ios
    ensures var t := Next(s, a);
            if io in s.ios then t.ios[io] == s.ios[io].(refs := t.ios[io].refs)
            else a.OpenFid? && a.can && a.io == io && t.ios[io] == Io(1, a.flags, a.uid, a.isFile)
  {
    if a.OpenFid? {
      OpenExactly(s, a.f, a.share, a.flags, a.uid, a.io, a.isFile, a.can);
      assert IoOk(s, io);
    }
  }

  /** Every open file was opened by an open() that let the user in whose name it is. */
  lemma {:induction false} OpenedFor(ss: seq<State>, acts: seq<Action>, n: nat, io: IoId) returns (k: nat)
    requires Run(ss, acts) && n < |ss| && io in ss[n].ios
    ensures k < n && acts[k].OpenFid? && acts[k].can && acts[k].io == io
    ensures acts[k].uid == ss[n].ios[io].uid && acts[k].flags == ss[n].ios[io].flags && acts[k].isFile == ss[n].ios[io].isFile
  {
    RunInv(ss, acts, n - 1);
    StepFile(ss[n - 1], acts[n - 1], io);
    if io in ss[n - 1].ios {
      k := OpenedFor(ss, acts, n - 1, io);
    } else {
      k := n - 1;
    }
  }

  // ---- handlers ----

  /** A Path that is allocated and dropped again leaves no trace. */
  lemma AllocUndone(s: State, str: string, id: PathId, h: Holder)
    requires Inv(s) && h !in s.held && id !in s.madePaths
    ensures var t := Alloc(s, str, id, h); Release(t, h) == s.(madePaths := t.madePaths)
  {
    assert NameOk(s, str) && PathOk(s, id);
    if str in s.pool {
      assert PathOk(s, s.pool[str]);
      SharedUndone(s, str, id, h);
    } else {
      MadeUndone(s, str, id, h);
    }
  }

  lemma SharedUndone(s: State, str: string, id: PathId, h: Holder)
    requires str in s.pool && s.pool[str] in s.paths && s.paths[s.pool[str]].refs > 0 && h !in s.held
    ensures Release(Alloc(s, str, id, h), h) == s
  {
    var t := Alloc(s, str, id, h);
    assert t.held - {h} == s.held;
    assert Release(t, h).paths == s.paths;
  }

  lemma MadeUndone(s: State, str: string, id: PathId, h: Holder)
    requires str !in s.pool && id !in s.paths && h !in s.held
    ensures Release(Alloc(s, str, id, h), h) == s.(madePaths := s.madePaths + {id})
  {
    var t := Alloc(s, str, id, h);
    assert t.held - {h} == s.held;
    assert Release(t, h).paths == s.paths;
    assert Release(t, h).pool == s.pool;
  }

  /** f->path is dropped and replaced by the handler's Path. */
  function Replace(s: State, h: Holder, f: FidId): State {
    Pass(Release(s, ByFid(f)), h, ByFid(f))
  }

  /**
    Replacing the Path of a fid keeps the invariant exactly when the fid is not open, or the
    Path is the same one: the open file would stay on the list of the Path that was left.
  */
  lemma ReplaceExactly(s: State, h: Holder, f: FidId)
    requires Inv(s) && h in s.held && ByFid(f) in s.held && h.ByHandler?
    ensures Inv(Replace(s, h, f)) <==> f !in s.users || s.held[h] == s.held[ByFid(f)]
  {
    var b, t := ByFid(f), Replace(s, h, f);
    assert HolderOk(s, b) && HolderOk(s, h);
    if f !in s.users {
      ReleaseKeeps(s, b);
      PassKeeps(Release(s, b), h, b);
    } else if s.held[h] == s.held[b] {
      assert PathOk(s, s.held[h]);
      assert |Holders(s.held, s.held[h])| != 1 by {
        assert {b, h} <= Holders(s.held, s.held[h]);
        assert |Holders(s.held, s.held[h]) - {b, h}| == |Holders(s.held, s.held[h])| - 2;
      }
      assert t.held == s.held - {h};
      assert t == Release(s, h);
      ReleaseKeeps(s, h);
    } else {
      ReplacedOpen(s, h, f);
    }
  }

  lemma ReplacedOpen(s: State, h: Holder, f: FidId)
    requires Inv(s) && h in s.held && ByFid(f) in s.held && h.ByHandler?
    requires f in s.users && s.held[h] != s.held[ByFid(f)]
    ensures !UserOk(Replace(s, h, f), f)
  {
    assert UserOk(s, f) && HolderOk(s, h);
    assert ListedOk(s, s.held[ByFid(f)], s.users[f]);
  }

  lemma AllocHolds(s: State, str: string, id: PathId, h: Holder)
    requires Inv(s) && h !in s.held && id !in s.madePaths
    ensures var t := Alloc(s, str, id, h);
      && h in t.held && t.held[h] in t.paths && t.paths[t.held[h]].s == str
      && t.held == s.held[h := t.held[h]] && t.users == s.users && t.ios == s.ios && t.madeIos == s.madeIos
  {
    if str in s.pool {
      assert NameOk(s, str);
    }
  }

  lemma ReplacedPath(s: State, h: Holder, f: FidId)
    requires Inv(s) && h in s.held && ByFid(f) in s.held && h.ByHandler?
    ensures var t := Replace(s, h, f);
      && t.held == (s.held - {h})[ByFid(f) := s.held[h]] && t.users == s.users && t.ios == s.ios
      && s.held[h] in s.paths && s.held[h] in t.paths && t.paths[s.held[h]].s == s.paths[s.held[h]].s
  {
    var b := ByFid(f);
    assert HolderOk(s, b) && HolderOk(s, h);
    assert PathOk(s, s.held[h]);
    if s.held[h] == s.held[b] {
      assert |Holders(s.held, s.held[h])| != 1 by {
        assert {b, h} <= Holders(s.held, s.held[h]);
        assert |Holders(s.held, s.held[h]) - {b, h}| == |Holders(s.held, s.held[h])| - 2;
      }
    }
  }

  /** Dropping one Path leaves the string of another holder's Path. */
  lemma ReleaseOther(s: State, h: Holder, g: Holder)
    requires Inv(s) && h in s.held && g in s.held && g != h
    ensures s.held[g] in s.paths
    ensures var t := Release(s, h);
      && t.held == s.held - {h} && t.users == s.users
      && s.held[g] in t.paths && t.paths[s.held[g]].s == s.paths[s.held[g]].s
  {
    assert HolderOk(s, g) && HolderOk(s, h) && PathOk(s, s.held[h]);
    if s.held[h] == s.held[g] {
      assert {g, h} <= Holders(s.held, s.held[h]);
      assert |Holders(s.held, s.held[h]) - {g, h}| == |Holders(s.held, s.held[h])| - 2;
    }
  }

  lemma PassBack(s: State, f: FidId, h: Holder)
    requires ByFid(f) in s.held && h !in s.held
    ensures Pass(Pass(s, ByFid(f), h), h, ByFid(f)) == s
  {
    assert Pass(Pass(s, ByFid(f), h), h, ByFid(f)).held == s.held;
  }

  /** An open that is closed again leaves no trace but in the record of what was closed. */
  lemma OpenUndone(s: State, f: FidId, share: bool, flags: nat, uid: nat, io: IoId, isFile: bool, can: bool)
    requires Inv(s) && ByFid(f) in s.held && f !in s.users && io !in s.madeIos
    ensures var t := Open(s, f, share, flags, uid, io, isFile, can);
      f in t.users ==> Close(t, f) == s.(madeIos := t.madeIos, closed := Close(t, f).closed)
  {
    var id := s.held[ByFid(f)];
    assert HolderOk(s, ByFid(f)) && IoOk(s, io);
    var known := Shared(s, f, share, flags, uid);
    if known.Some? {
      JoinUndone(s, f, known.value);
    } else if can {
      var t := NewIo(s, f, io, flags, uid, isFile);
      assert Without([io] + s.paths[id].opens, io) == s.paths[id].opens;
      assert Close(t, f).paths == s.paths;
      assert Close(t, f).ios == s.ios;
      assert Close(t, f).users == s.users;
    }
  }

  lemma JoinUndone(s: State, f: FidId, io: IoId)
    requires Inv(s) && ByFid(f) in s.held && f !in s.users && io in s.ios
    ensures Close(JoinIo(s, f, io), f) == s
  {
    var t := Close(JoinIo(s, f, io), f);
    assert HolderOk(s, ByFid(f)) && IoOk(s, io);
    assert t.ios == s.ios;
    assert t.users == s.users;
  }

  /** Whose pointers and open files a step changes, and how. */
  lemma StepHolds(s: State, a: Action)
    requires Inv(s) && Enabled(s, a)
    ensures var t := Next(s, a);
            match a
            case Create(h, str, id) => t.held.Keys == s.held.Keys + {h} && t.held == s.held[h := t.held[h]]
                                       && t.held[h] in t.paths && t.paths[t.held[h]].s == str && t.users == s.users
            case Copy(from, h) => t.held == s.held[h := s.held[from]] && t.users == s.users
            case Drop(h) => t.held == s.held - {h} && t.users == s.users
            case Move(from, to) => t.held == (s.held - {from})[to := s.held[from]] && t.users == s.users
            case OpenFid(f, _, _, _, _, _, _) => t.held == s.held && t.users.Keys - {f} == s.users.Keys - {f}
                                                 && forall g :: g in s.users && g != f ==> t.users[g] == s.users[g]
            case CloseFid(f) => t.held == s.held && t.users == s.users - {f}
  {
    match a
    case Create(h, str, id) => AllocHolds(s, str, id, h);
    case Copy(from, h) => assert HolderOk(s, from);
    case Drop(h) => assert HolderOk(s, h);
    case Move(from, to) =>
    case OpenFid(f, share, flags, uid, io, isFile, can) => assert HolderOk(s, ByFid(f)); FoundExactly(s, f, flags, uid);
    case CloseFid(f) => assert UserOk(s, f);
  }
}
