/**
  The handlers of the file server that take and drop Paths, each with all its exits.

  What the system calls and the allocations answer are parameters.  A handler's own Paths are
  held under its request number, so that what other requests hold meanwhile is left open.
*/
module PathHandlers {
  import opened Common
  import opened Paths
  import opened PathTheorems

  /** The string path_append builds. */
  function Joined(s: State, h: Holder, name: string): string
    requires h in s.held && s.held[h] in s.paths
  {
    s.paths[s.held[h]].s + "/" + name
  }

  /** The same but for the identities used up. */
  ghost predicate Same(s: State, t: State) {
    t == s.(madePaths := t.madePaths, madeIos := t.madeIos)
  }

  /** A file may also have been opened and closed again. */
  ghost predicate Undone(s: State, t: State) {
    t == s.(madePaths := t.madePaths, madeIos := t.madeIos, closed := t.closed) && s.closed <= t.closed
  }

  ghost predicate Fresh(s: State, id: PathId) {
    id !in s.madePaths
  }

  /** `f` is now at `str`; nobody else's Path has changed, and no open file. */
  ghost predicate Moved(s: State, t: State, f: FidId, str: string) {
    && t.held.Keys == s.held.Keys && t.users == s.users && t.ios == s.ios && t.closed == s.closed
    && (forall h :: h in s.held && h != ByFid(f) ==> t.held[h] == s.held[h])
    && ByFid(f) in t.held && t.held[ByFid(f)] in t.paths && t.paths[t.held[ByFid(f)]].s == str
    && (forall id :: id in s.paths && id in t.paths ==> t.paths[id].s == s.paths[id].s)
  }

  lemma StringsKept(s: State, str: string, id: PathId, h: Holder, f: FidId)
    requires id !in s.paths
    ensures var t := Replace(Alloc(s, str, id, h), h, f);
      forall k :: k in s.paths && k in t.paths ==> t.paths[k].s == s.paths[k].s
  {
    StringsReplaced(Alloc(s, str, id, h), h, f);
  }

  lemma StringsReplaced(s: State, h: Holder, f: FidId)
    ensures var t := Replace(s, h, f);
      forall k :: k in t.paths ==> k in s.paths && t.paths[k].s == s.paths[k].s
  {
  }

  lemma ReplacedMoves(s: State, h: Holder, f: FidId, str: string, id: PathId)
    requires Inv(s) && ByFid(f) in s.held && h.ByHandler? && h !in s.held && Fresh(s, id)
    ensures var t := Replace(Alloc(s, str, id, h), h, f);
      && Moved(s, t, f, str)
      && (Inv(t) <==> f !in s.users || t.held[ByFid(f)] == s.held[ByFid(f)])
  {
    AllocKeeps(s, str, id, h);
    AllocHolds(s, str, id, h);
    var u := Alloc(s, str, id, h);
    ReplaceExactly(u, h, f);
    ReplacedPath(u, h, f);
    assert PathOk(s, id);
    StringsKept(s, str, id, h, f);
  }

  /** A name below a directory is another string, hence the fid leaves its Path. */
  lemma BelowIsOther(s: State, t: State, f: FidId, name: string)
    requires ByFid(f) in s.held && s.held[ByFid(f)] in s.paths && Moved(s, t, f, Joined(s, ByFid(f), name))
    ensures t.held[ByFid(f)] != s.held[ByFid(f)]
  {
    assert |Joined(s, ByFid(f), name)| > |s.paths[s.held[ByFid(f)]].s|;
  }

  lemma UndoneRelease(s: State, t: State, h: Holder)
    requires Undone(s, t)
    ensures Undone(Release(s, h), Release(t, h))
    ensures Same(s, t) ==> Same(Release(s, h), Release(t, h))
  {
  }

  /** After an open the fid's Path is there with the string it had. */
  lemma OpenHolds(s: State, t: State, f: FidId, share: bool, flags: nat, uid: nat, io: IoId, isFile: bool, can: bool)
    requires t == Open(s, f, share, flags, uid, io, isFile, can)
    requires ByFid(f) in s.held && s.held[ByFid(f)] in s.paths
    ensures s.held[ByFid(f)] in t.paths && t.paths[s.held[ByFid(f)]].s == s.paths[s.held[ByFid(f)]].s
  {
  }

  // ---- what the callees answer, and what other requests do meanwhile ----

  datatype MakeCalls = MakeCalls(append: bool, target: bool, make: bool, lstat: bool, reply: bool)
  datatype UnlinkCalls = UnlinkCalls(append: bool, lstat: bool, isDir: bool, remove: bool, reply: bool)
  datatype RenameCalls = RenameCalls(appendOld: bool, appendNew: bool, rename: bool, reply: bool)

  ghost predicate SameHolder(s: State, t: State, h: Holder) {
    (h in t.held <==> h in s.held) && (h in s.held ==> t.held[h] == s.held[h])
  }

  /** What the steps of other requests leave: the Paths of `r` and the fids it works on. */
  ghost predicate Others(s: State, t: State, r: nat, dirs: set<FidId>) {
    && Inv(t) && (forall slot {:trigger ByHandler(r, slot)} :: SameHolder(s, t, ByHandler(r, slot)))
    && forall f :: f in dirs && ByFid(f) in s.held ==> ByFid(f) in t.held
  }

  type Env = (nat, State) -> State

  ghost predicate Tame(env: Env, r: nat, dirs: set<FidId>) {
    forall k, s {:trigger env(k, s)} :: Inv(s) ==> Others(s, env(k, s), r, dirs)
  }

  ghost predicate Quiet(env: Env) {
    forall k, s {:trigger env(k, s)} :: env(k, s) == s
  }

  /** No holder but one variable of `r` has changed. */
  ghost predicate OnlySlot(s: State, t: State, r: nat, slot: nat) {
    forall h :: h != ByHandler(r, slot) ==> SameHolder(s, t, h)
  }

  /** The step is not one of `r`, and drops no fid that `r` works on. */
  predicate OfAnother(a: Action, r: nat, dirs: set<FidId>) {
    match a
    case Create(h, _, _) => h.ByHandler? ==> h.r != r
    case Copy(_, h) => h.ByHandler? ==> h.r != r
    case Drop(h) => if h.ByFid? then h.f !in dirs else h.r != r
    case Move(from, to) => (if from.ByFid? then from.f !in dirs else from.r != r) && (to.ByHandler? ==> to.r != r)
    case _ => true
  }

  /** Any step of another request is one that may come in between. */
  lemma StepOfOther(s: State, a: Action, r: nat, dirs: set<FidId>)
    requires Inv(s) && Enabled(s, a) && OfAnother(a, r, dirs)
    ensures Others(s, Next(s, a), r, dirs)
  {
    StepInv(s, a);
    match a
    case Drop(h) => assert HolderOk(s, h);
    case _ =>
  }

  class PathOps {
    var s: State

    constructor ()
      ensures s == Empty() && Inv(s)
    {
      s := Empty();
      new;
      EmptyInv();
    }

    /** path_append: fails only for want of memory. */
    method Append(from: Holder, name: string, h: Holder, id: PathId, mem: bool) returns (ok: bool)
      requires Inv(s) && from in s.held && h !in s.held && Fresh(s, id)
      modifies this
      ensures Inv(s) && ok == mem && old(s.held[from] in s.paths)
      ensures s == if ok then Alloc(old(s), Joined(old(s), from, name), id, h) else old(s)
    {
      assert HolderOk(s, from);
      ok := mem;
      if ok {
        AllocKeeps(s, Joined(s, from, name), id, h);
        s := Alloc(s, s.paths[s.held[from]].s + "/" + name, id, h);
      }
    }

    method FidAlloc(f: FidId, name: string, id: PathId, mem: bool) returns (ok: bool)
      requires Inv(s) && ByFid(f) !in s.held && Fresh(s, id)
      modifies this
      ensures Inv(s) && ok == mem
      ensures s == if ok then Alloc(old(s), name, id, ByFid(f)) else old(s)
    {
      ok := mem;
      if ok {
        AllocKeeps(s, name, id, ByFid(f));
        s := Alloc(s, name, id, ByFid(f));
      }
    }

    /** diod_fidclone: the clone shares the Path and not the open file. */
    method FidClone(f: FidId, g: FidId, mem: bool) returns (ok: bool)
      requires Inv(s) && ByFid(f) in s.held && ByFid(g) !in s.held
      modifies this
      ensures Inv(s) && ok == mem
      ensures s == if ok then Share(old(s), ByFid(f), ByFid(g)) else old(s)
      ensures ok ==> ByFid(g) in s.held && s.held[ByFid(g)] == old(s.held[ByFid(f)]) && g !in s.users
    {
      assert HolderOk(s, ByFid(f)) && UserOk(s, g);
      ok := mem;
      if ok {
        ShareKeeps(s, ByFid(f), ByFid(g));
        s := Share(s, ByFid(f), ByFid(g));
      }
    }

    /** diod_fiddestroy: an open fid is closed through its Path before the Path goes. */
    method FidDestroy(f: FidId)
      requires Inv(s)
      modifies this
      ensures Inv(s) && ByFid(f) !in s.held && f !in s.users
      ensures s.held == old(s.held) - {ByFid(f)} && s.users == old(s.users) - {f}
    {
      assert UserOk(s, f);
      if ByFid(f) in s.held {
        assert HolderOk(s, ByFid(f));
        if f in s.users {
          CloseKeeps(s, f);
          s := Close(s, f);
        }
        assert HolderOk(s, ByFid(f));
        ReleaseKeeps(s, ByFid(f));
        s := Release(s, ByFid(f));
      }
    }

    /** diod_attach: what follows the allocation succeeds or the fid is destroyed again. */
    method Attach(f: FidId, name: string, id: PathId, mem: bool, sys: bool) returns (ok: bool)
      requires Inv(s) && ByFid(f) !in s.held && Fresh(s, id)
      modifies this
      ensures Inv(s) && ok == (mem && sys)
      ensures ok ==> s == Alloc(old(s), name, id, ByFid(f))
      ensures !ok ==> Same(old(s), s)
    {
      assert UserOk(s, f);
      ghost var s0 := s;
      var got := FidAlloc(f, name, id, mem);
      ok := got && sys;
      if got && !sys {
        AllocUndone(s0, name, id, ByFid(f));
        ReleaseKeeps(s, ByFid(f));
        s := Release(s, ByFid(f));
      }
    }

    /**
      diod_walk and diod_rename: the Path of `f` is replaced by a child of that of `dir`, or
      nothing changes.  The invariant is kept exactly when the fid is not open, or keeps its Path.
    */
    method Replaced(f: FidId, dir: FidId, name: string, r: nat, id: PathId, mem: bool, sys: bool) returns (ok: bool)
      requires Inv(s) && ByFid(f) in s.held && ByFid(dir) in s.held && ByHandler(r, 0) !in s.held && Fresh(s, id)
      modifies this
      ensures ok == (mem && sys) && ByHandler(r, 0) !in s.held && old(s.held[ByFid(dir)] in s.paths)
      ensures !ok ==> Inv(s) && Same(old(s), s)
      ensures ok ==> Moved(old(s), s, f, Joined(old(s), ByFid(dir), name))
      ensures ok ==> (Inv(s) <==> f !in old(s.users) || s.held[ByFid(f)] == old(s.held[ByFid(f)]))
    {
      ghost var s0 := s;
      var h := ByHandler(r, 0);
      var got := Append(ByFid(dir), name, h, id, mem);
      ok := got && sys;
      if ok {
        ReplacedMoves(s0, h, f, Joined(s0, ByFid(dir), name), id);
        s := Release(s, ByFid(f));
        s := Pass(s, h, ByFid(f));
      } else if got {
        AllocUndone(s0, Joined(s0, ByFid(dir), name), id, h);
        ReleaseKeeps(s, h);
        s := Release(s, h);
      }
    }

    /** diod_walk: nothing is looked up below a mount point. */
    method Walk(f: FidId, name: string, mountPoint: bool, r: nat, id: PathId, mem: bool, sys: bool) returns (ok: bool)
      requires Inv(s) && ByFid(f) in s.held && ByHandler(r, 0) !in s.held && Fresh(s, id)
      modifies this
      ensures ok == (!mountPoint && mem && sys) && ByHandler(r, 0) !in s.held && old(s.held[ByFid(f)] in s.paths)
      ensures !ok ==> Inv(s) && Same(old(s), s)
      ensures ok ==> Moved(old(s), s, f, Joined(old(s), ByFid(f), name))
      ensures ok ==> (Inv(s) <==> f !in old(s.users))
    {
      assert HolderOk(s, ByFid(f));
      ok := false;
      if !mountPoint {
        ghost var s0 := s;
        ok := Replaced(f, f, name, r, id, mem, sys);
        if ok {
          BelowIsOther(s0, s, f, name);
        }
      }
    }

    // ---- handlers that need a Path for the call only ----

    /** Other requests may step in. */
    method Pause(k: nat, r: nat, dirs: set<FidId>, env: Env)
      requires Inv(s) && Tame(env, r, dirs)
      modifies this
      ensures Inv(s) && Others(old(s), s, r, dirs) && (Quiet(env) ==> s == old(s))
    {
      s := env(k, s);
    }

    /** path_append into a variable of the handler. */
    method TakePath(dir: FidId, name: string, r: nat, slot: nat, pick: State -> PathId, mem: bool) returns (got: bool)
      requires Inv(s) && ByFid(dir) in s.held && ByHandler(r, slot) !in s.held && forall x :: Fresh(x, pick(x))
      modifies this
      ensures Inv(s) && got == mem && (!got ==> s == old(s)) && OnlySlot(old(s), s, r, slot)
      ensures got ==> ByHandler(r, slot) in s.held && Same(old(s), Release(s, ByHandler(r, slot)))
    {
      ghost var s0 := s;
      var id := pick(s);
      got := Append(ByFid(dir), name, ByHandler(r, slot), id, mem);
      if got {
        AllocUndone(s0, Joined(s0, ByFid(dir), name), id, ByHandler(r, slot));
        AllocHolds(s0, Joined(s0, ByFid(dir), name), id, ByHandler(r, slot));
      }
    }

    /** path_decref of such a variable. */
    method DropPath(r: nat, slot: nat)
      requires Inv(s) && ByHandler(r, slot) in s.held
      modifies this
      ensures Inv(s) && s == Release(old(s), ByHandler(r, slot)) && ByHandler(r, slot) !in s.held && OnlySlot(old(s), s, r, slot)
    {
      assert HolderOk(s, ByHandler(r, slot));
      ReleaseKeeps(s, ByHandler(r, slot));
      s := Release(s, ByHandler(r, slot));
    }

    method Symlink(dir: FidId, name: string, r: nat, pick: State -> PathId, c: MakeCalls, env: Env) returns (ok: bool)
      requires Inv(s) && ByFid(dir) in s.held && ByHandler(r, 0) !in s.held
      requires Tame(env, r, {dir}) && forall x :: Fresh(x, pick(x))
      modifies this
      ensures Inv(s) && ByHandler(r, 0) !in s.held && ok == (c.append && c.target && c.make && c.lstat && c.reply)
      ensures Quiet(env) ==> Same(old(s), s)
    {
      ok := false;
      var npath;
      label body: {
        npath := TakePath(dir, name, r, 0, pick, c.append);
        if !npath {
          break body;
        }
        if !c.target {
          break body;
        }
        Pause(0, r, {dir}, env);
        if !(c.make && c.lstat) {
          break body;
        }
        if !c.reply {
          break body;
        }
        DropPath(r, 0);
        return true;
      }
      if npath {
        DropPath(r, 0);
      }
    }

    /** diod_mknod and diod_mkdir. */
    method MakeNode(dir: FidId, name: string, r: nat, pick: State -> PathId, c: MakeCalls, env: Env) returns (ok: bool)
      requires Inv(s) && ByFid(dir) in s.held && ByHandler(r, 0) !in s.held
      requires Tame(env, r, {dir}) && forall x :: Fresh(x, pick(x))
      modifies this
      ensures Inv(s) && ByHandler(r, 0) !in s.held && ok == (c.append && c.make && c.lstat && c.reply)
      ensures Quiet(env) ==> Same(old(s), s)
    {
      ok := false;
      var npath;
      label body: {
        npath := TakePath(dir, name, r, 0, pick, c.append);
        if !npath {
          break body;
        }
        Pause(0, r, {dir}, env);
        if !(c.make && c.lstat) {
          break body;
        }
        if !c.reply {
          break body;
        }
        DropPath(r, 0);
        return true;
      }
      if npath {
        DropPath(r, 0);
      }
    }

    method Link(dir: FidId, name: string, r: nat, pick: State -> PathId, c: MakeCalls, env: Env) returns (ok: bool)
      requires Inv(s) && ByFid(dir) in s.held && ByHandler(r, 0) !in s.held
      requires Tame(env, r, {dir}) && forall x :: Fresh(x, pick(x))
      modifies this
      ensures Inv(s) && ByHandler(r, 0) !in s.held && ok == (c.append && c.make && c.reply)
      ensures Quiet(env) ==> Same(old(s), s)
    {
      ok := false;
      var npath;
      label body: {
        npath := TakePath(dir, name, r, 0, pick, c.append);
        if !npath {
          break body;
        }
        Pause(0, r, {dir}, env);
        if !c.make {
          break body;
        }
        if !c.reply {
          break body;
        }
        DropPath(r, 0);
        return true;
      }
      if npath {
        DropPath(r, 0);
      }
    }

    method Unlinkat(dir: FidId, name: string, removeDir: bool, r: nat, pick: State -> PathId, c: UnlinkCalls, env: Env)
      returns (ok: bool)
      requires Inv(s) && ByFid(dir) in s.held && ByHandler(r, 0) !in s.held
      requires Tame(env, r, {dir}) && forall x :: Fresh(x, pick(x))
      modifies this
      ensures Inv(s) && ByHandler(r, 0) !in s.held
      ensures ok == (c.append && c.lstat && (c.isDir ==> removeDir) && c.remove && c.reply)
      ensures Quiet(env) ==> Same(old(s), s)
    {
      ok := false;
      var rpath;
      label body: {
        rpath := TakePath(dir, name, r, 0, pick, c.append);
        if !rpath {
          break body;
        }
        Pause(0, r, {dir}, env);
        if !c.lstat {
          break body;
        }
        if c.isDir {
          if !removeDir {
            break body;
          }
          if !c.remove {
            break body;
          }
        } else if !c.remove {
          break body;
        }
        Pause(1, r, {dir}, env);
        if !c.reply {
          break body;
        }
        DropPath(r, 0);
        return true;
      }
      if rpath {
        DropPath(r, 0);
      }
    }

    /** The second Path of diod_renameat, from where it is appended to where it is dropped. */
    method RenameTo(newDir: FidId, newName: string, r: nat, pick: State -> PathId, c: RenameCalls, dirs: set<FidId>, env: Env)
      returns (ok: bool)
      requires Inv(s) && ByFid(newDir) in s.held && ByHandler(r, 0) in s.held && ByHandler(r, 1) !in s.held
      requires Tame(env, r, dirs) && forall x :: Fresh(x, pick(x))
      modifies this
      ensures Inv(s) && ByHandler(r, 0) in s.held && ByHandler(r, 1) !in s.held && ok == (c.appendNew && c.rename && c.reply)
      ensures Quiet(env) ==> Same(old(s), s)
    {
      ok := false;
      var npath;
      label body: {
        npath := TakePath(newDir, newName, r, 1, pick, c.appendNew);
        if !npath {
          break body;
        }
        assert ByHandler(r, 0) in s.held;
        Pause(1, r, dirs, env);
        assert ByHandler(r, 0) in s.held;
        if !c.rename {
          break body;
        }
        if !c.reply {
          break body;
        }
        DropPath(r, 1);
        return true;
      }
      if npath {
        DropPath(r, 1);
      }
    }

    /** diod_renameat: two such Paths, the second only if the first could be had. */
    method Renameat(oldDir: FidId, oldName: string, newDir: FidId, newName: string, r: nat, pick: State -> PathId,
                    c: RenameCalls, env: Env) returns (ok: bool)
      requires Inv(s) && ByFid(oldDir) in s.held && ByFid(newDir) in s.held
      requires ByHandler(r, 0) !in s.held && ByHandler(r, 1) !in s.held
      requires Tame(env, r, {oldDir, newDir}) && forall x :: Fresh(x, pick(x))
      modifies this
      ensures Inv(s) && ByHandler(r, 0) !in s.held && ByHandler(r, 1) !in s.held
      ensures ok == (c.appendOld && c.appendNew && c.rename && c.reply)
      ensures Quiet(env) ==> Same(old(s), s)
    {
      ok := false;
      var opath := TakePath(oldDir, oldName, r, 0, pick, c.appendOld);
      if opath {
        Pause(0, r, {oldDir, newDir}, env);
        ghost var s1 := s;
        ok := RenameTo(newDir, newName, r, pick, c, {oldDir, newDir}, env);
        if Quiet(env) { UndoneRelease(s1, s, ByHandler(r, 0)); }
        DropPath(r, 0);
      }
    }

    /** ioctx_open: the first fitting open file of the Path, or a new one. */
    method IoctxOpen(f: FidId, share: bool, flags: nat, uid: nat, io: IoId, isFile: bool, can: bool) returns (ok: bool)
      requires Inv(s) && ByFid(f) in s.held && f !in s.users && io !in s.madeIos
      modifies this
      ensures Inv(s) && s == Open(old(s), f, share, flags, uid, io, isFile, can)
      ensures ok <==> f in s.users
      ensures ok <==> can || Shared(old(s), f, share, flags, uid).Some?
    {
      assert HolderOk(s, ByFid(f));
      OpenKeeps(s, f, share, flags, uid, io, isFile, can);
      var id := s.held[ByFid(f)];
      var opens := s.paths[id].opens;
      var found: Option<IoId> := None;
      if share && flags % 4 == 0 {
        var i := 0;
        while i < |opens| && found.None?
          invariant 0 <= i <= |opens|
          invariant if found.None? then FindIo(s, opens, flags, uid) == FindIo(s, opens[i..], flags, uid)
                    else FindIo(s, opens, flags, uid) == found && found.value in s.ios
          decreases |opens| - i, if found.None? then 1 else 0
        {
          var ip := opens[i];
          assert ListedOk(s, id, ip);
          if s.ios[ip].isFile && s.ios[ip].flags == flags && s.ios[ip].uid == uid {
            found := Some(ip);
          } else {
            i := i + 1;
          }
        }
      }
      if found.Some? {
        s := s.(ios := s.ios[found.value := s.ios[found.value].(refs := s.ios[found.value].refs + 1)]);
        s := s.(users := s.users[f := found.value]);
      } else if can {
        s := s.(paths := s.paths[id := s.paths[id].(opens := [io] + opens)], madeIos := s.madeIos + {io});
        s := s.(ios := s.ios[io := Io(1, flags, uid, isFile)], users := s.users[f := io]);
      }
      ok := found.Some? || can;
    }

    /** diod_lopen: refused if open already; closed again if there is no reply to send. */
    method Lopen(f: FidId, share: bool, flags: nat, uid: nat, io: IoId, isFile: bool, can: bool, mem: bool) returns (ok: bool)
      requires Inv(s) && ByFid(f) in s.held && io !in s.madeIos
      modifies this
      ensures Inv(s) && s.held == old(s.held)
      ensures ok ==> f !in old(s.users) && s == Open(old(s), f, share, flags, uid, io, isFile, can) && f in s.users
      ensures !ok ==> Undone(old(s), s)
    {
      ok := false;
      if f !in s.users {
        ghost var s0 := s;
        ok := IoctxOpen(f, share, flags, uid, io, isFile, can);
        if ok && !mem {
          OpenUndone(s0, f, share, flags, uid, io, isFile, can);
          CloseKeeps(s, f);
          s := Close(s, f);
          ok := false;
        }
      }
    }

    /** The end of diod_lcreate: with the new Path open the old one is dropped, or else the new one. */
    method OpenNew(f: FidId, share: bool, flags: nat, uid: nat, io: IoId, isFile: bool, h: Holder, can: bool, mem: bool)
      returns (ok: bool)
      requires Inv(s) && ByFid(f) in s.held && h.ByHandler? && h in s.held && f !in s.users && io !in s.madeIos
      modifies this
      ensures Inv(s) && old(s.held[ByFid(f)] in s.paths)
      ensures ok ==> f in s.users && s.held.Keys == old(s.held.Keys) - {h} && ByFid(f) in s.held
      ensures ok ==> s.held[ByFid(f)] in s.paths && s.paths[s.held[ByFid(f)]].s == old(s.paths[s.held[ByFid(f)]].s)
      ensures !ok ==> Undone(Release(old(s), ByFid(f)), s)
    {
      assert HolderOk(s, ByFid(f));
      ghost var s0 := s;
      ok := Lopen(f, share, flags, uid, io, isFile, can, mem);
      if ok {
        OpenHolds(s0, s, f, share, flags, uid, io, isFile, can);
        ReleaseKeeps(s, h);
        ReleaseOther(s, h, ByFid(f));
        s := Release(s, h);
      } else {
        UndoneRelease(s0, s, ByFid(f));
        ReleaseKeeps(s, ByFid(f));
        s := Release(s, ByFid(f));
      }
    }

    /**
      diod_lcreate: the fid takes the new Path before the file is opened on it.  On every
      failing exit the old Path comes back and nothing is left behind.
    */
    method Lcreate(f: FidId, name: string, share: bool, flags: nat, uid: nat, io: IoId, isFile: bool,
                   r: nat, id: PathId, mem: bool, can: bool, mem2: bool) returns (ok: bool)
      requires Inv(s) && ByFid(f) in s.held && ByHandler(r, 0) !in s.held && Fresh(s, id) && io !in s.madeIos
      modifies this
      ensures Inv(s) && ByHandler(r, 0) !in s.held && old(s.held[ByFid(f)] in s.paths)
      ensures ok ==> f !in old(s.users) && f in s.users && s.held.Keys == old(s.held.Keys)
      ensures ok ==> s.held[ByFid(f)] in s.paths && s.paths[s.held[ByFid(f)]].s == Joined(old(s), ByFid(f), name)
      ensures !ok ==> Undone(old(s), s)
    {
      assert HolderOk(s, ByFid(f));
      ok := false;
      if f !in s.users {
        ghost var s0 := s;
        var h := ByHandler(r, 0);
        PassKeeps(s, ByFid(f), h);
        s := Pass(s, ByFid(f), h);
        PassBack(s0, f, h);
        ghost var s1 := s;
        var got := Append(h, name, ByFid(f), id, mem);
        if got {
          AllocUndone(s1, Joined(s1, h, name), id, ByFid(f));
          AllocHolds(s1, Joined(s1, h, name), id, ByFid(f));
          ok := OpenNew(f, share, flags, uid, io, isFile, h, can, mem2);
          if ok {
            return;
          }
        }
        PassKeeps(s, h, ByFid(f));
        s := Pass(s, h, ByFid(f));
      }
    }

    /** diod_clunk closes the file; the fid itself goes later. */
    method Clunk(f: FidId)
      requires Inv(s) && ByFid(f) in s.held
      modifies this
      ensures Inv(s) && s.held == old(s.held) && s.users == old(s.users) - {f}
    {
      assert UserOk(s, f);
      if f in s.users {
        CloseKeeps(s, f);
        s := Close(s, f);
      }
    }
  }

  /** What is joined can be told apart again: the last slash is the one that was put in, as a name has none. */
  lemma JoinedSplits(s: State, h: Holder, name: string, k: nat)
    requires h in s.held && s.held[h] in s.paths && '/' !in name
    ensures var p, d := Joined(s, h, name), s.paths[s.held[h]].s;
            && p[..|d|] == d && p[|d| + 1..] == name
            && (k < |p| && p[k] == '/' && '/' !in p[k + 1..] <==> k == |d|)
  {
    var p, d := Joined(s, h, name), s.paths[s.held[h]].s;
    assert p[..|d|] == d && p[|d| + 1..] == name;
    if k < |d| {
      assert p[k + 1..][|d| - k - 1] == '/';
    } else if |d| < k < |p| {
      assert p[k] == name[k - |d| - 1] && name[k - |d| - 1] in name;
    }
  }
}
