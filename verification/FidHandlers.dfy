/**
  The request handlers that take and drop fid references, each with all its exits, and
  np_postprocess_request.

  What the callees answer are parameters.  Between any two steps of a handler other requests may do
  what they like: `env` stands for that, and is only held to what their steps keep.  The label
  `body` is left where the code jumps to the end of the function.
*/
module FidHandlers {
  import opened Common
  import opened Fids
  import opened FidProtocol
  import opened FidInv
  import opened FidManners

  const EIO: nat := 5
  const EPERM: nat := 1
  const ENOMEM: nat := 12
  const EROFS: nat := 30
  const ENOSYS: nat := 38
  const EOPNOTSUPP: nat := 95
  const MAXWELEM: nat := 16

  ghost predicate Good(s: State) {
    Inv(s) && Shy(s)
  }

  // ---- the other requests ----

  ghost predicate SameHolder(t: Table, u: Table, h: Holder) {
    (h in u.held <==> h in t.held) && (h in t.held ==> u.held[h] == t.held[h])
  }

  /** What the steps of other requests leave of `r`. */
  ghost predicate Others(s: State, t: State, r: ReqId) {
    && Good(t) && r in s.reqs && r in t.reqs && t.reqs[r] == s.reqs[r]
    && SameHolder(s.t, t.t, ByReq(r)) && SameHolder(s.t, t.t, ByTemp(r)) && SameHolder(s.t, t.t, ByNew(r))
  }

  type Env = (nat, State) -> State

  ghost predicate Tame(env: Env, r: ReqId) {
    forall k, s {:trigger env(k, s)} :: Good(s) && r in s.reqs ==> Others(s, env(k, s), r)
  }

  /** Any step of another request is such a thing to happen. */
  lemma StepOfOther(s: State, a: Action, r: ReqId)
    requires Good(s) && r in s.reqs && a.r != r && Possible(s, a) && Considerate(s, a)
    requires a.Recv? && Drops(a.kind) ==> MayDrop(s, a.num)
    ensures Others(s, Next(s, a), r)
  {
    ShyIsHarmless(s, a);
    StepInv(s, a);
    StepShy(s, a);
    OtherPointers(s, a, ByReq(r));
    OtherPointers(s, a, ByTemp(r));
    OtherPointers(s, a, ByNew(r));
    if a.Recv? { ReqSeen(s, r); }
  }

  lemma RecvOther(s: State, a: Action, h: Holder)
    requires Inv(s) && Possible(s, a) && a.Recv? && !h.ByClient? && a.r != h.r
    ensures SameHolder(s.t, Next(s, a).t, h)
  {
    RecvIsNew(s, a.r);
    if Creates(a.kind) {
      CreateKeeps(s.t, a.num, s.loose, a.id, ByReq(a.r));
      if CanCreate(s.t, a.num, s.loose) && !a.mem {
        ReleaseKeeps(CreateFid(s.t, a.num, s.loose, a.id, ByReq(a.r)), ByReq(a.r));
      }
    } else {
      FindKeeps(s.t, a.num, ByReq(a.r));
    }
  }

  lemma OtherPointers(s: State, a: Action, h: Holder)
    requires Good(s) && Enabled(s, a) && !h.ByClient? && a.r != h.r
    ensures SameHolder(s.t, Next(s, a).t, h)
  {
    match a
    case Recv(r, kind, num, other, id, mem) => RecvOther(s, a, h);
    case Drop(r) => if ByReq(r) in s.t.held { ReleaseKeeps(s.t, ByReq(r)); }
    case Start(r) =>
    case TempFind(r) =>
      assert PointerOk(s, ByTemp(r));
      FindKeeps(s.t, s.reqs[r].other.value, ByTemp(r));
    case TempDrop(r, e) => assert ReqOk(s, r); ReleaseKeeps(s.t, ByTemp(r));
    case Grant(r) =>
      assert PendingOk(s, r, s.t.held[ByReq(r)]);
      ShareKeeps(s.t, ByReq(r), ByClient(s.t.held[ByReq(r)]));
    case MakeNew(r, id, e) =>
      assert PointerOk(s, ByNew(r));
      CreateKeeps(s.t, NewNum(s.reqs[r]).value, s.loose, id, ByNew(r));
    case Inherit(r) =>
    case KeepNew(r) =>
    case LoseNew(r, e) => ReleaseKeeps(s.t, ByNew(r));
    case ClunkFid(r, e) =>
      assert ReqOk(s, r) && HolderOk(s.t, ByClient(s.t.held[ByReq(r)]));
      ReleaseKeeps(s.t, ByClient(s.t.held[ByReq(r)]));
    case Stop(r, e) =>
    case Finish(r) => FinishOther(s, r, h);
  }

  lemma FinishOther(s: State, r: ReqId, h: Holder)
    requires Good(s) && Possible(s, Finish(r)) && !Strays(s, r) && !h.ByClient? && h.r != r
    ensures SameHolder(s.t, DoFinish(s, r).t, h)
  {
    assert ReqOk(s, r);
    var q := s.reqs[r];
    if !(q.ecode == EINTR && Drops(q.kind) && ByReq(r) in s.t.held) {
      if q.ecode == EINTR && q.kind.Walk? && q.other.Some? { WalkFixUpIdle(s, r); }
      if ByReq(r) in s.t.held { ReleaseKeeps(s.t, ByReq(r)); }
    }
  }

  // ---- what the callees answer; errors are given by their code, zero is success ----

  datatype Callees = Callees(
    readOnly: bool,             // FID_FLAGS_ROFS
    ctl: bool,                  // Qttmp
    auth: bool,                 // Qtauth
    fsid: nat,                  // np_setfsid
    known: bool,                // the server has the operation
    op: nat)                    // what it returns

  datatype AttachCallees = AttachCallees(
    isAuth: bool,               // the afid is one
    user: nat,                  // all that leads to fid->user, checkauth and the connection's user included
    remap: nat, exported: bool, known: bool, op: nat)

  datatype WalkCallees = WalkCallees(
    names: nat, known: bool, clone: nat, aname: bool, fsid: nat,
    walks: seq<(nat, bool)>,    // each step of the walk, and whether it came to a directory
    reply: bool)

  /** One step of a walk. */
  function StepAt(walks: seq<(nat, bool)>, i: nat): (nat, bool) {
    if i < |walks| then walks[i] else (0, true)
  }

  /** The loop of np_walk: how many names are walked, and the error that stopped it.  All of these could be walked, each
      but the last came to a directory, and the walk ends at the last name, an error or what is no directory. */
  function Walked(walks: seq<(nat, bool)>, names: nat, i: nat): (r: (nat, nat))
    requires i <= names
    ensures i <= r.0 <= names && (forall k :: i <= k < r.0 ==> StepAt(walks, k).0 == 0 && (k + 1 < r.0 ==> StepAt(walks, k).1))
    ensures r.1 == if r.0 == names || (r.0 > i && !StepAt(walks, r.0 - 1).1) then 0 else StepAt(walks, r.0).0
    ensures r.0 < names && !(r.0 > i && !StepAt(walks, r.0 - 1).1) ==> r.1 != 0
    decreases names - i
  {
    if i == names then (i, 0)
    else
      var w := StepAt(walks, i);
      if w.0 != 0 then (i, w.0)
      else if i + 1 < names && !w.1 then (i + 1, 0)
      else Walked(walks, names, i + 1)
  }

  /** A number that leads to a fid. */
  ghost predicate InUse(s: State, num: nat) {
    exists k :: Matches(s.t, k, num)
  }

  lemma InUseIsFound(s: State, num: nat)
    requires Good(s)
    ensures InUse(s, num) <==> Lookup(s.t, num).Some?
  {
    if InUse(s, num) {
      var k :| Matches(s.t, k, num);
      LookupFinds(s.t, num, k);
    }
    if Lookup(s.t, num).Some? { LookupFinds(s.t, num, Lookup(s.t, num).value); }
  }

  /** Nothing that a handler which changes the tree asks about speaks against it. */
  predicate Permits(c: Callees) {
    !c.readOnly && !c.ctl && c.fsid == 0 && c.known && c.op == 0
  }

  /** The handler has come to its end with the error `e`, and has nothing in hand but req->fid. */
  ghost predicate Ended(s: State, t: State, r: ReqId, e: nat) {
    && Good(t) && (At(t, r, Done) || At(t, r, Failed))
    && r in s.reqs && t.reqs[r] == s.reqs[r].(stage := t.reqs[r].stage, ecode := e)
    && ByTemp(r) !in t.t.held && ByNew(r) !in t.t.held
  }

  class Conn {
    var s: State
    var trace: seq<Action>            // the steps of the request whose handler this is

    constructor (loose: bool)
      ensures Good(s) && s == Init(loose) && trace == []
    {
      s := Init(loose);
      trace := [];
      new;
      InitInv(loose);
    }

    /** A step of the handler, and then what the others do. */
    method Step(r: ReqId, a: Action, env: Env)
      requires Good(s) && Possible(s, a) && a.r == r && !a.Recv? && !a.Drop? && !a.Finish? && Tame(env, r)
      modifies this
      ensures Good(s) && Others(Next(old(s), a), s, r) && trace == old(trace) + [a]
    {
      ShyIsHarmless(s, a);
      StepInv(s, a);
      StepShy(s, a);
      s := Next(s, a);
      trace := trace + [a];
      s := env(|trace|, s);
    }

    /** A step that ends the handler. */
    method EndStep(r: ReqId, a: Action, env: Env, e: nat)
      requires Good(s) && Possible(s, a) && a.r == r && Tame(env, r)
      requires a == TempDrop(r, e) || a == ClunkFid(r, e) || a == Stop(r, e) || a == LoseNew(r, e) || (a == KeepNew(r) && e == 0)
      modifies this
      ensures Ended(old(s), s, r, e) && trace == old(trace) + [a] && (a.LoseNew? ==> At(s, r, Failed))
    {
      Step(r, a, env);
      NothingInHand(s, r);
    }

    /** np_fid_incref for the client. */
    method GrantStep(r: ReqId, env: Env)
      requires Good(s) && Possible(s, Grant(r)) && Tame(env, r)
      modifies this
      ensures Good(s) && r in s.reqs && trace == old(trace) + [Grant(r)]
      ensures s.reqs[r] == old(s.reqs[r]).(stage := if old(At(s, r, Running)) then Granted else Both)
    {
      Step(r, Grant(r), env);
    }

    /** newfid->flags = fid->flags */
    method InheritStep(r: ReqId, env: Env)
      requires Good(s) && At(s, r, Made) && Tame(env, r)
      modifies this
      ensures Good(s) && r in s.reqs && s.reqs[r] == old(s.reqs[r]) && trace == old(trace) + [Inherit(r)]
      ensures ByNew(r) in s.t.held
    {
      assert ReqOk(s, r);
      Step(r, Inherit(r), env);
      assert ReqOk(s, r);
    }

    /** np_fid_find for a second fid. */
    method FindSecond(r: ReqId, env: Env) returns (found: bool)
      requires Good(s) && At(s, r, Running) && LooksUp(s.reqs[r].kind) && s.reqs[r].other.Some? && Tame(env, r)
      modifies this
      ensures Good(s) && At(s, r, if found then Looked else Running) && s.reqs[r] == old(s.reqs[r]).(stage := s.reqs[r].stage)
      ensures SameHolder(old(s.t), s.t, ByReq(r)) && ByNew(r) !in s.t.held && (ByTemp(r) in s.t.held <==> found)
      ensures found <==> old(InUse(s, s.reqs[r].other.value))
      ensures trace == old(trace) + [TempFind(r)]
    {
      assert PointerOk(s, ByTemp(r)) && PointerOk(s, ByNew(r));
      FindKeeps(s.t, s.reqs[r].other.value, ByTemp(r));
      InUseIsFound(s, s.reqs[r].other.value);
      Step(r, TempFind(r), env);
      found := s.reqs[r].stage.Looked?;
    }

    /** `if (dfid) np_fid_decref (&dfid)` at the end of a handler. */
    method DropSecond(r: ReqId, found: bool, e: nat, env: Env)
      requires Good(s) && At(s, r, if found then Looked else Running) && s.reqs[r].kind.Pair? && Tame(env, r)
      modifies this
      ensures Ended(old(s), s, r, e)
      ensures trace == old(trace) + [if found then TempDrop(r, e) else Stop(r, e)]
    {
      EndStep(r, if found then TempDrop(r, e) else Stop(r, e), env, e);
    }

    /** np_rename */
    method Rename(r: ReqId, c: Callees, env: Env) returns (e: nat)
      requires Good(s) && At(s, r, Running) && s.reqs[r].kind.Pair? && s.reqs[r].other.Some? && Tame(env, r)
      modifies this
      ensures Ended(old(s), s, r, e)
      ensures e == 0 <==> old(ByReq(r) in s.t.held && InUse(s, s.reqs[r].other.value)) && Permits(c)
      ensures e == 0 ==> trace == old(trace) + [TempFind(r), TempDrop(r, e)]
    {
      var fid, dfid := ByReq(r) in s.t.held, false;
      label body: {
        if !fid { e := EIO; break body; }
        dfid := FindSecond(r, env);
        if !dfid { e := EIO; break body; }
        if c.readOnly { e := EROFS; break body; }
        if c.ctl { e := EPERM; break body; }
        e := c.fsid;
        if e != 0 { break body; }
        if !c.known { e := ENOSYS; break body; }
        e := c.op;
      }
      DropSecond(r, dfid, e, env);
    }

    /** np_link: the second fid is the file. */
    method Link(r: ReqId, c: Callees, env: Env) returns (e: nat)
      requires Good(s) && At(s, r, Running) && s.reqs[r].kind.Pair? && s.reqs[r].other.Some? && Tame(env, r)
      modifies this
      ensures Ended(old(s), s, r, e)
      ensures e == 0 <==> old(ByReq(r) in s.t.held && InUse(s, s.reqs[r].other.value)) && Permits(c)
      ensures e == 0 ==> trace == old(trace) + [TempFind(r), TempDrop(r, e)]
    {
      var dfid, fid := ByReq(r) in s.t.held, false;
      label body: {
        if !dfid { e := EIO; break body; }
        fid := FindSecond(r, env);
        if !fid { e := EIO; break body; }
        if c.readOnly { e := EROFS; break body; }
        if c.ctl { e := EPERM; break body; }
        e := c.fsid;
        if e != 0 { break body; }
        if !c.known { e := ENOSYS; break body; }
        e := c.op;
      }
      DropSecond(r, fid, e, env);
    }

    /** np_renameat looks at the first directory before it looks for the second. */
    method Renameat(r: ReqId, c: Callees, env: Env) returns (e: nat)
      requires Good(s) && At(s, r, Running) && s.reqs[r].kind.Pair? && s.reqs[r].other.Some? && Tame(env, r)
      modifies this
      ensures Ended(old(s), s, r, e)
      ensures e == 0 <==> old(ByReq(r) in s.t.held && InUse(s, s.reqs[r].other.value)) && Permits(c)
      ensures e == 0 ==> trace == old(trace) + [TempFind(r), TempDrop(r, e)]
    {
      var olddirfid, newdirfid := ByReq(r) in s.t.held, false;
      label body: {
        if !olddirfid { e := EIO; break body; }
        if c.readOnly { e := EROFS; break body; }
        if c.ctl { e := EPERM; break body; }
        newdirfid := FindSecond(r, env);
        if !newdirfid { e := EIO; break body; }
        e := c.fsid;
        if e != 0 { break body; }
        if !c.known { e := EOPNOTSUPP; break body; }
        e := c.op;
      }
      DropSecond(r, newdirfid, e, env);
    }

    /** np_auth: the client's reference is taken before the user is looked up. */
    method Auth(r: ReqId, required: bool, user: nat, start: nat, env: Env) returns (e: nat)
      requires Good(s) && At(s, r, Running) && s.reqs[r].kind.Auth? && Tame(env, r)
      modifies this
      ensures Ended(old(s), s, r, e)
      ensures e == 0 <==> !required || (ByReq(r) in old(s.t.held) && user == 0 && start == 0)
      ensures trace == old(trace) + if required && ByReq(r) in old(s.t.held) then [Grant(r), Stop(r, e)] else [Stop(r, e)]
    {
      label body: {
        if !required { e := 0; break body; }      // the reply is an Rlerror
        if ByReq(r) !in s.t.held { e := EIO; break body; }
        GrantStep(r, env);
        e := user;
        if e != 0 { break body; }
        e := start;
      }
      EndStep(r, Stop(r, e), env, e);
    }

    /** np_attach: the client's reference is taken last, and the afid dropped on every exit. */
    method Attach(r: ReqId, c: AttachCallees, env: Env) returns (e: nat, afid: bool)
      requires Good(s) && At(s, r, Running) && s.reqs[r].kind.Attach? && Tame(env, r)
      modifies this
      ensures Ended(old(s), s, r, e)
      ensures afid <==> old(ByReq(r) in s.t.held && s.reqs[r].other.Some? && InUse(s, s.reqs[r].other.value))
      ensures e == 0 <==>
                && ByReq(r) in old(s.t.held) && (old(s.reqs[r].other).Some? ==> afid && c.isAuth)
                && c.user == 0 && c.remap == 0 && c.exported && c.known && c.op == 0
      ensures trace == old(trace)
                + (if ByReq(r) in old(s.t.held) && old(s.reqs[r].other).Some? then [TempFind(r)] else [])
                + (if e == 0 then [Grant(r)] else [])
                + [if afid then TempDrop(r, e) else Stop(r, e)]
    {
      afid := false;
      label body: {
        if ByReq(r) !in s.t.held { e := EIO; break body; }
        if s.reqs[r].other.Some? {
          afid := FindSecond(r, env);
          if !afid { e := EPERM; break body; }
          if !c.isAuth { e := EPERM; break body; }
        }
        e := c.user;
        if e != 0 { break body; }
        e := c.remap;
        if e != 0 { break body; }
        if !c.exported { e := EPERM; break body; }
        if !c.known { e := ENOSYS; break body; }
        e := c.op;
        if e == 0 { GrantStep(r, env); }
      }
      EndStep(r, if afid then TempDrop(r, e) else Stop(r, e), env, e);
    }

    /** np_clunk and np_remove: whatever happens, the fid goes. */
    method ClunkOrRemove(r: ReqId, c: Callees, env: Env) returns (e: nat)
      requires Good(s) && At(s, r, Running) && Drops(s.reqs[r].kind) && Tame(env, r)
      modifies this
      ensures Ended(old(s), s, r, e)
      ensures trace == old(trace) + [if ByReq(r) in old(s.t.held) then ClunkFid(r, e) else Stop(r, e)]
      ensures e == 0 <==>
                ByReq(r) in old(s.t.held) &&
                if old(s.reqs[r].kind).Remove? then Permits(c) else c.known && (c.auth || c.op == 0)
    {
      assert PointerOk(s, ByReq(r));
      var fid := ByReq(r) in s.t.held;
      label body: {
        if !fid { e := EIO; break body; }
        if s.reqs[r].kind.Remove? {
          if c.readOnly { e := EROFS; break body; }
          if c.ctl { e := EPERM; break body; }
          e := c.fsid;
          if e != 0 { break body; }
        } else if c.auth {
          e := if c.known then 0 else ENOSYS;
          break body;
        }
        if !c.known { e := ENOSYS; break body; }
        e := c.op;
      }
      EndStep(r, if fid then ClunkFid(r, e) else Stop(r, e), env, e);
    }

    /** np_fid_create for newfid or attrfid. */
    method MakeFid(r: ReqId, pick: State -> Id, e: nat, env: Env) returns (made: bool)
      requires Good(s) && At(s, r, Running) && NewNum(s.reqs[r]).Some? && ByReq(r) in s.t.held && Tame(env, r) && e != EINTR
      requires forall x :: pick(x) !in x.t.created
      modifies this
      ensures if made then Good(s) && At(s, r, Made) && s.reqs[r] == old(s.reqs[r]).(stage := Made) && ByNew(r) in s.t.held
              else Ended(old(s), s, r, e)
      ensures trace == old(trace) + [MakeNew(r, pick(old(s)), e)]
      ensures made <==> old(s.loose || !InUse(s, NewNum(s.reqs[r]).value))
    {
      InUseIsFound(s, NewNum(s.reqs[r]).value);
      Step(r, MakeNew(r, pick(s), e), env);
      made := s.reqs[r].stage.Made?;
      assert ReqOk(s, r);
      if !made { NothingInHand(s, r); }
    }

    /** The end of np_walk and np_xattrwalk: without a reply the fid that was made goes again. */
    method KeepOrLose(r: ReqId, rc: bool, e: nat, env: Env)
      requires Good(s) && At(s, r, Made) && ByNew(r) in s.t.held && Tame(env, r) && (rc ==> e == 0)
      modifies this
      ensures Ended(old(s), s, r, e) && (!rc ==> At(s, r, Failed))
      ensures trace == old(trace) + [if rc then KeepNew(r) else LoseNew(r, e)]
    {
      EndStep(r, if rc then KeepNew(r) else LoseNew(r, e), env, e);
    }

    /** np_walk */
    method Walk(r: ReqId, c: WalkCallees, pick: State -> Id, env: Env) returns (e: nat, rc: bool)
      requires Good(s) && At(s, r, Running) && s.reqs[r].kind.Walk? && Tame(env, r)
      requires forall x :: pick(x) !in x.t.created
      modifies this
      ensures Ended(old(s), s, r, e) && (rc ==> e == 0)
      ensures rc <==>
                && ByReq(r) in old(s.t.held) && c.names <= MAXWELEM
                && (old(s.reqs[r].other).Some? ==>
                      old(s.loose || !InUse(s, s.reqs[r].other.value)) && c.known && c.clone == 0 && c.aname)
                && c.fsid == 0 && (c.names == 0 || Walked(c.walks, c.names, 0).0 > 0) && c.reply
      ensures e == EINTR && old(s.reqs[r].other).Some? ==> At(s, r, Failed)
      ensures old(s.reqs[r].other).Some? && rc ==> trace != [] && trace[|trace| - 1] == KeepNew(r)
      ensures old(s.reqs[r].other).Some? && !rc ==> trace != [] && !trace[|trace| - 1].KeepNew?
    {
      rc, e := false, 0;
      var other := s.reqs[r].other.Some?;
      if ByReq(r) !in s.t.held || c.names > MAXWELEM {
        e := EIO;
        EndStep(r, Stop(r, e), env, e);
      } else if other {
        var made := MakeFid(r, pick, EIO, env);
        if !made { return EIO, false; }
        e, rc := WalkNew(r, c, env);
        KeepOrLose(r, rc, e, env);
      } else {
        e, rc := WalkOn(c);
        EndStep(r, Stop(r, e), env, e);
      }
    }

    /** The body of np_walk once newfid is made. */
    method WalkNew(r: ReqId, c: WalkCallees, env: Env) returns (e: nat, rc: bool)
      requires Good(s) && At(s, r, Made) && ByNew(r) in s.t.held && Tame(env, r)
      modifies this
      ensures Good(s) && r in s.reqs && s.reqs[r] == old(s.reqs[r]) && ByNew(r) in s.t.held && (rc ==> e == 0)
      ensures rc <==>
                && c.known && c.clone == 0 && c.aname
                && c.fsid == 0 && (c.names == 0 || Walked(c.walks, c.names, 0).0 > 0) && c.reply
    {
      rc := false;
      label body: {
        if !c.known { e := ENOSYS; break body; }
        e := c.clone;
        if e != 0 { break body; }
        InheritStep(r, env);
        if !c.aname { e := ENOMEM; break body; }
        e, rc := WalkOn(c);
      }
    }

    /** From np_setfsid to the reply. */
    method WalkOn(c: WalkCallees) returns (e: nat, rc: bool)
      ensures rc ==> e == 0
      ensures rc <==> c.fsid == 0 && (c.names == 0 || Walked(c.walks, c.names, 0).0 > 0) && c.reply
    {
      rc, e := false, c.fsid;
      if e != 0 { return; }
      var i, err := WalkNames(c.walks, c.names);
      if i == 0 && c.names != 0 { return err, false; }
      e := 0;
      rc := c.reply;
    }

    /** The loop over the names. */
    method WalkNames(walks: seq<(nat, bool)>, names: nat) returns (i: nat, err: nat)
      ensures (i, err) == Walked(walks, names, 0)
    {
      i, err := 0, 0;
      while i < names
        invariant i <= names && Walked(walks, names, 0) == Walked(walks, names, i)
      {
        var w := StepAt(walks, i);
        if w.0 != 0 {
          return i, w.0;
        }
        i := i + 1;
        if i < names && !w.1 {
          return i, 0;
        }
      }
    }

    /** np_xattrwalk */
    method XattrWalk(r: ReqId, c: Callees, aname: bool, pick: State -> Id, env: Env) returns (e: nat)
      requires Good(s) && At(s, r, Running) && s.reqs[r].kind.XattrWalk? && s.reqs[r].other.Some? && Tame(env, r)
      requires forall x :: pick(x) !in x.t.created
      modifies this
      ensures Ended(old(s), s, r, e)
      ensures trace != [] && (e == 0 <==> trace[|trace| - 1] == KeepNew(r))
      ensures e == 0 <==>
                && ByReq(r) in old(s.t.held) && old(s.loose || !InUse(s, s.reqs[r].other.value))
                && aname && !c.ctl && c.fsid == 0 && c.known && c.op == 0
    {
      if ByReq(r) !in s.t.held {
        e := EIO;
        EndStep(r, Stop(r, e), env, e);
        return;
      }
      var made := MakeFid(r, pick, EIO, env);
      if !made { return EIO; }
      label body: {
        InheritStep(r, env);
        if !aname { e := ENOMEM; break body; }
        if c.ctl { e := EPERM; break body; }
        e := c.fsid;
        if e != 0 { break body; }
        if !c.known { e := ENOSYS; break body; }
        e := c.op;
      }
      KeepOrLose(r, e == 0, e, env);
    }

    /** np_postprocess_request up to the reply. */
    method Postprocess(r: ReqId)
      requires Good(s) && (At(s, r, Done) || At(s, r, Failed))
      modifies this
      ensures Good(s) && s == Next(old(s), Finish(r)) && r !in s.reqs
      ensures ByReq(r) !in s.t.held && ByTemp(r) !in s.t.held && ByNew(r) !in s.t.held
    {
      ShyIsHarmless(s, Finish(r));
      FinishKeeps(s, r);
      StepShy(s, Finish(r));
      Unheld(DoFinish(s, r), r);
      var q := s.reqs[r];
      if q.ecode == EINTR {
        if Drops(q.kind) {
          if ByReq(r) in s.t.held {
            s := s.(t := Pass(s.t, ByReq(r), ByClient(s.t.held[ByReq(r)])));
          }
        } else if q.kind.Walk? {
          if q.other.Some? {
            s := s.(t := DecrefByNum(s.t, q.other.value));
          }
        }
      }
      if ByReq(r) in s.t.held {
        s := s.(t := Release(s.t, ByReq(r)));
      }
      s := s.(reqs := s.reqs - {r});
    }
  }
}
