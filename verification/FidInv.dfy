/** Every step of the request handlers keeps the fid references in order. */
module FidInv {
  import opened Common
  import opened Fids
  import opened FidProtocol

  lemma InitInv(loose: bool)
    ensures Inv(Init(loose))
  {
    EmptyOk();
  }

  /** A request that is not outstanding holds nothing. */
  lemma Unheld(s: State, r: ReqId)
    requires Inv(s) && r !in s.reqs
    ensures ByReq(r) !in s.t.held && ByTemp(r) !in s.t.held && ByNew(r) !in s.t.held
  {
    assert PointerOk(s, ByReq(r)) && PointerOk(s, ByTemp(r)) && PointerOk(s, ByNew(r));
  }

  /** A fid that was never made has no holder. */
  lemma NewUnheld(t: Table, id: Id, h: Holder)
    requires TableOk(t) && id !in t.created
    ensures id !in t.live && ByClient(id) !in t.held && (h in t.held ==> t.held[h] != id)
  {
    assert Counted(t, id) && HolderOk(t, h) && HolderOk(t, ByClient(id));
  }

  // ---- the receive path ----

  lemma ReqSeen(s: State, r: ReqId)
    requires Inv(s) && r in s.reqs
    ensures r in s.seen
  {
    assert ReqOk(s, r);
  }

  lemma RecvIsNew(s: State, r: ReqId)
    requires Inv(s) && r !in s.seen
    ensures r !in s.reqs && ByReq(r) !in s.t.held && ByTemp(r) !in s.t.held && ByNew(r) !in s.t.held
  {
    if r in s.reqs { ReqSeen(s, r); }
    Unheld(s, r);
  }

  lemma RecvFindReq(s: State, r: ReqId, kind: Kind, num: nat, other: Option<nat>, id: Id, mem: bool, x: ReqId)
    requires Inv(s) && r !in s.seen && (Drops(kind) ==> MayDrop(s, num)) && !Creates(kind)
    requires x in s.reqs || x == r
    ensures ReqOk(DoRecv(s, r, kind, num, other, id, mem), x)
  {
    RecvIsNew(s, r);
    FindKeeps(s.t, num, ByReq(r));
    if x != r { assert ReqOk(s, x); }
  }

  lemma RecvFindPending(s: State, r: ReqId, kind: Kind, num: nat, other: Option<nat>, id: Id, mem: bool, x: ReqId, i: Id)
    requires Inv(s) && r !in s.seen && (Drops(kind) ==> MayDrop(s, num)) && !Creates(kind)
    ensures PendingOk(DoRecv(s, r, kind, num, other, id, mem), x, i)
  {
    RecvIsNew(s, r);
    FindKeeps(s.t, num, ByReq(r));
    assert PendingOk(s, x, i);
  }

  lemma RecvFindKeeps(s: State, r: ReqId, kind: Kind, num: nat, other: Option<nat>, id: Id, mem: bool)
    requires Inv(s) && r !in s.seen && (Drops(kind) ==> MayDrop(s, num)) && !Creates(kind)
    ensures Inv(DoRecv(s, r, kind, num, other, id, mem))
  {
    var u := DoRecv(s, r, kind, num, other, id, mem);
    RecvIsNew(s, r);
    FindKeeps(s.t, num, ByReq(r));
    forall h ensures PointerOk(u, h) { assert PointerOk(s, h); }
    forall x, i ensures PendingOk(u, x, i) { RecvFindPending(s, r, kind, num, other, id, mem, x, i); }
    forall x | x in u.reqs ensures ReqOk(u, x) { RecvFindReq(s, r, kind, num, other, id, mem, x); }
    forall a, b | a in u.reqs && b in u.reqs ensures PairOk(u, a, b) {
      if a != r && b != r { assert PairOk(s, a, b); }
    }
  }

  lemma RecvCreateReq(s: State, r: ReqId, kind: Kind, num: nat, other: Option<nat>, id: Id, x: ReqId)
    requires Inv(s) && r !in s.seen && id !in s.t.created && Creates(kind) && (x in s.reqs || x == r)
    ensures ReqOk(DoRecv(s, r, kind, num, other, id, true), x)
  {
    RecvIsNew(s, r);
    CreateKeeps(s.t, num, s.loose, id, ByReq(r));
    if x != r {
      assert ReqOk(s, x);
      NewUnheld(s.t, id, ByReq(x));
    }
  }

  lemma RecvCreatePending(s: State, r: ReqId, kind: Kind, num: nat, other: Option<nat>, id: Id, x: ReqId, i: Id)
    requires Inv(s) && r !in s.seen && id !in s.t.created && Creates(kind)
    ensures PendingOk(DoRecv(s, r, kind, num, other, id, true), x, i)
  {
    RecvIsNew(s, r);
    CreateKeeps(s.t, num, s.loose, id, ByReq(r));
    assert PendingOk(s, x, i);
    NewUnheld(s.t, id, ByReq(x));
    NewUnheld(s.t, id, ByNew(x));
    NobodyDrops(s, id);
  }

  /** No request that drops a fid has one that is not made yet. */
  lemma NobodyDrops(s: State, id: Id)
    requires Inv(s) && id !in s.t.created
    ensures forall q :: q in s.reqs && Drops(s.reqs[q].kind) && ByReq(q) in s.t.held ==> s.t.held[ByReq(q)] != id
  {
    forall q | q in s.reqs && Drops(s.reqs[q].kind) && ByReq(q) in s.t.held ensures s.t.held[ByReq(q)] != id {
      NewUnheld(s.t, id, ByReq(q));
    }
  }

  lemma RecvCreatePointer(s: State, r: ReqId, kind: Kind, num: nat, other: Option<nat>, id: Id, h: Holder)
    requires Inv(s) && r !in s.seen && id !in s.t.created && Creates(kind)
    ensures PointerOk(DoRecv(s, r, kind, num, other, id, true), h)
  {
    var u := DoRecv(s, r, kind, num, other, id, true);
    RecvIsNew(s, r);
    CreateKeeps(s.t, num, s.loose, id, ByReq(r));
    assert PointerOk(s, h); NewUnheld(s.t, id, h);
  }

  lemma RecvCreateKeeps(s: State, r: ReqId, kind: Kind, num: nat, other: Option<nat>, id: Id)
    requires Inv(s) && r !in s.seen && id !in s.t.created && Creates(kind)
    ensures Inv(DoRecv(s, r, kind, num, other, id, true))
  {
    var u := DoRecv(s, r, kind, num, other, id, true);
    RecvIsNew(s, r);
    CreateKeeps(s.t, num, s.loose, id, ByReq(r));
    forall h ensures PointerOk(u, h) { RecvCreatePointer(s, r, kind, num, other, id, h); }
    forall x, i ensures PendingOk(u, x, i) { RecvCreatePending(s, r, kind, num, other, id, x, i); }
    forall x | x in u.reqs ensures ReqOk(u, x) { RecvCreateReq(s, r, kind, num, other, id, x); }
    forall a, b | a in u.reqs && b in u.reqs ensures PairOk(u, a, b) {
      if a != r && b != r { assert PairOk(s, a, b); }
    }
  }

  /** A request may give up req->fid while it is queued, or at its end. */
  lemma GiveUpKeeps(s: State, r: ReqId)
    requires Inv(s) && ByReq(r) in s.t.held && r in s.reqs
    requires At(s, r, Queued) && Creates(s.reqs[r].kind)
    ensures Inv(s.(t := Release(s.t, ByReq(r))))
  {
    var u := s.(t := Release(s.t, ByReq(r)));
    ReleaseKeeps(s.t, ByReq(r));
    forall h ensures PointerOk(u, h) { assert PointerOk(s, h) && HolderOk(u.t, h); }
    forall x, i ensures PendingOk(u, x, i) { assert PendingOk(s, x, i); }
    forall x | x in u.reqs ensures ReqOk(u, x) { assert ReqOk(s, x); }
    forall a, b | a in u.reqs && b in u.reqs ensures PairOk(u, a, b) { assert PairOk(s, a, b); }
  }

  lemma RecvKeeps(s: State, r: ReqId, kind: Kind, num: nat, other: Option<nat>, id: Id, mem: bool)
    requires Inv(s) && r !in s.seen && id !in s.t.created && (Drops(kind) ==> MayDrop(s, num))
    ensures Inv(DoRecv(s, r, kind, num, other, id, mem))
  {
    if Creates(kind) {
      RecvCreateKeeps(s, r, kind, num, other, id);
      if CanCreate(s.t, num, s.loose) && !mem {
        RecvIsNew(s, r);
        CreateKeeps(s.t, num, s.loose, id, ByReq(r));
        GiveUpKeeps(DoRecv(s, r, kind, num, other, id, true), r);
      }
    } else {
      RecvFindKeeps(s, r, kind, num, other, id, mem);
    }
  }

  lemma DropKeeps(s: State, r: ReqId)
    requires Inv(s) && At(s, r, Queued)
    ensures Inv(s.(t := if ByReq(r) in s.t.held then Release(s.t, ByReq(r)) else s.t, reqs := s.reqs - {r}))
  {
    assert PointerOk(s, ByTemp(r)) && PointerOk(s, ByNew(r));
    EndKeeps(s, r);
  }

  // ---- the handlers ----

  /** Only the stage of `r` and its error code change, to ones that have the same in hand. */
  lemma StageKeeps(s: State, r: ReqId, stage: Stage, e: nat)
    requires Inv(s) && r in s.reqs
    requires (At(s, r, Queued) && stage.Running? && e == 0)
      || ((At(s, r, Running) || At(s, r, Granted)) && stage.Done?
          && (Drops(s.reqs[r].kind) ==> ByReq(r) !in s.t.held)
          && (s.reqs[r].kind.Walk? && s.reqs[r].other.Some? ==> e != EINTR))
    ensures Inv(End(s, r, stage, e))
  {
    var u := End(s, r, stage, e);
    forall h ensures PointerOk(u, h) { assert PointerOk(s, h); }
    forall x, i ensures PendingOk(u, x, i) { assert PendingOk(s, x, i); }
    forall x | x in u.reqs ensures ReqOk(u, x) { assert ReqOk(s, x); }
    forall a, b | a in u.reqs && b in u.reqs ensures PairOk(u, a, b) { assert PairOk(s, a, b); }
  }

  lemma TempFindPointer(s: State, r: ReqId, h: Holder)
    requires Inv(s) && Possible(s, TempFind(r))
    ensures PointerOk(DoTempFind(s, r, s.reqs[r].other.value), h)
  {
    var u := DoTempFind(s, r, s.reqs[r].other.value);
    assert PointerOk(s, ByTemp(r));
    FindKeeps(s.t, s.reqs[r].other.value, ByTemp(r));
    assert PointerOk(s, h);
  }

  lemma TempFindKeeps(s: State, r: ReqId)
    requires Inv(s) && Possible(s, TempFind(r))
    ensures Inv(DoTempFind(s, r, s.reqs[r].other.value))
  {
    var u := DoTempFind(s, r, s.reqs[r].other.value);
    assert PointerOk(s, ByTemp(r));
    FindKeeps(s.t, s.reqs[r].other.value, ByTemp(r));
    forall h ensures PointerOk(u, h) { TempFindPointer(s, r, h); }
    forall x, i ensures PendingOk(u, x, i) { assert PendingOk(s, x, i); }
    forall x | x in u.reqs ensures ReqOk(u, x) { assert ReqOk(s, x); }
    forall a, b | a in u.reqs && b in u.reqs ensures PairOk(u, a, b) { assert PairOk(s, a, b); }
  }

  lemma TempDropPointer(s: State, r: ReqId, e: nat, h: Holder)
    requires Inv(s) && (At(s, r, Looked) || At(s, r, Both))
    ensures PointerOk(End(s.(t := Release(s.t, ByTemp(r))), r, Done, e), h)
  {
    var u := End(s.(t := Release(s.t, ByTemp(r))), r, Done, e);
    assert ReqOk(s, r) && PointerOk(s, ByTemp(r));
    ReleaseKeeps(s.t, ByTemp(r));
    assert PointerOk(s, h) && HolderOk(u.t, h);
  }

  lemma TempDropPending(s: State, r: ReqId, e: nat, x: ReqId, i: Id)
    requires Inv(s) && (At(s, r, Looked) || At(s, r, Both))
    ensures PendingOk(End(s.(t := Release(s.t, ByTemp(r))), r, Done, e), x, i)
  {
    assert ReqOk(s, r) && PointerOk(s, ByTemp(r));
    ReleaseKeeps(s.t, ByTemp(r));
    assert PendingOk(s, x, i);
  }

  lemma TempDropKeeps(s: State, r: ReqId, e: nat)
    requires Inv(s) && (At(s, r, Looked) || At(s, r, Both))
    ensures Inv(End(s.(t := Release(s.t, ByTemp(r))), r, Done, e))
  {
    var u := End(s.(t := Release(s.t, ByTemp(r))), r, Done, e);
    assert ReqOk(s, r) && PointerOk(s, ByTemp(r));
    ReleaseKeeps(s.t, ByTemp(r));
    forall h ensures PointerOk(u, h) { TempDropPointer(s, r, e, h); }
    forall x, i ensures PendingOk(u, x, i) { TempDropPending(s, r, e, x, i); }
    forall x | x in u.reqs ensures ReqOk(u, x) { assert ReqOk(s, x); }
    forall a, b | a in u.reqs && b in u.reqs ensures PairOk(u, a, b) { assert PairOk(s, a, b); }
  }

  lemma GrantKeeps(s: State, r: ReqId)
    requires Inv(s) && Possible(s, Grant(r))
    ensures Inv(Next(s, Grant(r)))
  {
    var id := s.t.held[ByReq(r)];
    var u := Next(s, Grant(r));
    assert PendingOk(s, r, id) && PointerOk(s, ByNew(r));
    ShareKeeps(s.t, ByReq(r), ByClient(id));
    forall h ensures PointerOk(u, h) { assert PointerOk(s, h); }
    forall x, i ensures PendingOk(u, x, i) { assert PendingOk(s, x, i); }
    forall x | x in u.reqs ensures ReqOk(u, x) { assert ReqOk(s, x); }
    forall a, b | a in u.reqs && b in u.reqs ensures PairOk(u, a, b) { assert PairOk(s, a, b); }
  }

  lemma MakeNewPending(s: State, r: ReqId, n: nat, id: Id, e: nat, x: ReqId, i: Id)
    requires Inv(s) && At(s, r, Running) && NewNum(s.reqs[r]) == Some(n) && ByReq(r) in s.t.held && id !in s.t.created
    ensures PendingOk(DoMakeNew(s, r, n, id, e), x, i)
  {
    assert PointerOk(s, ByNew(r));
    CreateKeeps(s.t, n, s.loose, id, ByNew(r));
    assert PendingOk(s, x, i);
    NewUnheld(s.t, id, ByReq(x));
    NewUnheld(s.t, id, ByNew(x));
    forall q | q in s.reqs && Drops(s.reqs[q].kind) && ByReq(q) in s.t.held ensures s.t.held[ByReq(q)] != id {
      NewUnheld(s.t, id, ByReq(q));
    }
  }

  lemma MakeNewKeeps(s: State, r: ReqId, n: nat, id: Id, e: nat)
    requires Inv(s) && At(s, r, Running) && NewNum(s.reqs[r]) == Some(n) && ByReq(r) in s.t.held && id !in s.t.created
    requires e != EINTR
    ensures Inv(DoMakeNew(s, r, n, id, e))
  {
    var u := DoMakeNew(s, r, n, id, e);
    assert PointerOk(s, ByNew(r)) && PointerOk(s, ByTemp(r));
    CreateKeeps(s.t, n, s.loose, id, ByNew(r));
    forall h ensures PointerOk(u, h) { MakeNewPointer(s, r, n, id, e, h); }
    forall x, i ensures PendingOk(u, x, i) { MakeNewPending(s, r, n, id, e, x, i); }
    forall x | x in u.reqs ensures ReqOk(u, x) { MakeNewReq(s, r, n, id, e, x); }
    forall a, b | a in u.reqs && b in u.reqs ensures PairOk(u, a, b) { assert PairOk(s, a, b); }
  }

  lemma MakeNewPointer(s: State, r: ReqId, n: nat, id: Id, e: nat, h: Holder)
    requires Inv(s) && At(s, r, Running) && NewNum(s.reqs[r]) == Some(n) && ByReq(r) in s.t.held && id !in s.t.created
    ensures PointerOk(DoMakeNew(s, r, n, id, e), h)
  {
    assert PointerOk(s, ByNew(r)) && PointerOk(s, ByTemp(r)) && PointerOk(s, h);
    CreateKeeps(s.t, n, s.loose, id, ByNew(r));
    NewUnheld(s.t, id, h);
    if CanCreate(s.t, n, s.loose) {
      MadePointer(s, DoMakeNew(s, r, n, id, e), r, n, id, h);
    }
  }

  lemma MadePointer(s: State, u: State, r: ReqId, n: nat, id: Id, h: Holder)
    requires At(s, r, Running) && NewNum(s.reqs[r]) == Some(n) && PointerOk(s, ByTemp(r)) && PointerOk(s, h)
    requires u.reqs == SetStage(s, r, Made).reqs && u.t.held == s.t.held[ByNew(r) := id]
    requires id in u.t.live && u.t.live[id].num == n
    requires h in s.t.held ==> s.t.held[h] in u.t.live && u.t.live[s.t.held[h]].num == s.t.live[s.t.held[h]].num
    ensures PointerOk(u, h)
  {
  }

  lemma MakeNewReq(s: State, r: ReqId, n: nat, id: Id, e: nat, x: ReqId)
    requires Inv(s) && At(s, r, Running) && NewNum(s.reqs[r]) == Some(n) && ByReq(r) in s.t.held && id !in s.t.created
    requires e != EINTR && x in DoMakeNew(s, r, n, id, e).reqs
    ensures ReqOk(DoMakeNew(s, r, n, id, e), x)
  {
    assert PointerOk(s, ByNew(r)) && ReqOk(s, x);
    CreateKeeps(s.t, n, s.loose, id, ByNew(r));
    NewUnheld(s.t, id, ByReq(x));
  }

  lemma NoneMatches(t: Table, num: nat)
    requires TableOk(t)
    ensures Lookup(t, num).None? <==> forall k :: k in t.live ==> !Matches(t, k, num)
  {
    forall k | Lookup(t, num).None? && k in t.live ensures !Matches(t, k, num) { LookupFinds(t, num, k); }
    if Lookup(t, num).Some? { LookupFinds(t, num, Lookup(t, num).value); }
  }

  lemma InheritKeeps(s: State, r: ReqId)
    requires Inv(s) && Possible(s, Inherit(r)) && !Revives(s, r)
    ensures Inv(Next(s, Inherit(r)))
  {
    var from, to := s.t.held[ByReq(r)], s.t.held[ByNew(r)];
    var u := Next(s, Inherit(r));
    assert ReqOk(s, r) && PointerOk(s, ByReq(r)) && PointerOk(s, ByNew(r));
    NoneMatches(s.t, s.t.live[to].num);
    ZombieKeeps(s.t, to, s.t.live[from].zombie);
    assert u.t == s.t.(live := s.t.live[to := s.t.live[to].(zombie := s.t.live[from].zombie)]);
    forall h ensures PointerOk(u, h) { assert PointerOk(s, h); }
    forall x, i ensures PendingOk(u, x, i) { assert PendingOk(s, x, i); }
    forall x | x in u.reqs ensures ReqOk(u, x) { assert ReqOk(s, x); }
    forall a, b | a in u.reqs && b in u.reqs ensures PairOk(u, a, b) { assert PairOk(s, a, b); }
  }

  lemma KeepNewPointer(s: State, r: ReqId, h: Holder)
    requires Inv(s) && Possible(s, KeepNew(r))
    ensures PointerOk(Next(s, KeepNew(r)), h)
  {
    var id := s.t.held[ByNew(r)];
    var u := Next(s, KeepNew(r));
    assert PendingOk(s, r, id) && PointerOk(s, ByNew(r));
    PassKeeps(s.t, ByNew(r), ByClient(id));
    assert PointerOk(s, h) && PointerOk(s, ByNew(r));
  }

  lemma KeepNewPending(s: State, r: ReqId, x: ReqId, i: Id)
    requires Inv(s) && Possible(s, KeepNew(r))
    ensures PendingOk(Next(s, KeepNew(r)), x, i)
  {
    assert PendingOk(s, r, s.t.held[ByNew(r)]) && PointerOk(s, ByNew(r));
    assert PendingOk(s, x, i);
  }

  lemma KeepNewKeeps(s: State, r: ReqId)
    requires Inv(s) && Possible(s, KeepNew(r))
    ensures Inv(Next(s, KeepNew(r)))
  {
    var id := s.t.held[ByNew(r)];
    var u := Next(s, KeepNew(r));
    assert PendingOk(s, r, id) && PointerOk(s, ByNew(r));
    PassKeeps(s.t, ByNew(r), ByClient(id));
    forall h ensures PointerOk(u, h) { KeepNewPointer(s, r, h); }
    forall x, i ensures PendingOk(u, x, i) { KeepNewPending(s, r, x, i); }
    forall x | x in u.reqs ensures ReqOk(u, x) { assert ReqOk(s, x); }
    forall a, b | a in u.reqs && b in u.reqs ensures PairOk(u, a, b) { assert PairOk(s, a, b); }
  }

  lemma LoseNewPointer(s: State, r: ReqId, e: nat, h: Holder)
    requires Inv(s) && Possible(s, LoseNew(r, e))
    ensures PointerOk(Next(s, LoseNew(r, e)), h)
  {
    var u := Next(s, LoseNew(r, e));
    assert PointerOk(s, ByNew(r)) && ReqOk(s, r);
    ReleaseKeeps(s.t, ByNew(r));
    assert PointerOk(s, h) && HolderOk(u.t, h);
  }

  lemma LoseNewKeeps(s: State, r: ReqId, e: nat)
    requires Inv(s) && Possible(s, LoseNew(r, e))
    ensures Inv(Next(s, LoseNew(r, e)))
  {
    var u := Next(s, LoseNew(r, e));
    assert PointerOk(s, ByNew(r)) && ReqOk(s, r);
    ReleaseKeeps(s.t, ByNew(r));
    forall h ensures PointerOk(u, h) { LoseNewPointer(s, r, e, h); }
    forall x, i ensures PendingOk(u, x, i) { assert PendingOk(s, x, i); }
    forall x | x in u.reqs ensures ReqOk(u, x) { assert ReqOk(s, x); }
    forall a, b | a in u.reqs && b in u.reqs ensures PairOk(u, a, b) { assert PairOk(s, a, b); }
  }

  lemma ClunkPointer(s: State, r: ReqId, e: nat, h: Holder)
    requires Inv(s) && Possible(s, ClunkFid(r, e))
    ensures PointerOk(Next(s, ClunkFid(r, e)), h)
  {
    var id := s.t.held[ByReq(r)];
    var u := Next(s, ClunkFid(r, e));
    assert ReqOk(s, r) && HolderOk(s.t, ByClient(id));
    ReleaseKeeps(s.t, ByClient(id));
    assert ByReq(r) in Holders(s.t.held, id);
    assert PointerOk(s, h) && HolderOk(u.t, h);
  }

  lemma ClunkKeeps(s: State, r: ReqId, e: nat)
    requires Inv(s) && Possible(s, ClunkFid(r, e))
    ensures Inv(Next(s, ClunkFid(r, e)))
  {
    var id := s.t.held[ByReq(r)];
    var u := Next(s, ClunkFid(r, e));
    assert ReqOk(s, r) && HolderOk(s.t, ByClient(id));
    ReleaseKeeps(s.t, ByClient(id));
    assert ByReq(r) in Holders(s.t.held, id);
    forall h ensures PointerOk(u, h) { ClunkPointer(s, r, e, h); }
    forall x, i ensures PendingOk(u, x, i) { assert PendingOk(s, x, i); }
    forall x | x in u.reqs ensures ReqOk(u, x) { assert ReqOk(s, x) && PairOk(s, x, r); }
    forall a, b | a in u.reqs && b in u.reqs ensures PairOk(u, a, b) { assert PairOk(s, a, b); }
  }

  // ---- the end of a request ----

  /** A fix-up that finds no fid changes nothing. */
  lemma WalkFixUpIdle(s: State, r: ReqId)
    requires r in s.reqs && s.reqs[r].ecode == EINTR && s.reqs[r].kind.Walk? && s.reqs[r].other.Some? && !Strays(s, r)
    ensures FixUp(s.t, r, s.reqs[r]) == s.t
  {
  }

  /** The request's reference becomes the client's again when a clunk is interrupted. */
  lemma ClunkFixUpKeeps(s: State, r: ReqId)
    requires Inv(s) && At(s, r, Done) && Drops(s.reqs[r].kind) && ByReq(r) in s.t.held
    ensures Inv(s.(t := Pass(s.t, ByReq(r), ByClient(s.t.held[ByReq(r)]))))
  {
    var id := s.t.held[ByReq(r)];
    var u := s.(t := Pass(s.t, ByReq(r), ByClient(id)));
    assert ReqOk(s, r);
    PassKeeps(s.t, ByReq(r), ByClient(id));
    forall h ensures PointerOk(u, h) { assert PointerOk(s, h) && PointerOk(s, ByReq(r)); }
    forall x, i ensures PendingOk(u, x, i) { assert PendingOk(s, x, i); }
    forall x | x in u.reqs ensures ReqOk(u, x) { assert ReqOk(s, x) && PairOk(s, x, r); }
    forall a, b | a in u.reqs && b in u.reqs ensures PairOk(u, a, b) { assert PairOk(s, a, b); }
  }

  lemma EndKeeps(s: State, r: ReqId)
    requires Inv(s) && r in s.reqs && ByTemp(r) !in s.t.held && ByNew(r) !in s.t.held
    ensures Inv(s.(t := if ByReq(r) in s.t.held then Release(s.t, ByReq(r)) else s.t, reqs := s.reqs - {r}))
  {
    var u := s.(t := if ByReq(r) in s.t.held then Release(s.t, ByReq(r)) else s.t, reqs := s.reqs - {r});
    if ByReq(r) in s.t.held { ReleaseKeeps(s.t, ByReq(r)); }
    forall h ensures PointerOk(u, h) { assert PointerOk(s, h) && HolderOk(u.t, h); }
    forall x, i ensures PendingOk(u, x, i) { assert PendingOk(s, x, i); }
    forall x | x in u.reqs ensures ReqOk(u, x) { assert ReqOk(s, x); }
    forall a, b | a in u.reqs && b in u.reqs ensures PairOk(u, a, b) { assert PairOk(s, a, b); }
  }

  /** A request that has ended its handler has nothing in hand but req->fid. */
  lemma NothingInHand(s: State, r: ReqId)
    requires Inv(s) && (At(s, r, Done) || At(s, r, Failed))
    ensures ByTemp(r) !in s.t.held && ByNew(r) !in s.t.held
  {
    assert PointerOk(s, ByTemp(r)) && PointerOk(s, ByNew(r));
  }

  lemma FinishKeeps(s: State, r: ReqId)
    requires Inv(s) && Possible(s, Finish(r)) && !Strays(s, r)
    ensures Inv(DoFinish(s, r))
  {
    NothingInHand(s, r);
    assert ReqOk(s, r);
    var q := s.reqs[r];
    if q.ecode == EINTR && Drops(q.kind) && ByReq(r) in s.t.held {
      ClunkFixUpKeeps(s, r);
      EndKeeps(s.(t := FixUp(s.t, r, q)), r);
    } else {
      if q.ecode == EINTR && q.kind.Walk? && q.other.Some? { WalkFixUpIdle(s, r); }
      EndKeeps(s, r);
    }
  }

  lemma StepInv(s: State, a: Action)
    requires Inv(s) && Enabled(s, a)
    ensures Inv(Next(s, a))
  {
    match a
    case Recv(r, kind, num, other, id, mem) => RecvKeeps(s, r, kind, num, other, id, mem);
    case Drop(r) => DropKeeps(s, r);
    case Start(r) => assert ReqOk(s, r); StageKeeps(s, r, Running, 0);
    case TempFind(r) => TempFindKeeps(s, r);
    case TempDrop(r, e) => TempDropKeeps(s, r, e);
    case Grant(r) => GrantKeeps(s, r);
    case MakeNew(r, id, e) => MakeNewKeeps(s, r, NewNum(s.reqs[r]).value, id, e);
    case Inherit(r) => InheritKeeps(s, r);
    case KeepNew(r) => KeepNewKeeps(s, r);
    case LoseNew(r, e) => LoseNewKeeps(s, r, e);
    case ClunkFid(r, e) => ClunkKeeps(s, r, e);
    case Stop(r, e) => StageKeeps(s, r, Done, e);
    case Finish(r) => FinishKeeps(s, r);
  }

  lemma {:induction false} RunInv(ss: seq<State>, acts: seq<Action>, i: nat)
    requires Run(ss, acts) && i < |ss|
    ensures Inv(ss[i])
  {
    if i == 0 {
      var loose :| ss[0] == Init(loose);
      InitInv(loose);
    } else {
      RunInv(ss, acts, i - 1);
      StepInv(ss[i - 1], acts[i - 1]);
    }
  }
}
