/**
  What every step of the request life cycle keeps: each live request sits in exactly one
  place, a connection counts its live requests, and a pool counts its fids.
*/
module LifecycleInv {
  import opened Common
  import opened Lifecycle

  ghost function ReqsOf(reqs: map<ReqId, Req>, c: ConnId): set<ReqId> {
    set r | r in reqs && reqs[r].conn == c
  }

  ghost function FidsOn(fids: map<FidId, Fid>, p: PoolId): set<FidId> {
    set f | f in fids && fids[f].tpool == Some(p)
  }

  /** The queues and work lists that `r` is in are those it says it is in. */
  ghost predicate Listed(s: State, r: ReqId) {
    && (forall p :: p in s.pools ==>
          (r in s.pools[p].queue <==> r in s.reqs && s.reqs[r].at == Queued(p)))
    && (forall p :: p in s.pools ==>
          (r in s.pools[p].work <==> r in s.reqs && s.reqs[r].at.Working? && s.reqs[r].at.pool == p))
    && (r in s.reqs && (s.reqs[r].at.Queued? || s.reqs[r].at.Working?) ==> s.reqs[r].at.pool in s.pools)
  }

  /** So is the reader that holds it. */
  ghost predicate InHand(s: State, r: ReqId) {
    forall c :: c in s.conns ==>
      (s.conns[c].held == Some(r) <==> r in s.reqs && s.reqs[r].at.Held? && s.reqs[r].conn == c)
  }

  /** So is the request it flushes. */
  ghost predicate Hooked(s: State, r: ReqId) {
    && (forall q :: q in s.reqs ==>
          (s.reqs[q].flushreq == Some(r) <==> r in s.reqs && s.reqs[r].at == Attached(q)))
    && (r in s.reqs && s.reqs[r].at.Attached? ==>
          s.reqs[r].at.to in s.reqs && s.reqs[s.reqs[r].at.to].conn == s.reqs[r].conn)
  }

  ghost predicate At(s: State, r: ReqId) {
    Listed(s, r) && InHand(s, r) && Hooked(s, r)
  }

  /** What holds of a live request whatever place it is in. */
  ghost predicate ReqOk(s: State, r: ReqId)
    requires r in s.reqs
  {
    var q := s.reqs[r];
    && r in s.origin && s.origin[r] == Origin(q.conn, q.tag, q.kind) && q.conn in s.conns
    && (q.kind.Flush? ==>
          && (q.at.Held? || q.at.Attached? || q.at.Loose?)
          && q.state.Normal? && q.fid.None? && q.flushreq.None?)
    && (q.kind.Ordinary? ==> !q.at.Attached? && q.at != Held(true))
    && (q.flushreq.Some? ==> (q.at.Working? || q.at == Finishing(false)) && q.flushreq.value in s.reqs)
    && (q.fid.Some? ==> q.fid.value in s.fids)
    && (q.at.Queued? && q.at.pool != DEFAULT ==> q.fid.Some? && s.fids[q.fid.value].tpool == Some(q.at.pool))
    // a closed connection's requests are silenced, except on pools no longer in the list
    && (s.conns[q.conn].closing ==>
          !q.at.Queued? && (q.at.Working? && q.at.pool in s.order ==> q.state.NoReply?))
  }

  /** A connection counts its live requests. */
  ghost predicate ConnOk(s: State, c: ConnId)
    requires c in s.conns
  {
    && s.conns[c].refs == |ReqsOf(s.reqs, c)|
    && (s.conns[c].closing ==> s.conns[c].held.None?)
    && c !in s.oldConns && s.up
  }

  /** A pool counts its fids, and the default one also the server; an unlinked pool has no queue. */
  ghost predicate PoolOk(s: State, p: PoolId)
    requires p in s.pools
  {
    && Distinct(s.pools[p].queue) && Distinct(s.pools[p].work)
    && s.pools[p].refs == |FidsOn(s.fids, p)| + (if p == DEFAULT && s.up then 1 else 0)
    && (p !in s.order ==> s.pools[p].queue == [])
  }

  ghost predicate OrderOk(s: State) {
    && Distinct(s.order)
    && (forall p :: p in s.order ==> p in s.pools)
    && (s.up ==> s.order != [] && s.order[0] == DEFAULT)
    && (forall f :: f in s.fids && s.fids[f].tpool.Some? ==> s.fids[f].tpool.value in s.order)
  }

  ghost predicate Inv(s: State) {
    && OrderOk(s)
    && (forall r {:trigger At(s, r)} :: At(s, r))
    && (forall r {:trigger ReqOk(s, r)} :: r in s.reqs ==> ReqOk(s, r))
    && (forall c {:trigger ConnOk(s, c)} :: c in s.conns ==> ConnOk(s, c))
    && (forall p {:trigger PoolOk(s, p)} :: p in s.pools ==> PoolOk(s, p))
  }

  // ---- freeing ----

  /** Freeing a request that is on no list keeps the invariant. */
  lemma UnrefKeeps(s: State, r: ReqId)
    requires Inv(s) && r in s.reqs && (s.reqs[r].at.Finishing? || s.reqs[r].at.Loose?) && s.reqs[r].flushreq.None?
    ensures Unref(s, r) == Log(s.(reqs := s.reqs - {r}, conns := AddRefs(s.conns, s.reqs[r].conn, -1)), Freed(r))
    ensures Inv(Unref(s, r))
  {
    var t := Unref(s, r);
    assert At(s, r) && ReqOk(s, r);
    forall x ensures At(t, x) {
      assert At(s, x);
    }
    forall x | x in t.reqs ensures ReqOk(t, x) {
      assert ReqOk(s, x) && At(s, x);
    }
    forall c | c in t.conns ensures ConnOk(t, c) {
      assert ConnOk(s, c);
      assert ReqsOf(t.reqs, c) == ReqsOf(s.reqs, c) - {r};
    }
    forall p | p in t.pools ensures PoolOk(t, p) {
      assert PoolOk(s, p);
    }
  }

  // ---- one lemma per step ----

  lemma LiveSeen(s: State, r: ReqId)
    requires Inv(s) && r in s.reqs
    ensures r in s.origin
  {
    assert ReqOk(s, r);
  }

  lemma LiveHasConn(s: State, r: ReqId)
    requires Inv(s) && r in s.reqs
    ensures s.reqs[r].conn in s.conns
  {
    assert ReqOk(s, r);
  }

  lemma LogKeeps(s: State, e: Event)
    requires Inv(s)
    ensures Inv(Log(s, e))
  {
    var t := Log(s, e);
    forall x ensures At(t, x) { assert At(s, x); }
    forall x | x in t.reqs ensures ReqOk(t, x) { assert ReqOk(s, x) && At(s, x); }
    forall c' | c' in t.conns ensures ConnOk(t, c') { assert ConnOk(s, c'); }
    forall p' | p' in t.pools ensures PoolOk(t, p') { assert PoolOk(s, p'); }
  }

  lemma NewConnKeeps(s: State, c: ConnId)
    requires Inv(s) && s.up && c !in s.conns && c !in s.oldConns
    ensures Inv(s.(conns := s.conns[c := Conn(0, false, None)]))
  {
    var t := s.(conns := s.conns[c := Conn(0, false, None)]);
    forall x ensures At(t, x) { assert At(s, x); if x in s.reqs { assert ReqOk(s, x); } }
    forall x | x in t.reqs ensures ReqOk(t, x) { assert ReqOk(s, x) && At(s, x); }
    forall c' | c' in t.conns ensures ConnOk(t, c') {
      if c' != c { assert ConnOk(s, c'); }
      assert c' == c ==> ReqsOf(t.reqs, c') == {} by {
        forall r | r in s.reqs ensures s.reqs[r].conn != c { assert ReqOk(s, r); }
      }
    }
    forall p' | p' in t.pools ensures PoolOk(t, p') { assert PoolOk(s, p'); }
  }

  lemma NewFidKeeps(s: State, f: FidId)
    requires Inv(s) && f !in s.fids
    ensures Inv(s.(fids := s.fids[f := Fid(None)]))
  {
    var t := s.(fids := s.fids[f := Fid(None)]);
    forall x ensures At(t, x) { assert At(s, x); }
    forall x | x in t.reqs ensures ReqOk(t, x) { assert ReqOk(s, x) && At(s, x); }
    forall c' | c' in t.conns ensures ConnOk(t, c') { assert ConnOk(s, c'); }
    forall p' | p' in t.pools ensures PoolOk(t, p') {
      assert PoolOk(s, p');
      assert FidsOn(t.fids, p') == FidsOn(s.fids, p');
    }
  }

  lemma AssignPoolKeeps(s: State, g: FidId, p: Option<PoolId>)
    requires Inv(s) && g in s.fids && s.fids[g].tpool.None? && (p.Some? ==> p.value in s.order)
    ensures Inv(AssignPool(s, g, p))
  {
    var t := AssignPool(s, g, p);
    forall x ensures At(t, x) { assert At(s, x); }
    forall x | x in t.reqs ensures ReqOk(t, x) { assert ReqOk(s, x) && At(s, x); }
    forall c' | c' in t.conns ensures ConnOk(t, c') { assert ConnOk(s, c'); }
    forall p' | p' in t.pools ensures PoolOk(t, p') {
      assert PoolOk(s, p');
      AssignedPool(s, g, p, p');
    }
  }

  lemma AssignedPool(s: State, g: FidId, p: Option<PoolId>, p': PoolId)
    requires g in s.fids && s.fids[g].tpool.None? && p' in s.pools && PoolOk(s, p')
    ensures PoolOk(AssignPool(s, g, p), p')
  {
    var t := AssignPool(s, g, p);
    assert FidsOn(t.fids, p') == FidsOn(s.fids, p') + if p == Some(p') then {g} else {};
  }

  lemma LinkPoolKeeps(s: State, name: string, newId: PoolId)
    requires Inv(s) && s.up && newId !in s.pools
    ensures Inv(s.(order := [s.order[0], newId] + s.order[1..], pools := s.pools[newId := Pool(name, [], [], 0)]))
  {
    var t := s.(order := [s.order[0], newId] + s.order[1..], pools := s.pools[newId := Pool(name, [], [], 0)]);
    assert s.order == [s.order[0]] + s.order[1..];
    assert newId !in s.order;
    forall x ensures At(t, x) { assert At(s, x); }
    forall x | x in t.reqs ensures ReqOk(t, x) { assert ReqOk(s, x) && At(s, x); }
    forall c' | c' in t.conns ensures ConnOk(t, c') { assert ConnOk(s, c'); }
    forall p' | p' in t.pools ensures PoolOk(t, p') {
      if p' == newId {
        assert FidsOn(t.fids, p') == {};
      } else {
        assert PoolOk(s, p');
      }
    }
  }

  lemma SelectPoolKeeps(s: State, f: FidId, name: string, newId: PoolId)
    requires Inv(s) && s.up && f in s.fids && s.fids[f].tpool.None? && newId !in s.pools
    ensures Inv(DoSelectPool(s, f, name, newId))
  {
    var known := if WantsDefault(s, name) then Some(s.order[0]) else PoolNamed(s, s.order, name);
    if known.Some? {
      AssignPoolKeeps(s, f, known);
    } else {
      LinkPoolKeeps(s, name, newId);
      AssignPoolKeeps(s.(order := [s.order[0], newId] + s.order[1..],
                         pools := s.pools[newId := Pool(name, [], [], 0)]), f, Some(newId));
    }
  }

  lemma DestroyFidPool(s: State, f: FidId, p: PoolId)
    requires Inv(s) && f in s.fids && p in s.pools
    ensures PoolOk(s.(fids := s.fids - {f}, pools := AddPoolRefs(s.pools, s.fids[f].tpool, -1)), p)
  {
    var fids := s.fids - {f};
    assert PoolOk(s, p);
    assert FidsOn(fids, p) == FidsOn(s.fids, p) - {f};
  }

  lemma DestroyFidKeeps(s: State, f: FidId)
    requires Inv(s) && f in s.fids && forall r :: r in s.reqs ==> s.reqs[r].fid != Some(f)
    ensures Inv(s.(fids := s.fids - {f}, pools := AddPoolRefs(s.pools, s.fids[f].tpool, -1)))
  {
    var t := s.(fids := s.fids - {f}, pools := AddPoolRefs(s.pools, s.fids[f].tpool, -1));
    forall x ensures At(t, x) { assert At(s, x); }
    forall x | x in t.reqs ensures ReqOk(t, x) { assert ReqOk(s, x) && At(s, x); }
    forall c' | c' in t.conns ensures ConnOk(t, c') { assert ConnOk(s, c'); }
    forall p' | p' in t.pools ensures PoolOk(t, p') {
      DestroyFidPool(s, f, p');
    }
  }

  lemma ReceiveAt(s: State, c: ConnId, r: ReqId, tag: nat, kind: Kind, fid: Option<FidId>)
    requires Inv(s) && c in s.conns && !s.conns[c].closing && s.conns[c].held.None? && r !in s.origin
    requires (fid.Some? ==> fid.value in s.fids) && (kind.Flush? ==> fid.None?)
    ensures forall x {:trigger At(DoReceive(s, c, r, tag, kind, fid), x)} :: At(DoReceive(s, c, r, tag, kind, fid), x)
  {
    var t := DoReceive(s, c, r, tag, kind, fid);
    if r in s.reqs { LiveSeen(s, r); }
    assert At(s, r);
    forall x ensures At(t, x) { assert At(s, x); }
  }

  lemma ReceiveConn(s: State, c: ConnId, r: ReqId, tag: nat, kind: Kind, fid: Option<FidId>, c': ConnId)
    requires c in s.conns && c' in s.conns && ConnOk(s, c') && !s.conns[c].closing && r !in s.reqs
    ensures ConnOk(DoReceive(s, c, r, tag, kind, fid), c')
  {
    var t := DoReceive(s, c, r, tag, kind, fid);
    if c' == c {
      assert ReqsOf(t.reqs, c') == ReqsOf(s.reqs, c') + {r};
    } else {
      assert ReqsOf(t.reqs, c') == ReqsOf(s.reqs, c');
    }
  }

  lemma ReceiveKeeps(s: State, c: ConnId, r: ReqId, tag: nat, kind: Kind, fid: Option<FidId>)
    requires Inv(s) && c in s.conns && !s.conns[c].closing && s.conns[c].held.None? && r !in s.origin
    requires (fid.Some? ==> fid.value in s.fids) && (kind.Flush? ==> fid.None?)
    ensures Inv(DoReceive(s, c, r, tag, kind, fid))
  {
    var t := DoReceive(s, c, r, tag, kind, fid);
    ReceiveAt(s, c, r, tag, kind, fid);
    if r in s.reqs { LiveSeen(s, r); }
    assert At(s, r);
    forall x | x in t.reqs ensures ReqOk(t, x) { if x != r { assert ReqOk(s, x) && At(s, x); } }
    forall c' | c' in t.conns ensures ConnOk(t, c') {
      assert ConnOk(s, c');
      ReceiveConn(s, c, r, tag, kind, fid, c');
    }
    forall p' | p' in t.pools ensures PoolOk(t, p') { assert PoolOk(s, p'); }
  }

  lemma EnqueuedAt(s: State, t: State, c: ConnId, p: PoolId, r: ReqId, x: ReqId)
    requires At(s, x) && At(s, r) && c in s.conns && p in s.pools && s.conns[c].held == Some(r) && r in s.reqs
    requires t.reqs == s.reqs[r := s.reqs[r].(at := Queued(p))] && t.conns == s.conns[c := s.conns[c].(held := None)]
    requires t.pools == s.pools[p := s.pools[p].(queue := s.pools[p].queue + [r])]
    ensures At(t, x)
  {
  }

  lemma EnqueueAt(s: State, c: ConnId)
    requires Inv(s) && c in s.conns && s.conns[c].held.Some? && s.conns[c].held.value in s.reqs
    requires s.reqs[s.conns[c].held.value].kind.Ordinary?
    ensures forall x {:trigger At(DoEnqueue(s, c), x)} :: At(DoEnqueue(s, c), x)
  {
    var t := DoEnqueue(s, c);
    var r := s.conns[c].held.value;
    assert At(s, r) && ReqOk(s, r) && ConnOk(s, c);
    assert PoolOf(s, s.reqs[r]) in s.order;
    forall x ensures At(t, x) {
      assert At(s, x);
      EnqueuedAt(s, t, c, PoolOf(s, s.reqs[r]), r, x);
    }
  }

  lemma EnqueueReq(s: State, c: ConnId, x: ReqId)
    requires Inv(s) && c in s.conns && s.conns[c].held.Some? && s.conns[c].held.value in s.reqs
    requires s.reqs[s.conns[c].held.value].kind.Ordinary?
    requires x in (DoEnqueue(s, c)).reqs
    ensures ReqOk(DoEnqueue(s, c), x)
  {
    var t := DoEnqueue(s, c);
    var r := s.conns[c].held.value;
    assert At(s, r) && ReqOk(s, r) && ConnOk(s, c);
    assert PoolOf(s, s.reqs[r]) in s.order;
    assert ReqOk(s, x) && At(s, x);
  }

  lemma EnqueueKeeps(s: State, c: ConnId)
    requires Inv(s) && c in s.conns && s.conns[c].held.Some? && s.conns[c].held.value in s.reqs
    requires s.reqs[s.conns[c].held.value].kind.Ordinary?
    ensures Inv(DoEnqueue(s, c))
  {
    var t := DoEnqueue(s, c);
    EnqueueAt(s, c);
    var r := s.conns[c].held.value;
    assert At(s, r) && ReqOk(s, r) && ConnOk(s, c);
    assert PoolOf(s, s.reqs[r]) in s.order;
    forall x | x in t.reqs ensures ReqOk(t, x) { EnqueueReq(s, c, x); }
    forall c' | c' in t.conns ensures ConnOk(t, c') {
      assert ConnOk(s, c');
      assert ReqsOf(t.reqs, c') == ReqsOf(s.reqs, c');
    }
    forall p' | p' in t.pools ensures PoolOk(t, p') { assert PoolOk(s, p'); }
  }

  lemma TakeAt(s: State, p: PoolId)
    requires Inv(s) && p in s.pools && s.pools[p].queue != [] && s.pools[p].queue[0] in s.reqs
    ensures forall x {:trigger At(DoTake(s, p), x)} :: At(DoTake(s, p), x)
  {
    var t := DoTake(s, p);
    var r := s.pools[p].queue[0];
    assert At(s, r) && PoolOk(s, p);
    assert s.pools[p].queue == [r] + s.pools[p].queue[1..];
    forall x ensures At(t, x) { assert At(s, x); }
  }

  lemma TakeReq(s: State, p: PoolId, x: ReqId)
    requires p in s.pools && s.pools[p].queue != [] && s.pools[p].queue[0] in s.reqs && x in s.reqs
    requires s.reqs[s.pools[p].queue[0]].at == Queued(p) && ReqOk(s, s.pools[p].queue[0]) && ReqOk(s, x)
    ensures ReqOk(DoTake(s, p), x)
  {
  }

  lemma TakeKeeps(s: State, p: PoolId)
    requires Inv(s) && p in s.pools && s.pools[p].queue != [] && s.pools[p].queue[0] in s.reqs
    ensures Inv(DoTake(s, p))
  {
    var t := DoTake(s, p);
    var r := s.pools[p].queue[0];
    assert At(s, r) && ReqOk(s, r) && PoolOk(s, p);
    assert s.pools[p].queue == [r] + s.pools[p].queue[1..];
    TakeAt(s, p);
    forall x | x in t.reqs ensures ReqOk(t, x) {
      assert ReqOk(s, x);
      TakeReq(s, p, x);
    }
    forall c' | c' in t.conns ensures ConnOk(t, c') {
      assert ConnOk(s, c');
      assert ReqsOf(t.reqs, c') == ReqsOf(s.reqs, c');
    }
    forall p' | p' in t.pools ensures PoolOk(t, p') { assert PoolOk(s, p'); }
  }

  lemma ReleaseKeeps(s: State, r: ReqId, eintr: bool)
    requires Inv(s) && r in s.reqs && s.reqs[r].at.Working?
    ensures Inv(DoRelease(s, r, eintr))
  {
    var t := DoRelease(s, r, eintr);
    assert At(s, r) && ReqOk(s, r);
    forall x ensures At(t, x) { assert At(s, x); }
    forall x | x in t.reqs ensures ReqOk(t, x) { assert ReqOk(s, x) && At(s, x); }
    forall c' | c' in t.conns ensures ConnOk(t, c') {
      assert ConnOk(s, c');
      assert ReqsOf(t.reqs, c') == ReqsOf(s.reqs, c');
    }
    forall p' | p' in t.pools ensures PoolOk(t, p') { assert PoolOk(s, p'); }
  }

  lemma RespondKeeps(s: State, r: ReqId)
    requires Inv(s) && r in s.reqs && s.reqs[r].at.Working?
    ensures Inv(DoRespond(s, r))
  {
    var t := DoRespond(s, r);
    assert At(s, r) && ReqOk(s, r);
    forall x ensures At(t, x) { assert At(s, x); }
    forall x | x in t.reqs ensures ReqOk(t, x) { assert ReqOk(s, x) && At(s, x); }
    forall c' | c' in t.conns ensures ConnOk(t, c') {
      assert ConnOk(s, c');
      assert ReqsOf(t.reqs, c') == ReqsOf(s.reqs, c');
    }
    forall p' | p' in t.pools ensures PoolOk(t, p') { assert PoolOk(s, p'); }
  }

  lemma UnlinkReq(s: State, r: ReqId, x: ReqId)
    requires Inv(s) && r in s.reqs && s.reqs[r].at.Working? && s.reqs[r].at.pool in s.pools
    requires x in (DoUnlink(s, r)).reqs
    ensures ReqOk(DoUnlink(s, r), x)
  {
    var t := DoUnlink(s, r);
    var p := s.reqs[r].at.pool;
    assert At(s, r) && ReqOk(s, r) && PoolOk(s, p);
    WithoutMembers(s.pools[p].work, r);
    assert ReqOk(s, x) && At(s, x);
  }

  lemma UnlinkKeeps(s: State, r: ReqId)
    requires Inv(s) && r in s.reqs && s.reqs[r].at.Working? && s.reqs[r].at.pool in s.pools
    ensures Inv(DoUnlink(s, r))
  {
    var t := DoUnlink(s, r);
    var p := s.reqs[r].at.pool;
    assert At(s, r) && ReqOk(s, r) && PoolOk(s, p);
    WithoutMembers(s.pools[p].work, r);
    forall x ensures At(t, x) { assert At(s, x); }
    forall x | x in t.reqs ensures ReqOk(t, x) { UnlinkReq(s, r, x); }
    forall c' | c' in t.conns ensures ConnOk(t, c') {
      assert ConnOk(s, c');
      assert ReqsOf(t.reqs, c') == ReqsOf(s.reqs, c');
    }
    forall p' | p' in t.pools ensures PoolOk(t, p') { assert PoolOk(s, p'); }
  }

  lemma {:induction false} KeptMembers(s: State, ps: seq<PoolId>)
    requires Distinct(ps)
    ensures Distinct(Kept(s, ps))
    ensures forall p :: p in Kept(s, ps) <==> p in ps && !(p in s.pools && s.pools[p].refs == 0)
  {
    if ps != [] {
      KeptMembers(s, ps[1..]);
      assert ps == [ps[0]] + ps[1..];
    }
  }

  /** A queued request keeps its pool referenced, through the fid it holds. */
  lemma QueuedHoldsPool(s: State, p: PoolId, r: ReqId)
    requires Inv(s) && p in s.pools && r in s.pools[p].queue
    ensures s.pools[p].refs > 0
  {
    assert At(s, r) && ReqOk(s, r) && ConnOk(s, s.reqs[r].conn) && PoolOk(s, p);
    if p != DEFAULT {
      assert s.reqs[r].fid.value in FidsOn(s.fids, p);
    }
  }

  /** np_tpool_cleanup never unlinks a pool that has a queued request. */
  lemma CleanupSparesQueues(s: State, p: PoolId)
    requires Inv(s) && p in s.pools && s.pools[p].refs == 0
    ensures s.pools[p].queue == []
  {
    if s.pools[p].queue != [] {
      QueuedHoldsPool(s, p, s.pools[p].queue[0]);
    }
  }

  lemma CleanupKeeps(s: State)
    requires Inv(s)
    ensures Inv(Cleanup(s))
  {
    var t := Cleanup(s);
    KeptMembers(s, s.order);
    assert s.up ==> DEFAULT in t.order && t.order[0] == DEFAULT by {
      if s.up { assert PoolOk(s, DEFAULT); }
    }
    forall f | f in s.fids && s.fids[f].tpool.Some? ensures s.fids[f].tpool.value in t.order {
      assert PoolOk(s, s.fids[f].tpool.value);
      assert f in FidsOn(s.fids, s.fids[f].tpool.value);
    }
    forall x ensures At(t, x) { assert At(s, x); }
    forall x | x in t.reqs ensures ReqOk(t, x) { assert ReqOk(s, x) && At(s, x); }
    forall c' | c' in t.conns ensures ConnOk(t, c') { assert ConnOk(s, c'); }
    forall p' | p' in t.pools ensures PoolOk(t, p') {
      assert PoolOk(s, p');
      if s.pools[p'].refs == 0 { CleanupSparesQueues(s, p'); }
    }
  }

  lemma DestroyConnKeeps(s: State, c: ConnId)
    requires Inv(s) && c in s.conns && s.conns[c].closing && s.conns[c].refs == 0
    ensures Inv(Log(Cleanup(s.(conns := s.conns - {c}, oldConns := s.oldConns + {c})), Destroyed(c)))
  {
    var s1 := s.(conns := s.conns - {c}, oldConns := s.oldConns + {c});
    ForgetConnKeeps(s, c);
    CleanupKeeps(s1);
    LogKeeps(Cleanup(s1), Destroyed(c));
  }

  lemma ForgetConnKeeps(s: State, c: ConnId)
    requires Inv(s) && c in s.conns && s.conns[c].closing && s.conns[c].refs == 0
    ensures Inv(s.(conns := s.conns - {c}, oldConns := s.oldConns + {c}))
  {
    var t := s.(conns := s.conns - {c}, oldConns := s.oldConns + {c});
    assert ConnOk(s, c);
    assert forall r :: r in s.reqs ==> r !in ReqsOf(s.reqs, c);
    forall x ensures At(t, x) { assert At(s, x); }
    forall x | x in t.reqs ensures ReqOk(t, x) { assert ReqOk(s, x) && At(s, x); }
    forall c' | c' in t.conns ensures ConnOk(t, c') { assert ConnOk(s, c'); }
    forall p' | p' in t.pools ensures PoolOk(t, p') { assert PoolOk(s, p'); }
  }

  lemma FreePoolKeeps(s: State, p: PoolId)
    requires Inv(s) && p in s.pools && p !in s.order && s.pools[p].work == []
    ensures Inv(s.(pools := s.pools - {p}))
  {
    var t := s.(pools := s.pools - {p});
    assert PoolOk(s, p);
    forall x ensures At(t, x) { assert At(s, x); }
    forall x | x in t.reqs ensures ReqOk(t, x) { assert ReqOk(s, x) && At(s, x); }
    forall c' | c' in t.conns ensures ConnOk(t, c') { assert ConnOk(s, c'); }
    forall p' | p' in t.pools ensures PoolOk(t, p') { assert PoolOk(s, p'); }
  }

  lemma ServerDownKeeps(s: State)
    requires Inv(s) && s.up && s.conns == map[]
    ensures Inv(s.(up := false, pools := AddPoolRefs(s.pools, Some(DEFAULT), -1)))
  {
    var t := s.(up := false, pools := AddPoolRefs(s.pools, Some(DEFAULT), -1));
    assert s.reqs == map[] by {
      forall r ensures r !in s.reqs { if r in s.reqs { LiveHasConn(s, r); } }
    }
    forall x ensures At(t, x) {
      assert At(s, x);
    }
    forall p | p in t.pools ensures PoolOk(t, p) {
      assert PoolOk(s, p);
    }
  }

  lemma DestroyServerKeeps(s: State)
    requires Inv(s) && s.up && s.conns == map[]
    ensures Inv(Cleanup(s.(up := false, pools := AddPoolRefs(s.pools, Some(DEFAULT), -1))))
  {
    ServerDownKeeps(s);
    CleanupKeeps(s.(up := false, pools := AddPoolRefs(s.pools, Some(DEFAULT), -1)));
  }

  lemma RemoveQueuedAt(s: State, p: PoolId, r: ReqId)
    requires Inv(s) && p in s.pools && r in s.pools[p].queue && r in s.reqs
    ensures forall x {:trigger At(RemoveQueued(s, p, r), x)} :: At(RemoveQueued(s, p, r), x)
  {
    var t := RemoveQueued(s, p, r);
    assert At(s, r) && PoolOk(s, p);
    WithoutMembers(s.pools[p].queue, r);
    forall x ensures At(t, x) { assert At(s, x); }
  }

  lemma RemoveQueuedKeeps(s: State, p: PoolId, r: ReqId)
    requires Inv(s) && p in s.pools && r in s.pools[p].queue && r in s.reqs
    ensures Inv(RemoveQueued(s, p, r))
  {
    var t := RemoveQueued(s, p, r);
    assert At(s, r) && ReqOk(s, r) && PoolOk(s, p);
    WithoutMembers(s.pools[p].queue, r);
    RemoveQueuedAt(s, p, r);
    forall x | x in t.reqs ensures ReqOk(t, x) { assert ReqOk(s, x) && At(s, x); }
    forall c' | c' in t.conns ensures ConnOk(t, c') {
      assert ConnOk(s, c');
      assert ReqsOf(t.reqs, c') == ReqsOf(s.reqs, c');
    }
    forall p' | p' in t.pools ensures PoolOk(t, p') { assert PoolOk(s, p'); }
  }

  lemma DequeueKeeps(s: State, p: PoolId, r: ReqId)
    requires Inv(s) && p in s.pools && r in s.pools[p].queue
    ensures r in s.reqs && s.reqs[r].flushreq.None? && Inv(Dequeue(s, p, r))
    ensures var s1 := RemoveQueued(s, p, r);
            Dequeue(s, p, r) ==
              Log(Log(s1.(reqs := s1.reqs - {r}, conns := AddRefs(s.conns, s.reqs[r].conn, -1)), Dropped(r)), Freed(r))
  {
    assert At(s, r);
    assert ReqOk(s, r);
    RemoveQueuedKeeps(s, p, r);
    LogKeeps(RemoveQueued(s, p, r), Dropped(r));
    UnrefKeeps(Log(RemoveQueued(s, p, r), Dropped(r)), r);
  }

  lemma MoveOnReq(s: State, r: ReqId, at: Loc, x: ReqId)
    requires Inv(s) && r in s.reqs && s.reqs[r].flushreq.None? && (at == s.reqs[r].at || (s.reqs[r].at == Finishing(false) && at == Finishing(true)))
    requires x in (s.(reqs := s.reqs[r := s.reqs[r].(at := at)])).reqs
    ensures ReqOk(s.(reqs := s.reqs[r := s.reqs[r].(at := at)]), x)
  {
    var t := s.(reqs := s.reqs[r := s.reqs[r].(at := at)]);
    assert At(s, r) && ReqOk(s, r);
    assert ReqOk(s, x) && At(s, x);
  }

  lemma MoveOnKeeps(s: State, r: ReqId, at: Loc)
    requires Inv(s) && r in s.reqs && s.reqs[r].flushreq.None? && (at == s.reqs[r].at || (s.reqs[r].at == Finishing(false) && at == Finishing(true)))
    ensures Inv(s.(reqs := s.reqs[r := s.reqs[r].(at := at)]))
  {
    var t := s.(reqs := s.reqs[r := s.reqs[r].(at := at)]);
    assert At(s, r) && ReqOk(s, r);
    forall x ensures At(t, x) { assert At(s, x); }
    forall x | x in t.reqs ensures ReqOk(t, x) { MoveOnReq(s, r, at, x); }
    forall c' | c' in t.conns ensures ConnOk(t, c') {
      assert ConnOk(s, c');
      assert ReqsOf(t.reqs, c') == ReqsOf(s.reqs, c');
    }
    forall p' | p' in t.pools ensures PoolOk(t, p') { assert PoolOk(s, p'); }
  }

  /** `r` gives up its flush `f`, which is then in the caller's hands. */
  function Unhooked(s: State, r: ReqId, at: Loc, f: ReqId): State
    requires r in s.reqs && f in s.reqs
  {
    s.(reqs := s.reqs[r := s.reqs[r].(flushreq := None, at := at)][f := s.reqs[f].(at := Loose)])
  }

  lemma UnhookAt(s: State, r: ReqId, at: Loc, f: ReqId, x: ReqId)
    requires r in s.reqs && s.reqs[r].flushreq == Some(f) && f in s.reqs && f != r
    requires at == s.reqs[r].at || (s.reqs[r].at == Finishing(false) && at == Finishing(true))
    requires At(s, r) && At(s, f) && At(s, x)
    ensures At(Unhooked(s, r, at, f), x)
  {
  }

  lemma UnhookReq(s: State, r: ReqId, at: Loc, f: ReqId, x: ReqId)
    requires r in s.reqs && s.reqs[r].flushreq == Some(f) && f in s.reqs && f != r && x in s.reqs
    requires at == s.reqs[r].at || (s.reqs[r].at == Finishing(false) && at == Finishing(true))
    requires ReqOk(s, r) && At(s, f) && ReqOk(s, f) && ReqOk(s, x)
    ensures ReqOk(Unhooked(s, r, at, f), x)
  {
  }

  lemma UnhookKeeps(s: State, r: ReqId, at: Loc, f: ReqId)
    requires Inv(s) && r in s.reqs && s.reqs[r].flushreq == Some(f) && f in s.reqs && f != r
    requires at == s.reqs[r].at || (s.reqs[r].at == Finishing(false) && at == Finishing(true))
    ensures Inv(Unhooked(s, r, at, f))
  {
    var t := Unhooked(s, r, at, f);
    assert At(s, r) && ReqOk(s, r) && At(s, f) && ReqOk(s, f);
    forall x ensures At(t, x) {
      assert At(s, x);
      UnhookAt(s, r, at, f, x);
    }
    forall x | x in t.reqs ensures ReqOk(t, x) {
      assert ReqOk(s, x);
      UnhookReq(s, r, at, f, x);
    }
    forall c' | c' in t.conns ensures ConnOk(t, c') {
      assert ConnOk(s, c');
      assert ReqsOf(t.reqs, c') == ReqsOf(s.reqs, c');
    }
    forall p' | p' in t.pools ensures PoolOk(t, p') { assert PoolOk(s, p'); }
  }

  lemma DetachKeeps(s: State, r: ReqId, at: Loc)
    requires Inv(s) && r in s.reqs
    requires at == s.reqs[r].at || (s.reqs[r].at == Finishing(false) && at == Finishing(true))
    ensures Inv(Detach(s, r, at))
  {
    var f := s.reqs[r].flushreq;
    if f.Some? {
      assert ReqOk(s, r) && At(s, f.value) && ReqOk(s, f.value);
      UnhookKeeps(s, r, at, f.value);
    } else {
      MoveOnKeeps(s, r, at);
    }
  }

  lemma AttachFlushAt(s: State, c: ConnId, f: ReqId, r: ReqId, x: ReqId)
    requires c in s.conns && s.conns[c].held == Some(f) && r in s.reqs && s.reqs[r].at.Working? && f in s.reqs
    requires s.reqs[r].conn == c && s.reqs[r].flushreq.None? && At(s, r) && At(s, f) && At(s, x)
    ensures At(AttachFlush(s, c, f, r), x)
  {
  }

  lemma AttachFlushReq(s: State, c: ConnId, f: ReqId, r: ReqId, x: ReqId)
    requires c in s.conns && s.conns[c].held == Some(f) && r in s.reqs && s.reqs[r].at.Working?
    requires f in s.reqs && s.reqs[f].kind.Flush? && s.reqs[r].conn == c && x in s.reqs
    requires ReqOk(s, r) && At(s, f) && ReqOk(s, f) && ReqOk(s, x)
    ensures ReqOk(AttachFlush(s, c, f, r), x)
  {
  }

  lemma AttachFlushKeeps(s: State, c: ConnId, f: ReqId, r: ReqId)
    requires Inv(s) && c in s.conns && s.conns[c].held == Some(f) && r in s.reqs && s.reqs[r].at.Working?
    requires f in s.reqs && s.reqs[f].kind.Flush? && s.reqs[r].conn == c && s.reqs[r].flushreq.None?
    ensures Inv(AttachFlush(s, c, f, r))
  {
    var t := AttachFlush(s, c, f, r);
    assert At(s, r) && ReqOk(s, r) && At(s, f) && ReqOk(s, f);
    forall x ensures At(t, x) {
      assert At(s, x);
      AttachFlushAt(s, c, f, r, x);
    }
    forall x | x in t.reqs ensures ReqOk(t, x) {
      assert ReqOk(s, x);
      AttachFlushReq(s, c, f, r, x);
    }
    forall c' | c' in t.conns ensures ConnOk(t, c') {
      assert ConnOk(s, c');
      assert ReqsOf(t.reqs, c') == ReqsOf(s.reqs, c');
    }
    forall p' | p' in t.pools ensures PoolOk(t, p') { assert PoolOk(s, p'); }
  }

  lemma FlushEarlyKeeps(s: State, c: ConnId, f: ReqId, p: PoolId, r: ReqId)
    requires Inv(s) && c in s.conns && s.conns[c].held == Some(f) && f in s.reqs && s.reqs[f].kind.Flush?
    requires p in s.pools && r in s.pools[p].queue && r in s.reqs
    ensures Inv(Log(Dequeue(SetReq(s, f, s.reqs[f].(at := Held(true))), p, r), Early(f, r)))
  {
    var s1 := SetReq(s, f, s.reqs[f].(at := Held(true)));
    ReadyKeeps(s, c);
    DequeueKeeps(s1, p, r);
    LogKeeps(Dequeue(s1, p, r), Early(f, r));
  }

  lemma FlushLateKeeps(s: State, c: ConnId, f: ReqId, p: PoolId, r: ReqId)
    requires Inv(s) && c in s.conns && s.conns[c].held == Some(f) && f in s.reqs && s.reqs[f].kind.Flush?
    requires p in s.pools && r in s.pools[p].work && r in s.reqs && s.reqs[r].conn == c
    ensures Inv(DoFlushLate(s, c, f, r))
  {
    var prior := s.reqs[r].flushreq;
    var s0 := Detach(s, r, s.reqs[r].at);
    LateParties(s, c, f, p, r);
    DetachKeeps(s, r, s.reqs[r].at);
    AttachFlushKeeps(s0, c, f, r);
    if prior.Some? {
      var s1 := AttachFlush(s0, c, f, r);
      LogKeeps(s1, Superseded(prior.value, f, r));
      UnrefKeeps(Log(s1, Superseded(prior.value, f, r)), prior.value);
    }
  }

  /** Where the request, its flush and the flush attached before are once that is detached. */
  lemma LateParties(s: State, c: ConnId, f: ReqId, p: PoolId, r: ReqId)
    requires Inv(s) && c in s.conns && s.conns[c].held == Some(f) && f in s.reqs && s.reqs[f].kind.Flush?
    requires p in s.pools && r in s.pools[p].work && r in s.reqs && s.reqs[r].conn == c
    ensures var s0, prior := Detach(s, r, s.reqs[r].at), s.reqs[r].flushreq;
            && s0.conns == s.conns && f in s0.reqs && s0.reqs[f].kind.Flush?
            && r in s0.reqs && s0.reqs[r].at.Working? && s0.reqs[r].conn == c && s0.reqs[r].flushreq.None?
            && (prior.Some? ==> prior.value in s0.reqs && prior.value != f && prior.value != r
                                && s0.reqs[prior.value].at.Loose? && s0.reqs[prior.value].flushreq.None?)
  {
    assert At(s, f) && At(s, r);
    assert ReqOk(s, f) && ReqOk(s, r);
    var prior := s.reqs[r].flushreq;
    if prior.Some? {
      assert At(s, prior.value);
      assert ReqOk(s, prior.value);
    }
  }

  lemma FlushReqKeeps(s: State, c: ConnId)
    requires Inv(s) && c in s.conns && s.conns[c].held.Some? && s.conns[c].held.value in s.reqs
    requires s.reqs[s.conns[c].held.value].kind.Flush?
    ensures Inv(DoFlush(s, c))
  {
    var f := s.conns[c].held.value;
    match Search(s, s.order, c, s.reqs[f].kind.oldtag)
    case Nowhere =>
      ReadyKeeps(s, c);
      LogKeeps(SetReq(s, f, s.reqs[f].(at := Held(true))), NotFound(f));
    case InQueue(p, r) => FlushEarlyKeeps(s, c, f, p, r);
    case InWork(p, r) => FlushLateKeeps(s, c, f, p, r);
  }

  lemma ReadyKeeps(s: State, c: ConnId)
    requires Inv(s) && c in s.conns && s.conns[c].held.Some? && s.conns[c].held.value in s.reqs && s.reqs[s.conns[c].held.value].kind.Flush?
    ensures Inv(SetReq(s, s.conns[c].held.value, s.reqs[s.conns[c].held.value].(at := Held(true))))
  {
    var t := SetReq(s, s.conns[c].held.value, s.reqs[s.conns[c].held.value].(at := Held(true)));
    var f := s.conns[c].held.value;
    assert At(s, f) && ReqOk(s, f);
    forall x ensures At(t, x) { assert At(s, x); }
    forall x | x in t.reqs ensures ReqOk(t, x) { assert ReqOk(s, x) && At(s, x); }
    forall c' | c' in t.conns ensures ConnOk(t, c') {
      assert ConnOk(s, c');
      assert ReqsOf(t.reqs, c') == ReqsOf(s.reqs, c');
    }
    forall p' | p' in t.pools ensures PoolOk(t, p') { assert PoolOk(s, p'); }
  }

  lemma LetGoKeeps(s: State, c: ConnId)
    requires Inv(s) && c in s.conns && s.conns[c].held.Some? && s.conns[c].held.value in s.reqs
    requires s.reqs[s.conns[c].held.value].at == Held(true)
    ensures Inv(LetGo(s, c))
  {
    var t := LetGo(s, c);
    var f := s.conns[c].held.value;
    assert At(s, f) && ReqOk(s, f);
    forall x ensures At(t, x) { assert At(s, x); }
    forall x | x in t.reqs ensures ReqOk(t, x) { assert ReqOk(s, x) && At(s, x); }
    forall c' | c' in t.conns ensures ConnOk(t, c') {
      assert ConnOk(s, c');
      assert ReqsOf(t.reqs, c') == ReqsOf(s.reqs, c');
    }
    forall p' | p' in t.pools ensures PoolOk(t, p') { assert PoolOk(s, p'); }
  }

  lemma AnswerFlushKeeps(s: State, c: ConnId)
    requires Inv(s) && c in s.conns && s.conns[c].held.Some? && s.conns[c].held.value in s.reqs
    requires s.reqs[s.conns[c].held.value].at == Held(true)
    ensures Inv(DoAnswer(s, c))
  {
    var f := s.conns[c].held.value;
    assert At(s, f) && ReqOk(s, f);
    LetGoKeeps(s, c);
    LogKeeps(LetGo(s, c), Rflush(f));
    UnrefKeeps(SendFlush(LetGo(s, c), f), f);
  }

  lemma FinishFlushKeeps(s: State, r: ReqId)
    requires Inv(s) && r in s.reqs && s.reqs[r].at == Finishing(false)
    ensures Inv(DoFinishFlush(s, r))
  {
    assert At(s, r) && ReqOk(s, r);
    DetachKeeps(s, r, Finishing(true));
    var s1 := Detach(s, r, Finishing(true));
    if s.reqs[r].flushreq.Some? {
      var f := s.reqs[r].flushreq.value;
      assert At(s, f) && ReqOk(s, f);
      LogKeeps(s1, Rflush(f));
      UnrefKeeps(SendFlush(s1, f), f);
    }
  }

  lemma FinishFreeKeeps(s: State, r: ReqId)
    requires Inv(s) && r in s.reqs && s.reqs[r].at == Finishing(true)
    ensures Inv(Unref(s, r))
  {
    assert At(s, r) && ReqOk(s, r);
    UnrefKeeps(s, r);
  }

  lemma SilenceKeeps(s: State, p: PoolId, c: ConnId)
    requires Inv(s) && p in s.pools
    ensures Inv(Silence(s, p, c))
  {
    var t := Silence(s, p, c);
    forall x ensures At(t, x) { assert At(s, x); }
    forall x | x in t.reqs ensures ReqOk(t, x) { assert ReqOk(s, x) && At(s, x); }
    forall c' | c' in t.conns ensures ConnOk(t, c') {
      assert ConnOk(s, c');
      assert ReqsOf(t.reqs, c') == ReqsOf(s.reqs, c');
    }
    forall p' | p' in t.pools ensures PoolOk(t, p') { assert PoolOk(s, p'); }
  }

  lemma SetClosingKeeps(s: State, c: ConnId)
    requires Inv(s) && c in s.conns && s.conns[c].held.None?
    requires forall r :: r in s.reqs && s.reqs[r].conn == c ==>
               !s.reqs[r].at.Queued? && (s.reqs[r].at.Working? && s.reqs[r].at.pool in s.order ==> s.reqs[r].state.NoReply?)
    ensures Inv(s.(conns := s.conns[c := s.conns[c].(closing := true)]))
  {
    var t := s.(conns := s.conns[c := s.conns[c].(closing := true)]);
    forall x ensures At(t, x) { assert At(s, x); }
    forall x | x in t.reqs ensures ReqOk(t, x) { assert ReqOk(s, x) && At(s, x); }
    forall c' | c' in t.conns ensures ConnOk(t, c') { assert ConnOk(s, c'); }
    forall p' | p' in t.pools ensures PoolOk(t, p') { assert PoolOk(s, p'); }
  }

  /** Nothing of `c` is queued in `p`, and what of it is being worked on there will not reply. */
  ghost predicate Quiet(s: State, p: PoolId, c: ConnId) {
    && (p in s.pools ==> forall r :: r in s.pools[p].queue && r in s.reqs ==> s.reqs[r].conn != c)
    && (p in s.pools ==> forall r :: r in s.pools[p].work && r in s.reqs && s.reqs[r].conn == c ==> s.reqs[r].state.NoReply?)
  }

  /** What draining one queue leaves alone. */
  ghost predicate DrainFrame(s: State, t: State, p: PoolId, c: ConnId) {
    && t.order == s.order && t.pools.Keys == s.pools.Keys && t.conns.Keys == s.conns.Keys && t.up == s.up
    && t.fids == s.fids && t.origin == s.origin && t.oldConns == s.oldConns && t.single == s.single
    && (forall p' :: p' in s.pools && p' != p ==> t.pools[p'] == s.pools[p'])
    && (p in s.pools ==> t.pools[p] == s.pools[p].(queue := t.pools[p].queue))
    && (forall r :: r in t.reqs ==> r in s.reqs && t.reqs[r] == s.reqs[r])
    && (forall r :: r in s.reqs && r !in t.reqs ==> s.reqs[r].conn == c && s.reqs[r].at == Queued(p))
    && (forall c' :: c' in s.conns ==> t.conns[c'] == s.conns[c'].(refs := t.conns[c'].refs))
  }

  lemma DequeueFrame(s: State, p: PoolId, r: ReqId, c: ConnId)
    requires Inv(s) && p in s.pools && r in s.pools[p].queue && r in s.reqs && s.reqs[r].conn == c
    ensures DrainFrame(s, Dequeue(s, p, r), p, c)
    ensures Dequeue(s, p, r).pools[p].queue == Without(s.pools[p].queue, r)
  {
    DequeueKeeps(s, p, r);
    assert At(s, r);
  }

  lemma DrainGoesOn(s: State, t: State, p: PoolId, pending: seq<ReqId>, c: ConnId)
    requires p in s.pools && pending != [] && Distinct(pending) && Distinct(s.pools[p].queue) && DrainFrame(s, t, p, c)
    requires t.pools[p].queue == Without(s.pools[p].queue, pending[0])
    requires forall x :: x in pending ==> x in s.pools[p].queue
    requires forall x :: x in s.pools[p].queue && x !in pending ==> x in s.reqs && s.reqs[x].conn != c
    ensures forall x :: x in pending[1..] ==> x in t.pools[p].queue
    ensures forall x :: x in t.pools[p].queue && x !in pending[1..] ==> x in t.reqs && t.reqs[x].conn != c
  {
    assert pending == [pending[0]] + pending[1..];
    WithoutMembers(s.pools[p].queue, pending[0]);
  }

  lemma {:induction false} DrainQueueKeeps(s: State, p: PoolId, pending: seq<ReqId>, c: ConnId)
    requires Inv(s) && p in s.pools && Distinct(pending)
    requires forall r :: r in pending ==> r in s.pools[p].queue
    requires forall r :: r in s.pools[p].queue && r !in pending ==> r in s.reqs && s.reqs[r].conn != c
    ensures var t := DrainQueue(s, p, pending, c);
            Inv(t) && DrainFrame(s, t, p, c) && forall r :: r in t.pools[p].queue && r in t.reqs ==> t.reqs[r].conn != c
    decreases |pending|
  {
    if pending != [] {
      var r := pending[0];
      assert At(s, r);
      assert pending == [r] + pending[1..];
      if s.reqs[r].conn == c {
        DequeueKeeps(s, p, r);
        DequeueFrame(s, p, r, c);
        assert PoolOk(s, p);
        DrainGoesOn(s, Dequeue(s, p, r), p, pending, c);
        DrainQueueKeeps(Dequeue(s, p, r), p, pending[1..], c);
      } else {
        DrainQueueKeeps(s, p, pending[1..], c);
      }
    }
  }

  /** What closing `c` leaves alone. */
  ghost predicate CloseFrame(s: State, t: State, c: ConnId) {
    && t.order == s.order && t.pools.Keys == s.pools.Keys && t.conns.Keys == s.conns.Keys && t.up == s.up
    && t.fids == s.fids && t.origin == s.origin && t.oldConns == s.oldConns && t.single == s.single
    && (forall p :: p in s.pools ==> t.pools[p].name == s.pools[p].name)
    && (forall r :: r in t.reqs ==> r in s.reqs && t.reqs[r] == s.reqs[r].(state := t.reqs[r].state))
    && (forall r :: r in t.reqs && s.reqs[r].conn != c ==> t.reqs[r] == s.reqs[r])
    && (forall r :: r in s.reqs && r !in t.reqs ==> s.reqs[r].conn == c && s.reqs[r].at.Queued?)
    && (forall c' :: c' in s.conns ==> t.conns[c'] == s.conns[c'].(refs := t.conns[c'].refs))
  }

  lemma ClosePoolKeeps(s: State, p: PoolId, quiet: set<PoolId>, c: ConnId)
    requires Inv(s) && p in s.pools && forall p' :: p' in quiet ==> Quiet(s, p', c)
    ensures var s1 := DrainQueue(s, p, s.pools[p].queue, c);
            && p in s1.pools && Inv(Silence(s1, p, c)) && CloseFrame(s, Silence(s1, p, c), c)
            && forall p' :: p' in quiet + {p} ==> Quiet(Silence(s1, p, c), p', c)
  {
    assert PoolOk(s, p);
    DrainQueueKeeps(s, p, s.pools[p].queue, c);
    var s1 := DrainQueue(s, p, s.pools[p].queue, c);
    SilenceKeeps(s1, p, c);
    forall p' | p' in quiet + {p} ensures Quiet(Silence(s1, p, c), p', c) {
      assert p' in quiet ==> Quiet(s, p', c);
    }
  }

  lemma {:induction false} ClosePoolsKeeps(s: State, ps: seq<PoolId>, quiet: set<PoolId>, c: ConnId)
    requires Inv(s) && (forall p :: p in ps ==> p in s.pools) && forall p :: p in quiet ==> Quiet(s, p, c)
    ensures var t := ClosePools(s, ps, c);
            && Inv(t) && CloseFrame(s, t, c)
            && forall p :: p in quiet || p in ps ==> Quiet(t, p, c)
    decreases |ps|
  {
    if ps != [] {
      var p := ps[0];
      ClosePoolKeeps(s, p, quiet, c);
      var s1 := Silence(DrainQueue(s, p, s.pools[p].queue, c), p, c);
      ClosePoolsKeeps(s1, ps[1..], quiet + {p}, c);
    }
  }

  lemma QueuedIsListed(s: State, r: ReqId)
    requires Inv(s) && r in s.reqs && s.reqs[r].at.Queued?
    ensures s.reqs[r].at.pool in s.order
  {
    assert At(s, r) && PoolOk(s, s.reqs[r].at.pool);
  }

  lemma CloseConnKeeps(s: State, c: ConnId)
    requires Inv(s) && c in s.conns && s.conns[c].held.None?
    ensures Inv(DoClose(s, c))
  {
    ClosePoolsKeeps(s, s.order, {}, c);
    var s1 := ClosePools(s, s.order, c);
    forall r | r in s1.reqs && s1.reqs[r].conn == c
      ensures !s1.reqs[r].at.Queued? && (s1.reqs[r].at.Working? && s1.reqs[r].at.pool in s1.order ==> s1.reqs[r].state.NoReply?)
    {
      assert At(s1, r);
      if s1.reqs[r].at.Queued? {
        QueuedIsListed(s1, r);
      }
    }
    SetClosingKeeps(s1, c);
    LogKeeps(s1.(conns := s1.conns[c := s1.conns[c].(closing := true)]), Closed(c));
  }

  lemma InitInv(single: bool)
    ensures Inv(Init(single))
  {
    var s := Init(single);
    assert PoolOk(s, DEFAULT) by { assert FidsOn(s.fids, DEFAULT) == {}; }
  }

  /** Every step keeps the invariant. */
  lemma StepInv(s: State, a: Action)
    requires Inv(s) && Enabled(s, a)
    ensures Inv(Next(s, a))
  {
    match a
    case NewConn(c) => NewConnKeeps(s, c);
    case NewFid(f) => NewFidKeeps(s, f);
    case SelectPool(f, name, newId) => SelectPoolKeeps(s, f, name, newId);
    case CloneFid(f, g) => AssignPoolKeeps(s, g, s.fids[f].tpool);
    case DestroyFid(f) => DestroyFidKeeps(s, f);
    case Receive(c, r, tag, kind, fid) => ReceiveKeeps(s, c, r, tag, kind, fid);
    case Enqueue(c) => EnqueueKeeps(s, c);
    case FlushReq(c) => FlushReqKeeps(s, c);
    case AnswerFlush(c) => AnswerFlushKeeps(s, c);
    case Take(p) => TakeKeeps(s, p);
    case Release(r, eintr) => ReleaseKeeps(s, r, eintr);
    case Respond(r) => RespondKeeps(s, r);
    case Unlink(r) => UnlinkKeeps(s, r);
    case FinishFlush(r) => FinishFlushKeeps(s, r);
    case FinishFree(r) => FinishFreeKeeps(s, r);
    case CloseConn(c) => CloseConnKeeps(s, c);
    case DestroyConn(c) => DestroyConnKeeps(s, c);
    case FreePool(p) => FreePoolKeeps(s, p);
    case DestroyServer => DestroyServerKeeps(s);
  }

  lemma {:induction false} RunInv(ss: seq<State>, acts: seq<Action>, i: nat)
    requires Run(ss, acts) && i < |ss|
    ensures Inv(ss[i])
  {
    if i == 0 {
      var single :| ss[0] == Init(single);
      InitInv(single);
    } else {
      RunInv(ss, acts, i - 1);
      StepInv(ss[i - 1], acts[i - 1]);
    }
  }
}
