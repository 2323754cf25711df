/**
  Which thread pool a fid gets.  Listed pools have different names, so that a name leads to one
  pool, and a fid that asks for a name gets the pool of that name.
*/
module LifecyclePools {
  import opened Common
  import opened Lifecycle
  import opened LifecycleInv
  import opened LifecycleOrder

  /** The list has a pool of this name. */
  ghost predicate Has(s: State, name: string) {
    exists p :: p in s.order && p in s.pools && s.pools[p].name == name
  }

  lemma {:induction false} NamedExactly(s: State, ps: seq<PoolId>, name: string)
    ensures PoolNamed(s, ps, name).Some? <==> exists p :: p in ps && p in s.pools && s.pools[p].name == name
  {
    if ps != [] {
      NamedExactly(s, ps[1..], name);
      assert ps == [ps[0]] + ps[1..];
    }
  }

  /** A fid gets the default pool if there is to be only one, or if its name is no path; else the listed pool of
      its name, and only if there is none a new one, which is then listed. */
  lemma SelectExactly(s: State, f: FidId, name: string, newId: PoolId)
    requires Inv(s) && Enabled(s, SelectPool(f, name, newId))
    ensures var t := Next(s, SelectPool(f, name, newId));
            && f in t.fids && t.fids[f].tpool.Some? && t.fids[f].tpool.value in t.order && t.fids[f].tpool.value in t.pools
            && var p := t.fids[f].tpool.value;
               if s.single || name == "" || name[0] != '/' then p == DEFAULT && t.order == s.order
               else
                 && t.pools[p].name == name
                 && if Has(s, name) then p in s.order && t.order == s.order
                    else p == newId && t.order == [DEFAULT, newId] + s.order[1..]
  {
    NamedExactly(s, s.order, name);
    assert s.order[0] in s.order;
  }

  /** A listed pool was listed before under the same name, or it is new and its name is. */
  ghost predicate Listing(s: State, a: Action, t: State, p: PoolId) {
    p in t.order ==>
      && p in t.pools
      && if p in s.order then p in s.pools && t.pools[p].name == s.pools[p].name
         else a.SelectPool? && p == a.newId && t.pools[p].name == a.name && !Has(s, a.name)
  }

  lemma SelectListing(s: State, a: Action, p: PoolId)
    requires Inv(s) && Enabled(s, a) && a.SelectPool?
    ensures Listing(s, a, Next(s, a), p)
  {
    SelectExactly(s, a.f, a.name, a.newId);
    if p in s.pools { SelectNames(s, a.f, a.name, a.newId, p); }
    assert s.order == [s.order[0]] + s.order[1..];
  }

  lemma SelectNames(s: State, f: FidId, name: string, newId: PoolId, p: PoolId)
    requires Enabled(s, SelectPool(f, name, newId)) && p in s.pools
    ensures var t := DoSelectPool(s, f, name, newId); p in t.pools && t.pools[p].name == s.pools[p].name
  {
  }

  lemma {:induction false} KeptListed(s: State, ps: seq<PoolId>, p: PoolId)
    requires p in Kept(s, ps)
    ensures p in ps
  {
    if p !in Kept(s, ps[1..]) { assert p == ps[0]; } else { KeptListed(s, ps[1..], p); }
  }

  /** Steps that change neither the list nor a name. */
  ghost predicate SameList(s: State, t: State) {
    t.order == s.order && forall p :: p in s.pools && p in s.order ==> p in t.pools && t.pools[p].name == s.pools[p].name
  }

  lemma SameListing(s: State, a: Action, t: State, p: PoolId)
    requires Inv(s) && SameList(s, t)
    ensures Listing(s, a, t, p)
  {
  }

  lemma {:induction false} UnrefList(s: State, r: ReqId)
    requires r in s.reqs
    ensures Unref(s, r).order == s.order
    decreases s.reqs.Keys
  {
    var q := s.reqs[r];
    var s1 := Log(s.(reqs := s.reqs - {r}, conns := AddRefs(s.conns, q.conn, -1)), Freed(r));
    if q.flushreq.Some? && q.flushreq.value in s1.reqs {
      assert s1.reqs.Keys == s.reqs.Keys - {r};
      UnrefList(s1, q.flushreq.value);
    }
  }

  lemma LateList(s: State, c: ConnId, f: ReqId, r: ReqId)
    requires r in s.reqs
    ensures SameList(s, DoFlushLate(s, c, f, r))
  {
    LatePools(s, c, f, r);
    var prior, s1 := s.reqs[r].flushreq, AttachFlush(Detach(s, r, s.reqs[r].at), c, f, r);
    if prior.Some? && prior.value in s1.reqs { UnrefList(Log(s1, Superseded(prior.value, f, r)), prior.value); }
  }

  lemma EarlyList(s: State, f: ReqId, p: PoolId, r: ReqId)
    requires f in s.reqs && r in s.reqs && p in s.pools
    ensures SameList(s, Log(Dequeue(SetReq(s, f, s.reqs[f].(at := Held(true))), p, r), Early(f, r)))
  {
    var s1 := Log(RemoveQueued(SetReq(s, f, s.reqs[f].(at := Held(true))), p, r), Dropped(r));
    UnrefPools(s1, r);
    UnrefList(s1, r);
  }

  lemma FlushList(s: State, c: ConnId)
    requires Enabled(s, FlushReq(c))
    ensures SameList(s, DoFlush(s, c))
  {
    var f := s.conns[c].held.value;
    match Search(s, s.order, c, s.reqs[f].kind.oldtag)
    case Nowhere =>
    case InQueue(p, r) => EarlyList(s, f, p, r);
    case InWork(p, r) => LateList(s, c, f, r);
  }

  lemma AnswerList(s: State, c: ConnId)
    requires Enabled(s, AnswerFlush(c))
    ensures SameList(s, DoAnswer(s, c))
  {
    var f := s.conns[c].held.value;
    UnrefPools(SendFlush(LetGo(s, c), f), f);
    UnrefList(SendFlush(LetGo(s, c), f), f);
  }

  lemma DetachSame(s: State, r: ReqId, at: Loc)
    requires r in s.reqs
    ensures Detach(s, r, at).pools == s.pools && Detach(s, r, at).order == s.order
  {
  }

  lemma FinishFlushList(s: State, r: ReqId)
    requires r in s.reqs
    ensures DoFinishFlush(s, r).pools == s.pools && DoFinishFlush(s, r).order == s.order
  {
    var f, s1 := s.reqs[r].flushreq, Detach(s, r, Finishing(true));
    DetachSame(s, r, Finishing(true));
    if f.Some? && f.value in s1.reqs {
      UnrefPools(SendFlush(s1, f.value), f.value);
      UnrefList(SendFlush(s1, f.value), f.value);
    }
  }

  lemma QueueList(s: State, a: Action)
    requires Enabled(s, a) && (a.Enqueue? || a.Take? || a.Unlink?)
    ensures SameList(s, Next(s, a))
  {
  }

  lemma RefsList(s: State, a: Action)
    requires Enabled(s, a) && (a.CloneFid? || a.DestroyFid? || a.FreePool?)
    ensures SameList(s, Next(s, a))
  {
  }

  lemma PlainList(s: State, a: Action)
    requires Enabled(s, a) && (a.NewConn? || a.NewFid? || a.Receive? || a.Release? || a.Respond?)
    ensures SameList(s, Next(s, a))
  {
  }

  lemma CleanupListing(s: State, a: Action, p: PoolId)
    requires Inv(s) && Enabled(s, a) && (a.DestroyConn? || a.DestroyServer?)
    ensures Listing(s, a, Next(s, a), p)
  {
    if p in Next(s, a).order {
      if a.DestroyConn? {
        KeptListed(s.(conns := s.conns - {a.c}, oldConns := s.oldConns + {a.c}), s.order, p);
      } else {
        KeptListed(s.(up := false, pools := AddPoolRefs(s.pools, Some(DEFAULT), -1)), s.order, p);
      }
    }
  }

  lemma StepListing(s: State, a: Action, p: PoolId)
    requires Inv(s) && Enabled(s, a)
    ensures Listing(s, a, Next(s, a), p)
  {
    if a.SelectPool? {
      SelectListing(s, a, p);
    } else if a.DestroyConn? || a.DestroyServer? {
      CleanupListing(s, a, p);
    } else {
      if a.FlushReq? {
        FlushList(s, a.c);
      } else if a.AnswerFlush? {
        AnswerList(s, a.c);
      } else if a.FinishFlush? {
        FinishFlushList(s, a.r);
      } else if a.FinishFree? {
        UnrefPools(s, a.r);
        UnrefList(s, a.r);
      } else if a.CloseConn? {
        ClosePoolsKeeps(s, s.order, {}, a.c);
      } else if a.Enqueue? || a.Take? || a.Unlink? {
        QueueList(s, a);
      } else if a.CloneFid? || a.DestroyFid? || a.FreePool? {
        RefsList(s, a);
      } else {
        PlainList(s, a);
      }
      SameListing(s, a, Next(s, a), p);
    }
  }

  /** Listed pools have different names. */
  lemma {:induction false} NamesApart(ss: seq<State>, acts: seq<Action>, i: nat, p: PoolId, q: PoolId)
    requires Run(ss, acts) && i < |ss| && p in ss[i].order && q in ss[i].order
    ensures p in ss[i].pools && q in ss[i].pools && (ss[i].pools[p].name == ss[i].pools[q].name ==> p == q)
  {
    if i > 0 {
      RunInv(ss, acts, i - 1);
      StepListing(ss[i - 1], acts[i - 1], p);
      StepListing(ss[i - 1], acts[i - 1], q);
      if p in ss[i - 1].order && q in ss[i - 1].order { NamesApart(ss, acts, i - 1, p, q); }
    }
  }

  /** Fids whose pools have one name have one pool. */
  lemma OnePoolPerName(ss: seq<State>, acts: seq<Action>, i: nat, f: FidId, g: FidId)
    requires Run(ss, acts) && i < |ss| && f in ss[i].fids && g in ss[i].fids
    requires ss[i].fids[f].tpool.Some? && ss[i].fids[g].tpool.Some?
    ensures var p, q := ss[i].fids[f].tpool.value, ss[i].fids[g].tpool.value;
            p in ss[i].pools && q in ss[i].pools && (p == q <==> ss[i].pools[p].name == ss[i].pools[q].name)
  {
    RunInv(ss, acts, i);
    NamesApart(ss, acts, i, ss[i].fids[f].tpool.value, ss[i].fids[g].tpool.value);
  }

  // ---- pools that leave the list ----

  lemma {:induction false} KeptExactly(s: State, ps: seq<PoolId>)
    requires Distinct(ps)
    ensures Thinned(ps, Kept(s, ps))
    ensures forall p :: p in Kept(s, ps) <==> p in ps && !(p in s.pools && s.pools[p].refs == 0)
  {
    if ps != [] {
      assert ps == [ps[0]] + ps[1..];
      KeptExactly(s, ps[1..]);
      if ps[0] in s.pools && s.pools[ps[0]].refs == 0 {
        HeadGone(ps);
        ThinnedTwice(ps, ps[1..], Kept(s, ps));
      } else {
        Prepended(ps[0], ps[1..], Kept(s, ps[1..]));
      }
    }
  }

  /** With a connection go the pools that no fid has any more, and the server has not; the others keep their order. */
  lemma CleanupExactly(s: State, c: ConnId)
    requires Inv(s) && Enabled(s, DestroyConn(c))
    ensures var t := Next(s, DestroyConn(c));
            && Thinned(s.order, t.order) && t.pools == s.pools && t.fids == s.fids
            && forall p :: p in t.order <==> p in s.order && (FidsOn(s.fids, p) != {} || (p == DEFAULT && s.up))
  {
    var s1 := s.(conns := s.conns - {c}, oldConns := s.oldConns + {c});
    KeptExactly(s1, s.order);
    forall p | p in s.order
      ensures p in s.pools && (s.pools[p].refs == 0 <==> FidsOn(s.fids, p) == {} && !(p == DEFAULT && s.up))
    {
      assert PoolOk(s, p);
    }
  }

  lemma {:induction false} UnrefFids(s: State, r: ReqId)
    requires r in s.reqs
    ensures Unref(s, r).fids == s.fids
    decreases s.reqs.Keys
  {
    var q := s.reqs[r];
    var s1 := Log(s.(reqs := s.reqs - {r}, conns := AddRefs(s.conns, q.conn, -1)), Freed(r));
    if q.flushreq.Some? && q.flushreq.value in s1.reqs {
      assert s1.reqs.Keys == s.reqs.Keys - {r};
      UnrefFids(s1, q.flushreq.value);
    }
  }

  lemma LateFids(s: State, c: ConnId, f: ReqId, r: ReqId)
    requires r in s.reqs
    ensures DoFlushLate(s, c, f, r).fids == s.fids
  {
    var prior, s1 := s.reqs[r].flushreq, AttachFlush(Detach(s, r, s.reqs[r].at), c, f, r);
    if prior.Some? && prior.value in s1.reqs { UnrefFids(Log(s1, Superseded(prior.value, f, r)), prior.value); }
  }

  lemma EarlyFids(s: State, f: ReqId, p: PoolId, r: ReqId)
    requires f in s.reqs && r in s.reqs && p in s.pools
    ensures Dequeue(SetReq(s, f, s.reqs[f].(at := Held(true))), p, r).fids == s.fids
  {
    UnrefFids(Log(RemoveQueued(SetReq(s, f, s.reqs[f].(at := Held(true))), p, r), Dropped(r)), r);
  }

  lemma FlushFids(s: State, c: ConnId)
    requires Enabled(s, FlushReq(c))
    ensures DoFlush(s, c).fids == s.fids
  {
    var f := s.conns[c].held.value;
    match Search(s, s.order, c, s.reqs[f].kind.oldtag)
    case Nowhere =>
    case InQueue(p, r) => EarlyFids(s, f, p, r);
    case InWork(p, r) => LateFids(s, c, f, r);
  }

  lemma AnswerFids(s: State, c: ConnId)
    requires Enabled(s, AnswerFlush(c))
    ensures DoAnswer(s, c).fids == s.fids
  {
    UnrefFids(SendFlush(LetGo(s, c), s.conns[c].held.value), s.conns[c].held.value);
  }

  lemma FinishFids(s: State, r: ReqId)
    requires r in s.reqs
    ensures DoFinishFlush(s, r).fids == s.fids
  {
    var f, s1 := s.reqs[r].flushreq, Detach(s, r, Finishing(true));
    if f.Some? && f.value in s1.reqs { UnrefFids(SendFlush(s1, f.value), f.value); }
  }

  lemma FidsStay(s: State, a: Action)
    requires Inv(s) && Enabled(s, a)
    requires a.FlushReq? || a.AnswerFlush? || a.FinishFlush? || a.FinishFree? || a.CloseConn?
    ensures Next(s, a).fids == s.fids
  {
    if a.FlushReq? {
      FlushFids(s, a.c);
    } else if a.AnswerFlush? {
      AnswerFids(s, a.c);
    } else if a.FinishFlush? {
      FinishFids(s, a.r);
    } else if a.FinishFree? {
      UnrefFids(s, a.r);
    } else {
      ClosePoolsKeeps(s, s.order, {}, a.c);
    }
  }

  /** A fid has the pool it was given: that of the fid it was cloned from, or the one it selected. */
  lemma PoolStays(s: State, a: Action, f: FidId)
    requires Inv(s) && Enabled(s, a) && f in s.fids && f in Next(s, a).fids
    ensures Next(s, a).fids[f].tpool ==
              (if a.CloneFid? && a.g == f then s.fids[a.f].tpool
               else if a.SelectPool? && a.f == f then Next(s, a).fids[f].tpool else s.fids[f].tpool)
  {
    if a.FlushReq? || a.AnswerFlush? || a.FinishFlush? || a.FinishFree? || a.CloseConn? { FidsStay(s, a); }
  }
}
