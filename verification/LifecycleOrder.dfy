/**
  The order in which a pool serves its requests.  Whatever else happens to a queue, two requests
  that are both in it stay in the order in which they came; so of two requests queued on one pool
  the one that was queued first is taken first.
*/
module LifecycleOrder {
  import opened Common
  import opened Lifecycle
  import opened LifecycleInv
  import opened LifecycleHistory
  import opened LifecycleTheorems
  import opened LifecycleSilence

  // ---- queues that lose members ----

  ghost predicate Ahead(q: seq<ReqId>, a: ReqId, b: ReqId) {
    exists i, j :: 0 <= i < j < |q| && q[i] == a && q[j] == b
  }

  /** `t` has members of `q` only, in the order of `q`. */
  ghost predicate Thinned(q: seq<ReqId>, t: seq<ReqId>) {
    && (forall x :: x in t ==> x in q)
    && forall a, b :: Ahead(q, a, b) && a in t && b in t ==> Ahead(t, a, b)
  }

  lemma ThinnedTwice(q: seq<ReqId>, t: seq<ReqId>, u: seq<ReqId>)
    requires Thinned(q, t) && Thinned(t, u)
    ensures Thinned(q, u)
  {
  }

  lemma HeadGone(q: seq<ReqId>)
    requires q != [] && Distinct(q)
    ensures Thinned(q, q[1..])
  {
    var t := q[1..];
    forall a, b | Ahead(q, a, b) && a in t && b in t ensures Ahead(t, a, b) {
      var i, j :| 0 <= i < j < |q| && q[i] == a && q[j] == b;
      var k :| 0 <= k < |t| && t[k] == a;
      assert q[k + 1] == a && i == k + 1;
      assert t[i - 1] == a && t[j - 1] == b;
    }
  }

  lemma Prepended(h: ReqId, q: seq<ReqId>, t: seq<ReqId>)
    requires Thinned(q, t) && h !in q
    ensures Thinned([h] + q, [h] + t)
  {
    var q', t' := [h] + q, [h] + t;
    forall a, b | Ahead(q', a, b) && a in t' && b in t' ensures Ahead(t', a, b) {
      var i, j :| 0 <= i < j < |q'| && q'[i] == a && q'[j] == b;
      assert q[j - 1] == b && b in t;
      if i == 0 {
        var k :| 0 <= k < |t| && t[k] == b;
        assert t'[0] == a && t'[k + 1] == b;
      } else {
        assert q[i - 1] == a && Ahead(q, a, b) && a in t;
        var x, y :| 0 <= x < y < |t| && t[x] == a && t[y] == b;
        assert t'[x + 1] == a && t'[y + 1] == b;
      }
    }
  }

  lemma {:induction false} OneGone(q: seq<ReqId>, x: ReqId)
    requires Distinct(q)
    ensures Thinned(q, Without(q, x)) && Distinct(Without(q, x))
  {
    WithoutMembers(q, x);
    if q != [] {
      assert q == [q[0]] + q[1..];
      if q[0] == x {
        HeadGone(q);
      } else {
        OneGone(q[1..], x);
        Prepended(q[0], q[1..], Without(q[1..], x));
      }
    }
  }

  // ---- what each step does to a queue ----

  ghost function Queue(s: State, p: PoolId): seq<ReqId> {
    if p in s.pools then s.pools[p].queue else []
  }

  lemma {:induction false} UnrefPools(s: State, r: ReqId)
    requires r in s.reqs
    ensures Unref(s, r).pools == s.pools
    decreases s.reqs.Keys
  {
    var q := s.reqs[r];
    var s1 := Log(s.(reqs := s.reqs - {r}, conns := AddRefs(s.conns, q.conn, -1)), Freed(r));
    if q.flushreq.Some? && q.flushreq.value in s1.reqs {
      assert s1.reqs.Keys == s.reqs.Keys - {r};
      UnrefPools(s1, q.flushreq.value);
    }
  }

  ghost predicate AllDistinct(s: State) {
    forall p :: p in s.pools ==> Distinct(s.pools[p].queue)
  }

  /** Every queue has lost members at most. */
  ghost predicate Thins(s: State, t: State) {
    AllDistinct(t) && forall p {:trigger Queue(t, p)} :: Thinned(Queue(s, p), Queue(t, p))
  }

  lemma ThinsTwice(s: State, t: State, u: State)
    requires Thins(s, t) && Thins(t, u)
    ensures Thins(s, u)
  {
    forall p ensures Thinned(Queue(s, p), Queue(u, p)) {
      assert Thinned(Queue(s, p), Queue(t, p));
      ThinnedTwice(Queue(s, p), Queue(t, p), Queue(u, p));
    }
  }

  lemma DequeueThins(s: State, p: PoolId, r: ReqId)
    requires AllDistinct(s) && p in s.pools && r in s.reqs
    ensures Thins(s, Dequeue(s, p, r))
  {
    UnrefPools(Log(RemoveQueued(s, p, r), Dropped(r)), r);
    OneGone(s.pools[p].queue, r);
  }

  lemma {:induction false} DrainThins(s: State, p: PoolId, pending: seq<ReqId>, c: ConnId)
    requires AllDistinct(s)
    ensures Thins(s, DrainQueue(s, p, pending, c))
    decreases |pending|
  {
    if pending != [] {
      if p in s.pools && pending[0] in s.reqs && s.reqs[pending[0]].conn == c {
        var s1 := Dequeue(s, p, pending[0]);
        DequeueThins(s, p, pending[0]);
        DrainThins(s1, p, pending[1..], c);
        ThinsTwice(s, s1, DrainQueue(s1, p, pending[1..], c));
      } else {
        DrainThins(s, p, pending[1..], c);
      }
    }
  }

  lemma {:induction false} ClosePoolsThins(s: State, ps: seq<PoolId>, c: ConnId)
    requires AllDistinct(s)
    ensures Thins(s, ClosePools(s, ps, c))
    decreases |ps|
  {
    if ps != [] {
      if ps[0] !in s.pools {
        ClosePoolsThins(s, ps[1..], c);
      } else {
        var s1 := DrainQueue(s, ps[0], s.pools[ps[0]].queue, c);
        DrainThins(s, ps[0], s.pools[ps[0]].queue, c);
        var s2 := if ps[0] in s1.pools then Silence(s1, ps[0], c) else s1;
        SamePools(s1, s2);
        ClosePoolsThins(s2, ps[1..], c);
        ThinsTwice(s, s1, s2);
        ThinsTwice(s, s2, ClosePools(s2, ps[1..], c));
      }
    }
  }

  lemma SamePools(s: State, t: State)
    requires AllDistinct(s) && t.pools == s.pools
    ensures Thins(s, t)
  {
  }

  lemma LatePools(s: State, c: ConnId, f: ReqId, r: ReqId)
    requires r in s.reqs
    ensures DoFlushLate(s, c, f, r).pools == s.pools
  {
    var prior, s1 := s.reqs[r].flushreq, AttachFlush(Detach(s, r, s.reqs[r].at), c, f, r);
    if prior.Some? && prior.value in s1.reqs {
      UnrefPools(Log(s1, Superseded(prior.value, f, r)), prior.value);
    }
  }

  lemma EarlyThins(s: State, f: ReqId, p: PoolId, r: ReqId)
    requires AllDistinct(s) && f in s.reqs && r in s.reqs && p in s.pools
    ensures Thins(s, Log(Dequeue(SetReq(s, f, s.reqs[f].(at := Held(true))), p, r), Early(f, r)))
  {
    var s1 := SetReq(s, f, s.reqs[f].(at := Held(true)));
    SamePools(s, s1);
    DequeueThins(s1, p, r);
    ThinsTwice(s, s1, Dequeue(s1, p, r));
    SamePools(Dequeue(s1, p, r), Log(Dequeue(s1, p, r), Early(f, r)));
    ThinsTwice(s, Dequeue(s1, p, r), Log(Dequeue(s1, p, r), Early(f, r)));
  }

  lemma FlushThins(s: State, c: ConnId)
    requires AllDistinct(s) && Enabled(s, FlushReq(c))
    ensures Thins(s, DoFlush(s, c))
  {
    var f := s.conns[c].held.value;
    match Search(s, s.order, c, s.reqs[f].kind.oldtag)
    case Nowhere => SamePools(s, DoFlush(s, c));
    case InQueue(p, r) => EarlyThins(s, f, p, r);
    case InWork(p, r) =>
      LatePools(s, c, f, r);
      SamePools(s, DoFlush(s, c));
  }

  lemma AnswerThins(s: State, c: ConnId)
    requires AllDistinct(s) && Enabled(s, AnswerFlush(c))
    ensures Thins(s, DoAnswer(s, c))
  {
    var f := s.conns[c].held.value;
    UnrefPools(SendFlush(LetGo(s, c), f), f);
    SamePools(s, DoAnswer(s, c));
  }

  lemma FinishFlushThins(s: State, r: ReqId)
    requires AllDistinct(s) && r in s.reqs
    ensures Thins(s, DoFinishFlush(s, r))
  {
    var f, s1 := s.reqs[r].flushreq, Detach(s, r, Finishing(true));
    if f.Some? && f.value in s1.reqs { UnrefPools(SendFlush(s1, f.value), f.value); }
    SamePools(s, DoFinishFlush(s, r));
  }

  lemma CloseThins(s: State, c: ConnId)
    requires AllDistinct(s)
    ensures Thins(s, DoClose(s, c))
  {
    var s1 := ClosePools(s, s.order, c);
    ClosePoolsThins(s, s.order, c);
    SamePools(s1, DoClose(s, c));
    ThinsTwice(s, s1, DoClose(s, c));
  }

  lemma TakeThins(s: State, p: PoolId)
    requires AllDistinct(s) && Enabled(s, Take(p))
    ensures Thins(s, DoTake(s, p))
  {
    HeadGone(s.pools[p].queue);
  }

  /** The pools have the queues they had; there may be new ones, and some may be gone. */
  ghost predicate SameQueues(s: State, t: State) {
    forall p :: p in t.pools ==> t.pools[p].queue == Queue(s, p)
  }

  lemma QueuesThin(s: State, t: State)
    requires AllDistinct(s) && SameQueues(s, t)
    ensures Thins(s, t)
  {
  }

  lemma SelectSame(s: State, f: FidId, name: string, newId: PoolId)
    requires Enabled(s, SelectPool(f, name, newId))
    ensures SameQueues(s, DoSelectPool(s, f, name, newId))
  {
  }

  lemma PlainSame(s: State, a: Action)
    requires Enabled(s, a)
    requires a.NewConn? || a.NewFid? || a.CloneFid? || a.DestroyFid? || a.Receive? || a.Release?
             || a.Respond? || a.Unlink? || a.DestroyConn? || a.FreePool? || a.DestroyServer?
    ensures SameQueues(s, Next(s, a))
  {
  }

  /** Only a request that its reader queues joins a queue, and then at its end. */
  lemma StepThins(s: State, a: Action)
    requires Inv(s) && Enabled(s, a) && !a.Enqueue?
    ensures Thins(s, Next(s, a))
  {
    forall p | p in s.pools ensures Distinct(s.pools[p].queue) { assert PoolOk(s, p); }
    if a.FlushReq? {
      FlushThins(s, a.c);
    } else if a.AnswerFlush? {
      AnswerThins(s, a.c);
    } else if a.Take? {
      TakeThins(s, a.p);
    } else if a.FinishFlush? {
      FinishFlushThins(s, a.r);
    } else if a.FinishFree? {
      UnrefPools(s, a.r);
      SamePools(s, Unref(s, a.r));
    } else if a.CloseConn? {
      CloseThins(s, a.c);
    } else {
      if a.SelectPool? { SelectSame(s, a.f, a.name, a.newId); } else { PlainSame(s, a); }
      QueuesThin(s, Next(s, a));
    }
  }

  // ---- whole runs ----

  /** `r` leaves its reader and is queued on `p`. */
  ghost predicate Enters(ss: seq<State>, i: nat, p: PoolId, r: ReqId) {
    && i + 1 < |ss| && r in ss[i].reqs && ss[i].reqs[r].at.Held?
    && r in ss[i + 1].reqs && ss[i + 1].reqs[r].at == Queued(p)
  }

  /** A worker of `p` takes `r`. */
  ghost predicate Taken(ss: seq<State>, k: nat, p: PoolId, r: ReqId) {
    && k + 1 < |ss| && r in ss[k].reqs && ss[k].reqs[r].at == Queued(p)
    && r in ss[k + 1].reqs && ss[k + 1].reqs[r].at.Working?
  }

  /** `r` has left its reader. */
  ghost predicate Sent(s: State, r: ReqId) {
    r in s.origin && (r in s.reqs ==> !s.reqs[r].at.Held?)
  }

  lemma {:induction false} SentStays(ss: seq<State>, acts: seq<Action>, i: nat, j: nat, r: ReqId)
    requires Run(ss, acts) && i <= j < |ss| && Sent(ss[i], r)
    ensures Sent(ss[j], r)
    decreases j - i
  {
    if i < j {
      SentStays(ss, acts, i, j - 1, r);
      RunInv(ss, acts, j - 1);
      StepOnward(ss[j - 1], acts[j - 1], r);
      StepGrows(ss[j - 1], acts[j - 1]);
    }
  }

  lemma QueuedIsSent(ss: seq<State>, acts: seq<Action>, i: nat, p: PoolId, r: ReqId)
    requires Run(ss, acts) && i < |ss|
    ensures r in Queue(ss[i], p) <==> r in ss[i].reqs && ss[i].reqs[r].at == Queued(p)
    ensures r in Queue(ss[i], p) ==> Sent(ss[i], r)
  {
    RunInv(ss, acts, i);
    assert At(ss[i], r);
    if r in ss[i].reqs { assert ReqOk(ss[i], r); }
  }

  /** `t` is `q` with some members gone, or with `r` at the end. */
  ghost predicate Moved(q: seq<ReqId>, t: seq<ReqId>, joins: bool, r: ReqId) {
    if joins then t == q + [r] else Thinned(q, t)
  }

  lemma EnqueueJoins(s: State, c: ConnId, p: PoolId)
    requires Enabled(s, Enqueue(c))
    ensures var t, r := DoEnqueue(s, c), s.conns[c].held.value;
            Queue(t, p) == if p in s.pools && p == t.reqs[r].at.pool then Queue(s, p) + [r] else Queue(s, p)
  {
  }

  /** One step of the run, seen from a queue: it loses members at most, or a request joins its end. */
  lemma QueueStep(ss: seq<State>, acts: seq<Action>, i: nat, p: PoolId) returns (joins: bool, r: ReqId)
    requires Run(ss, acts) && i < |acts|
    ensures Moved(Queue(ss[i], p), Queue(ss[i + 1], p), joins, r) && (joins ==> Enters(ss, i, p, r))
  {
    RunInv(ss, acts, i);
    joins, r := false, 0;
    if acts[i].Enqueue? {
      r := ss[i].conns[acts[i].c].held.value;
      assert At(ss[i], r);
      EnqueueJoins(ss[i], acts[i].c, p);
      joins := p in ss[i].pools && ss[i + 1].reqs[r].at == Queued(p);
    } else {
      StepThins(ss[i], acts[i]);
      assert Thinned(Queue(ss[i], p), Queue(ss[i + 1], p));
    }
  }

  /** A request that has left its reader does not join a queue. */
  lemma WasThere(ss: seq<State>, acts: seq<Action>, i: nat, p: PoolId, x: ReqId)
    requires Run(ss, acts) && i < |acts| && Sent(ss[i], x) && x in Queue(ss[i + 1], p)
    ensures x in Queue(ss[i], p)
  {
    var joins, r := QueueStep(ss, acts, i, p);
  }

  lemma {:induction false} NeverBack(ss: seq<State>, acts: seq<Action>, i: nat, j: nat, p: PoolId, r: ReqId)
    requires Run(ss, acts) && i <= j < |ss| && Sent(ss[i], r) && r !in Queue(ss[i], p)
    ensures r !in Queue(ss[j], p)
    decreases j - i
  {
    if i < j {
      NeverBack(ss, acts, i, j - 1, p, r);
      SentStays(ss, acts, i, j - 1, r);
      if r in Queue(ss[j], p) { WasThere(ss, acts, j - 1, p, r); }
    }
  }

  /** Of two requests in a queue, the one that is ahead stays ahead. */
  lemma {:induction false} StaysAhead(ss: seq<State>, acts: seq<Action>, i: nat, j: nat, p: PoolId, a: ReqId, b: ReqId)
    requires Run(ss, acts) && i <= j < |ss| && Sent(ss[i], a) && Sent(ss[i], b)
    requires Ahead(Queue(ss[i], p), a, b) && a in Queue(ss[j], p) && b in Queue(ss[j], p)
    ensures Ahead(Queue(ss[j], p), a, b)
    decreases j - i
  {
    if i < j {
      SentStays(ss, acts, i, j - 1, a);
      SentStays(ss, acts, i, j - 1, b);
      WasThere(ss, acts, j - 1, p, a);
      WasThere(ss, acts, j - 1, p, b);
      StaysAhead(ss, acts, i, j - 1, p, a, b);
      AheadOneMore(ss, acts, j - 1, p, a, b);
    }
  }

  lemma AheadOneMore(ss: seq<State>, acts: seq<Action>, i: nat, p: PoolId, a: ReqId, b: ReqId)
    requires Run(ss, acts) && i < |acts| && Ahead(Queue(ss[i], p), a, b)
    requires a in Queue(ss[i + 1], p) && b in Queue(ss[i + 1], p)
    ensures Ahead(Queue(ss[i + 1], p), a, b)
  {
    var joins, r := QueueStep(ss, acts, i, p);
    StepAhead(Queue(ss[i], p), Queue(ss[i + 1], p), joins, r, a, b);
  }

  lemma StepAhead(q: seq<ReqId>, t: seq<ReqId>, joins: bool, r: ReqId, a: ReqId, b: ReqId)
    requires Moved(q, t, joins, r) && Ahead(q, a, b) && a in t && b in t
    ensures Ahead(t, a, b)
  {
    if joins {
      var i, j :| 0 <= i < j < |q| && q[i] == a && q[j] == b;
      assert t[i] == a && t[j] == b;
    }
  }

  lemma TakenIsFirst(ss: seq<State>, acts: seq<Action>, k: nat, p: PoolId, r: ReqId)
    requires Run(ss, acts) && Taken(ss, k, p, r)
    ensures Queue(ss[k], p) != [] && Queue(ss[k], p)[0] == r && forall x :: !Ahead(Queue(ss[k], p), x, r)
  {
    RunInv(ss, acts, k);
    var s, a := ss[k], acts[k];
    StepOnward(s, a, r);
    assert At(s, r) && PoolOk(s, p);
    assert At(s, s.pools[a.p].queue[0]);
  }

  lemma EntersThenTaken(ss: seq<State>, acts: seq<Action>, j: nat, k: nat, p: PoolId, r: ReqId)
    requires Run(ss, acts) && Enters(ss, j, p, r) && Taken(ss, k, p, r)
    ensures j < k
  {
    if k <= j {
      QueuedIsSent(ss, acts, k, p, r);
      SentStays(ss, acts, k, j, r);
    }
  }

  /** A request that is still queued when another joins the queue is ahead of it. */
  lemma AheadOnEntry(ss: seq<State>, acts: seq<Action>, i: nat, j: nat, p: PoolId, a: ReqId, b: ReqId)
    requires Run(ss, acts) && i < j && Enters(ss, i, p, a) && Enters(ss, j, p, b) && a in Queue(ss[j], p)
    ensures Ahead(Queue(ss[j + 1], p), a, b)
  {
    var q, t := Queue(ss[j], p), Queue(ss[j + 1], p);
    QueuedIsSent(ss, acts, j, p, b);
    QueuedIsSent(ss, acts, j + 1, p, b);
    var joins, r := QueueStep(ss, acts, j, p);
    var x :| 0 <= x < |q| && q[x] == a;
    assert t[x] == a && t[|q|] == b;
  }

  /** Of two requests queued on one pool, the one queued first is taken first: when the other is taken, it is
      no longer queued. */
  lemma TakenInOrder(ss: seq<State>, acts: seq<Action>, i: nat, j: nat, k: nat, p: PoolId, a: ReqId, b: ReqId)
    requires Run(ss, acts) && i < j && Enters(ss, i, p, a) && Enters(ss, j, p, b) && Taken(ss, k, p, b)
    ensures j < k && (a in ss[k].reqs ==> ss[k].reqs[a].at != Queued(p))
    ensures forall l: nat :: Taken(ss, l, p, a) ==> l < k
  {
    EntersThenTaken(ss, acts, j, k, p, b);
    QueuedIsSent(ss, acts, i + 1, p, a);
    QueuedIsSent(ss, acts, k, p, a);
    QueuedIsSent(ss, acts, k, p, b);
    TakenIsFirst(ss, acts, k, p, b);
    if a in Queue(ss[k], p) {
      SentStays(ss, acts, i + 1, j, a);
      if a !in Queue(ss[j], p) { NeverBack(ss, acts, j, k, p, a); }
      AheadOnEntry(ss, acts, i, j, p, a, b);
      SentStays(ss, acts, i + 1, j + 1, a);
      QueuedIsSent(ss, acts, j + 1, p, b);
      StaysAhead(ss, acts, j + 1, k, p, a, b);
    }
    SentStays(ss, acts, i + 1, k, a);
    assert a !in Queue(ss[k], p);
    forall l: nat | Taken(ss, l, p, a) ensures l < k {
      if l >= k {
        NeverBack(ss, acts, k, l, p, a);
        QueuedIsSent(ss, acts, l, p, a);
      }
    }
  }
}
