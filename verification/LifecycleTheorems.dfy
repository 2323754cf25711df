/**
  The main results about the request life cycle, for every run of the server.
*/
module LifecycleTheorems {
  import opened Common
  import opened Lifecycle
  import opened LifecycleInv
  import opened LifecycleHistory

  lemma InitHist(single: bool)
    ensures HistInv(Init(single))
  {
    var s := Init(single);
    forall r ensures Hist(s, r) { assert !Replaced(s.log, r); }
  }

  lemma {:induction false} RunHist(ss: seq<State>, acts: seq<Action>, i: nat)
    requires Run(ss, acts) && i < |ss|
    ensures Inv(ss[i]) && HistInv(ss[i])
  {
    RunInv(ss, acts, i);
    if i == 0 {
      var single :| ss[0] == Init(single);
      InitHist(single);
    } else {
      RunHist(ss, acts, i - 1);
      StepHist(ss[i - 1], acts[i - 1]);
    }
  }

  // ---- ownership ----

  datatype Place =
    | Reader(c: ConnId)
    | QueueSlot(p: PoolId, i: nat)
    | WorkSlot(p: PoolId, i: nat)
    | FinishingWorker
    | FlushSlot(q: ReqId)

  /** What it means, in the server's own structures, that `r` is at a place. */
  ghost predicate HeldAt(s: State, r: ReqId, pl: Place) {
    match pl
    case Reader(c) => c in s.conns && s.conns[c].held == Some(r)
    case QueueSlot(p, i) => p in s.pools && i < |s.pools[p].queue| && s.pools[p].queue[i] == r
    case WorkSlot(p, i) => p in s.pools && i < |s.pools[p].work| && s.pools[p].work[i] == r
    case FinishingWorker => r in s.reqs && (s.reqs[r].at.Finishing? || s.reqs[r].at.Loose?)
    case FlushSlot(q) => q in s.reqs && s.reqs[q].flushreq == Some(r)
  }

  /** A request is live exactly while some place holds it, and then no other place does. */
  lemma OwnedOnce(ss: seq<State>, acts: seq<Action>, i: nat, r: ReqId)
    requires Run(ss, acts) && i < |ss|
    ensures r in ss[i].reqs <==> exists pl :: HeldAt(ss[i], r, pl)
    ensures forall a, b :: HeldAt(ss[i], r, a) && HeldAt(ss[i], r, b) ==> a == b
  {
    RunInv(ss, acts, i);
    var s := ss[i];
    assert At(s, r);
    if r in s.reqs {
      HasPlace(s, r);
    }
    forall a, b | HeldAt(s, r, a) && HeldAt(s, r, b) ensures a == b {
      PlaceIsAt(s, r, a);
      PlaceIsAt(s, r, b);
    }
  }

  lemma HasPlace(s: State, r: ReqId)
    requires Inv(s) && r in s.reqs
    ensures exists pl :: HeldAt(s, r, pl)
  {
    assert At(s, r) && ReqOk(s, r);
    match s.reqs[r].at
    case Held(_) => assert HeldAt(s, r, Reader(s.reqs[r].conn));
    case Queued(p) =>
      var i :| 0 <= i < |s.pools[p].queue| && s.pools[p].queue[i] == r;
      assert HeldAt(s, r, QueueSlot(p, i));
    case Working(p, _) =>
      var i :| 0 <= i < |s.pools[p].work| && s.pools[p].work[i] == r;
      assert HeldAt(s, r, WorkSlot(p, i));
    case Finishing(_) => assert HeldAt(s, r, FinishingWorker);
    case Loose => assert HeldAt(s, r, FinishingWorker);
    case Attached(q) => assert HeldAt(s, r, FlushSlot(q));
  }

  /** The place that holds `r` is the one `r` says it is at; list positions are unique. */
  lemma PlaceIsAt(s: State, r: ReqId, pl: Place)
    requires Inv(s) && HeldAt(s, r, pl)
    ensures r in s.reqs
    ensures match s.reqs[r].at
            case Held(_) => pl == Reader(s.reqs[r].conn)
            case Queued(p) => pl.QueueSlot? && pl.p == p && p in s.pools
                              && forall j :: 0 <= j < |s.pools[p].queue| && s.pools[p].queue[j] == r ==> j == pl.i
            case Working(p, _) => pl.WorkSlot? && pl.p == p && p in s.pools
                              && forall j :: 0 <= j < |s.pools[p].work| && s.pools[p].work[j] == r ==> j == pl.i
            case Attached(q) => pl == FlushSlot(q)
            case _ => pl == FinishingWorker
  {
    assert At(s, r);
    if pl.QueueSlot? || pl.WorkSlot? { assert PoolOk(s, pl.p); }
  }

  // ---- flush ----

  /** Once the Rflush of a late flush is out, the flushed request does not reply any more. */
  lemma FlushedNeverReplies(ss: seq<State>, acts: seq<Action>, i: nat, f: ReqId, q: ReqId)
    requires Run(ss, acts) && i < |ss|
    ensures Late(f, q) in ss[i].log ==> NeverAfter(ss[i].log, Rflush(f), Replies(q))
    ensures Early(f, q) in ss[i].log ==> Replies(q) !in ss[i].log
  {
    RunHist(ss, acts, i);
    assert Link(ss[i], f, q) && Hist(ss[i], q);
  }

  /** A Tflush is answered at most once, and once it is freed: exactly once, unless a later
      Tflush of the same request took its place, and then never. */
  lemma FlushAnsweredOnce(ss: seq<State>, acts: seq<Action>, i: nat, f: ReqId)
    requires Run(ss, acts) && i < |ss| && IsFlush(ss[i], f)
    ensures N(ss[i].log, Rflush(f)) <= 1
    ensures f in ss[i].reqs ==> Rflush(f) !in ss[i].log
    ensures f !in ss[i].reqs ==>
              (Rflush(f) !in ss[i].log <==>
               exists w, q :: Superseded(f, w, q) in ss[i].log && Before(ss[i].log, Late(f, q), Late(w, q)))
  {
    RunHist(ss, acts, i);
    var s := ss[i];
    assert Hist(s, f);
    if Replaced(s.log, f) {
      var w, q :| Superseded(f, w, q) in s.log;
      assert Replacement(s, f, w, q);
    }
  }

  /** Each request is received once and freed once; an ordinary one is replied to, suppressed or
      dropped, one of the three and once. */
  lemma SettledOnce(ss: seq<State>, acts: seq<Action>, i: nat, r: ReqId)
    requires Run(ss, acts) && i < |ss| && r in ss[i].origin
    ensures N(ss[i].log, Freed(r)) == if r in ss[i].reqs then 0 else 1
    ensures ss[i].origin[r].kind.Ordinary? ==>
              N(ss[i].log, Replies(r)) + N(ss[i].log, Suppressed(r)) + N(ss[i].log, Dropped(r))
              == if Settled(ss[i], r) then 1 else 0
    ensures r !in ss[i].reqs ==> Settled(ss[i], r)
  {
    RunHist(ss, acts, i);
    assert Hist(ss[i], r);
  }

  // ---- connections ----

  /** A connection counts its live requests; it goes away only when none is left, and nothing
      is sent on it afterwards. */
  lemma ConnCounts(ss: seq<State>, acts: seq<Action>, i: nat, c: ConnId)
    requires Run(ss, acts) && i < |ss|
    ensures c in ss[i].conns ==> ss[i].conns[c].refs == |ReqsOf(ss[i].reqs, c)|
    ensures i < |acts| && acts[i] == DestroyConn(c) ==> ReqsOf(ss[i].reqs, c) == {}
    ensures forall j, k :: 0 <= j < k < |ss[i].log| && ss[i].log[j] == Destroyed(c) ==> !SendsOn(ss[i], ss[i].log[k], c)
  {
    RunHist(ss, acts, i);
    assert Silent(ss[i], c);
    if c in ss[i].conns { assert ConnOk(ss[i], c); }
  }

  // ---- thread pools ----

  /** A pool counts the fids assigned to it, the default pool one more while the server is up;
      a pool that leaves the list has no queued request, and the default pool does not leave. */
  lemma PoolCounts(ss: seq<State>, acts: seq<Action>, i: nat, p: PoolId)
    requires Run(ss, acts) && i < |ss| && p in ss[i].pools
    ensures ss[i].pools[p].refs == |FidsOn(ss[i].fids, p)| + if p == DEFAULT && ss[i].up then 1 else 0
    ensures p !in ss[i].order ==> ss[i].pools[p].queue == []
    ensures ss[i].up ==> DEFAULT in ss[i].order
  {
    RunInv(ss, acts, i);
    assert PoolOk(ss[i], p);
  }

  // ---- which requests a Tflush finds ----

  /** No other request of the connection that is queued or being worked on carries the tag of `q`. */
  ghost predicate TagUnique(s: State, q: ReqId)
    requires q in s.reqs
  {
    forall x :: Matches(s, x, s.reqs[q].conn, s.reqs[q].tag) && (s.reqs[x].at.Queued? || s.reqs[x].at.Working?) ==> x == q
  }

  /** np_flush finds a request that is queued or being worked on exactly when its pool is in the list. */
  lemma FlushFinds(s: State, q: ReqId)
    requires Inv(s) && q in s.reqs && (s.reqs[q].at.Queued? || s.reqs[q].at.Working?) && TagUnique(s, q)
    ensures var found := Search(s, s.order, s.reqs[q].conn, s.reqs[q].tag);
            && (!found.Nowhere? <==> s.reqs[q].at.pool in s.order)
            && (!found.Nowhere? ==> found.r == q)
  {
    assert At(s, q);
    var found := Search(s, s.order, s.reqs[q].conn, s.reqs[q].tag);
    var home := s.pools[s.reqs[q].at.pool];
    assert q in home.queue || q in home.work;
    if found.InQueue? || found.InWork? {
      assert At(s, found.r);
      assert Matches(s, found.r, s.reqs[q].conn, s.reqs[q].tag);
      assert s.reqs[found.r].at.Queued? || s.reqs[found.r].at.Working?;
      assert s.reqs[q].at.pool == found.p;
    } else {
      assert Matches(s, q, s.reqs[q].conn, s.reqs[q].tag);
    }
  }

  // ---- a Tflush that misses ----

  /** The reply of `q` comes after the Rflush of a Tflush that named it while it was being worked on. */
  ghost predicate RepliesAfterRflush(s: State, f: ReqId, q: ReqId) {
    && f in s.origin && q in s.origin && s.origin[f].conn == s.origin[q].conn
    && s.origin[f].kind == Flush(s.origin[q].tag)
    && Before(s.log, Got(q), Got(f)) && Before(s.log, Rflush(f), Replies(q))
  }
}
