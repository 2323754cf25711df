/**
  When a request replies.  A request is silenced by EINTR or by the close of its connection,
  each at one moment of the run, and nothing undoes it; so a reply is sent exactly if neither
  came before.
*/
module LifecycleSilence {
  import opened Common
  import opened Lifecycle
  import opened LifecycleInv
  import opened LifecycleHistory
  import opened LifecycleTheorems

  /** The step that makes `r` one that must not reply. */
  ghost predicate Silences(s: State, a: Action, r: ReqId) {
    || a == Release(r, true)
    || (r in s.reqs && a == CloseConn(s.reqs[r].conn) && s.reqs[r].at.Working? && s.reqs[r].at.pool in s.order)
  }

  /** What one step does to `r`: it is new, or it keeps its connection and loses its reply only if
      the step silences it; only a worker that takes it makes it a request being worked on, and it
      does not come back to its reader. */
  ghost predicate Onward(s: State, a: Action, t: State, r: ReqId) {
    && (r in t.reqs && r !in s.reqs ==> a.Receive? && t.reqs[r].state.Normal? && t.reqs[r].at.Held? && a.c == t.reqs[r].conn)
    && (r in t.reqs && r in s.reqs ==> Same(s.reqs[r], t.reqs[r], a.Take?, Silences(s, a, r)))
  }

  ghost predicate Same(q: Req, p: Req, taken: bool, silenced: bool) {
    && p.conn == q.conn
    && p.state == (if silenced then NoReply else q.state)
    && (p.at.Working? ==> (q.at.Working? && q.at.pool == p.at.pool) || (taken && q.at.Queued?))
    && (p.at.Held? ==> q.at.Held?)
  }

  // ---- the steps that free a request ----

  lemma AfterFlushReq(s: State, c: ConnId, r: ReqId)
    requires Inv(s) && Enabled(s, FlushReq(c))
    ensures Still(s, DoFlush(s, c), r)
  {
    var f := s.conns[c].held.value;
    match Search(s, s.order, c, s.reqs[f].kind.oldtag)
    case Nowhere =>
    case InQueue(p, x) => AfterFlushEarly(s, c, f, p, x, r);
    case InWork(p, x) => AfterFlushLate(s, c, f, p, x, r);
  }

  lemma AfterFlushEarly(s: State, c: ConnId, f: ReqId, p: PoolId, x: ReqId, r: ReqId)
    requires Inv(s) && c in s.conns && s.conns[c].held == Some(f) && f in s.reqs && s.reqs[f].kind.Flush?
    requires p in s.pools && x in s.pools[p].queue && x in s.reqs
    ensures Still(s, Dequeue(SetReq(s, f, s.reqs[f].(at := Held(true))), p, x), r)
  {
    var s1 := SetReq(s, f, s.reqs[f].(at := Held(true)));
    assert At(s, f);
    ReadyKeeps(s, c);
    DequeueStill(s1, p, x, r);
    StillStill(s, s1, Dequeue(s1, p, x), r);
  }

  lemma DequeueStill(s: State, p: PoolId, x: ReqId, r: ReqId)
    requires Inv(s) && p in s.pools && x in s.pools[p].queue && x in s.reqs
    ensures Still(s, Dequeue(s, p, x), r)
  {
    DequeueKeeps(s, p, x);
  }

  /** `r` is as before, but for its flushreq and its place off the lists. */
  ghost predicate Still(s: State, t: State, r: ReqId) {
    r in t.reqs ==> r in s.reqs && Same(s.reqs[r], t.reqs[r], false, false)
  }

  lemma DetachStill(s: State, x: ReqId, at: Loc, r: ReqId)
    requires x in s.reqs && (at == s.reqs[x].at || at.Finishing?)
    ensures Still(s, Detach(s, x, at), r)
  {
    var s1 := SetReq(s, x, s.reqs[x].(flushreq := None, at := at));
    var f := s.reqs[x].flushreq;
    assert Still(s, s1, r);
    if f.Some? && f.value in s1.reqs {
      LoosedStill(s1, f.value, r);
      StillStill(s, s1, Detach(s, x, at), r);
    }
  }

  lemma LoosedStill(s: State, f: ReqId, r: ReqId)
    requires f in s.reqs
    ensures Still(s, SetReq(s, f, s.reqs[f].(at := Loose)), r)
  {
  }

  lemma AttachStill(s: State, c: ConnId, f: ReqId, x: ReqId, r: ReqId)
    ensures Still(s, AttachFlush(s, c, f, x), r)
  {
  }

  lemma FreeStill(s: State, x: ReqId, r: ReqId)
    requires Inv(s) && x in s.reqs && (s.reqs[x].at.Finishing? || s.reqs[x].at.Loose?) && s.reqs[x].flushreq.None?
    ensures Still(s, Unref(s, x), r)
  {
    UnrefKeeps(s, x);
  }

  lemma StillStill(s: State, t: State, u: State, r: ReqId)
    requires Still(s, t, r) && Still(t, u, r)
    ensures Still(s, u, r)
  {
  }

  lemma AfterFlushLate(s: State, c: ConnId, f: ReqId, p: PoolId, x: ReqId, r: ReqId)
    requires Inv(s) && c in s.conns && s.conns[c].held == Some(f) && f in s.reqs && s.reqs[f].kind.Flush?
    requires p in s.pools && x in s.pools[p].work && x in s.reqs && s.reqs[x].conn == c
    ensures Still(s, DoFlushLate(s, c, f, x), r)
  {
    var prior := s.reqs[x].flushreq;
    assert At(s, f) && ReqOk(s, f) && At(s, x);
    assert ReqOk(s, x);
    if prior.Some? {
      assert At(s, prior.value) && ReqOk(s, prior.value);
    }
    var s0 := Detach(s, x, s.reqs[x].at);
    DetachKeeps(s, x, s.reqs[x].at);
    DetachStill(s, x, s.reqs[x].at, r);
    AttachFlushKeeps(s0, c, f, x);
    var s1 := AttachFlush(s0, c, f, x);
    AttachStill(s0, c, f, x, r);
    StillStill(s, s0, s1, r);
    if prior.Some? {
      var s2 := Log(s1, Superseded(prior.value, f, x));
      LogKeeps(s1, Superseded(prior.value, f, x));
      FreeStill(s2, prior.value, r);
      StillStill(s, s2, Unref(s2, prior.value), r);
    }
  }

  lemma AfterAnswer(s: State, c: ConnId, r: ReqId)
    requires Inv(s) && Enabled(s, AnswerFlush(c))
    ensures Still(s, DoAnswer(s, c), r)
  {
    var f := s.conns[c].held.value;
    assert At(s, f) && ReqOk(s, f);
    LetGoKeeps(s, c);
    LogKeeps(LetGo(s, c), Rflush(f));
    var s1 := SendFlush(LetGo(s, c), f);
    FreeStill(s1, f, r);
    StillStill(s, s1, Unref(s1, f), r);
  }

  lemma AfterFinishFlush(s: State, x: ReqId, r: ReqId)
    requires Inv(s) && Enabled(s, FinishFlush(x))
    ensures Still(s, DoFinishFlush(s, x), r)
  {
    assert At(s, x) && ReqOk(s, x);
    DetachKeeps(s, x, Finishing(true));
    DetachStill(s, x, Finishing(true), r);
    var s1 := Detach(s, x, Finishing(true));
    if s.reqs[x].flushreq.Some? {
      var f := s.reqs[x].flushreq.value;
      assert At(s, f) && ReqOk(s, f);
      LogKeeps(s1, Rflush(f));
      var s2 := SendFlush(s1, f);
      FreeStill(s2, f, r);
      StillStill(s, s2, Unref(s2, f), r);
    }
  }

  // ---- closing ----

  lemma SilenceOne(s: State, p: PoolId, c: ConnId, r: ReqId)
    requires Inv(s) && p in s.pools
    ensures p in DrainQueue(s, p, s.pools[p].queue, c).pools
    ensures var t := Silence(DrainQueue(s, p, s.pools[p].queue, c), p, c);
            r in t.reqs ==> r in s.reqs && t.reqs[r] == s.reqs[r].(state :=
              if s.reqs[r].conn == c && s.reqs[r].at.Working? && s.reqs[r].at.pool == p then NoReply else s.reqs[r].state)
  {
    assert PoolOk(s, p);
    DrainQueueKeeps(s, p, s.pools[p].queue, c);
    assert At(DrainQueue(s, p, s.pools[p].queue, c), r);
  }

  /** Closing silences what is being worked on for `c` in one of the pools, and nothing else. */
  lemma {:induction false} SilencedExactly(s: State, ps: seq<PoolId>, c: ConnId, r: ReqId)
    requires Inv(s) && forall p :: p in ps ==> p in s.pools
    ensures var t := ClosePools(s, ps, c);
            r in t.reqs ==> r in s.reqs && t.reqs[r] == s.reqs[r].(state :=
              if s.reqs[r].conn == c && s.reqs[r].at.Working? && s.reqs[r].at.pool in ps then NoReply else s.reqs[r].state)
    decreases |ps|
  {
    if ps != [] {
      var p := ps[0];
      ClosePoolKeeps(s, p, {}, c);
      SilenceOne(s, p, c, r);
      SilencedExactly(Silence(DrainQueue(s, p, s.pools[p].queue, c), p, c), ps[1..], c, r);
      assert ps == [p] + ps[1..];
    }
  }

  lemma AfterClose(s: State, c: ConnId, r: ReqId)
    requires Inv(s) && Enabled(s, CloseConn(c))
    ensures Onward(s, CloseConn(c), Next(s, CloseConn(c)), r)
  {
    SilencedExactly(s, s.order, c, r);
    ClosePoolsKeeps(s, s.order, {}, c);
  }

  /** A step that changes the one request `x`. */
  lemma MovedOne(s: State, a: Action, t: State, x: ReqId, q: Req, r: ReqId)
    requires x in s.reqs && t.reqs == s.reqs[x := q] && Same(s.reqs[x], q, a.Take?, Silences(s, a, x))
    requires r != x ==> !Silences(s, a, r)
    ensures Onward(s, a, t, r)
  {
  }

  lemma AfterReceive(s: State, a: Action, r: ReqId)
    requires Enabled(s, a) && a.Receive? && (r in s.reqs ==> r in s.origin)
    ensures Onward(s, a, Next(s, a), r)
  {
  }

  lemma AfterEnqueue(s: State, c: ConnId, x: ReqId, r: ReqId)
    requires Enabled(s, Enqueue(c)) && x == s.conns[c].held.value
    ensures Onward(s, Enqueue(c), Next(s, Enqueue(c)), r)
  {
    var q := s.reqs[x].(at := Queued(PoolOf(s, s.reqs[x])));
    assert DoEnqueue(s, c).reqs == s.reqs[x := q];
    MovedOne(s, Enqueue(c), DoEnqueue(s, c), x, q, r);
  }

  lemma AfterTake(s: State, p: PoolId, x: ReqId, r: ReqId)
    requires Enabled(s, Take(p)) && x == s.pools[p].queue[0] && s.reqs[x].at.Queued?
    ensures Onward(s, Take(p), Next(s, Take(p)), r)
  {
    var q := s.reqs[x].(at := Working(p, Processing));
    assert DoTake(s, p).reqs == s.reqs[x := q];
    MovedOne(s, Take(p), DoTake(s, p), x, q, r);
  }

  lemma AfterRelease(s: State, x: ReqId, eintr: bool, r: ReqId)
    requires Enabled(s, Release(x, eintr))
    ensures Onward(s, Release(x, eintr), Next(s, Release(x, eintr)), r)
  {
    MovedOne(s, Release(x, eintr), DoRelease(s, x, eintr), x, DoRelease(s, x, eintr).reqs[x], r);
  }

  lemma AfterRespond(s: State, x: ReqId, r: ReqId)
    requires Enabled(s, Respond(x))
    ensures Onward(s, Respond(x), Next(s, Respond(x)), r)
  {
    MovedOne(s, Respond(x), DoRespond(s, x), x, DoRespond(s, x).reqs[x], r);
  }

  lemma AfterUnlink(s: State, x: ReqId, r: ReqId)
    requires Enabled(s, Unlink(x))
    ensures Onward(s, Unlink(x), Next(s, Unlink(x)), r)
  {
    MovedOne(s, Unlink(x), DoUnlink(s, x), x, DoUnlink(s, x).reqs[x], r);
  }

  lemma Untouched(s: State, a: Action)
    requires Enabled(s, a)
    requires a.NewConn? || a.NewFid? || a.SelectPool? || a.CloneFid? || a.DestroyFid? || a.DestroyConn? || a.FreePool? || a.DestroyServer?
    ensures Next(s, a).reqs == s.reqs
  {
  }

  lemma StillOnward(s: State, a: Action, t: State, r: ReqId)
    requires Still(s, t, r) && !a.Release? && !a.CloseConn?
    ensures Onward(s, a, t, r)
  {
  }

  lemma AfterFree(s: State, x: ReqId, r: ReqId)
    requires Inv(s) && Enabled(s, FinishFree(x))
    ensures Still(s, Unref(s, x), r)
  {
    assert At(s, x) && ReqOk(s, x);
    FreeStill(s, x, r);
  }

  ghost predicate Moves(a: Action) {
    a.Receive? || a.Enqueue? || a.Take? || a.Release? || a.Respond? || a.Unlink?
  }

  lemma AfterMove(s: State, a: Action, r: ReqId)
    requires Inv(s) && Enabled(s, a) && Moves(a)
    ensures Onward(s, a, Next(s, a), r)
  {
    match a
    case Receive(_, _, _, _, _) =>
      if r in s.reqs {
        LiveSeen(s, r);
      }
      AfterReceive(s, a, r);
    case Enqueue(c) => AfterEnqueue(s, c, s.conns[c].held.value, r);
    case Take(p) =>
      assert At(s, s.pools[p].queue[0]);
      AfterTake(s, p, s.pools[p].queue[0], r);
    case Release(x, eintr) => AfterRelease(s, x, eintr, r);
    case Respond(x) => AfterRespond(s, x, r);
    case Unlink(x) => AfterUnlink(s, x, r);
  }

  lemma AfterOther(s: State, a: Action, r: ReqId)
    requires Inv(s) && Enabled(s, a) && !Moves(a) && !a.CloseConn?
    ensures Still(s, Next(s, a), r)
  {
    match a
    case FlushReq(c) => AfterFlushReq(s, c, r);
    case AnswerFlush(c) => AfterAnswer(s, c, r);
    case FinishFlush(x) => AfterFinishFlush(s, x, r);
    case FinishFree(x) => AfterFree(s, x, r);
    case _ => Untouched(s, a);
  }

  lemma StepOnward(s: State, a: Action, r: ReqId)
    requires Inv(s) && Enabled(s, a)
    ensures Onward(s, a, Next(s, a), r)
  {
    if Moves(a) {
      AfterMove(s, a, r);
    } else if a.CloseConn? {
      AfterClose(s, a.c, r);
    } else {
      AfterOther(s, a, r);
      StillOnward(s, a, Next(s, a), r);
    }
  }

  // ---- what only grows ----

  /** The connection has been closed, and perhaps destroyed. */
  ghost predicate Shut(s: State, c: ConnId) {
    c in s.oldConns || (c in s.conns && s.conns[c].closing)
  }

  ghost predicate Grown(s: State, t: State) {
    && s.log <= t.log && s.origin.Keys <= t.origin.Keys && s.oldConns <= t.oldConns
    && forall c :: c in s.conns && s.conns[c].closing ==> Shut(t, c)
  }

  lemma GrownGrown(s: State, t: State, u: State)
    requires Grown(s, t) && Grown(t, u)
    ensures Grown(s, u)
  {
    forall c | c in s.conns && s.conns[c].closing ensures Shut(u, c) {
      assert Shut(t, c);
    }
  }

  lemma {:induction false} UnrefGrows(s: State, r: ReqId)
    requires r in s.reqs
    ensures Grown(s, Unref(s, r))
    decreases s.reqs.Keys
  {
    var q := s.reqs[r];
    var s1 := Log(s.(reqs := s.reqs - {r}, conns := AddRefs(s.conns, q.conn, -1)), Freed(r));
    assert Grown(s, s1);
    if q.flushreq.Some? && q.flushreq.value in s1.reqs {
      assert s1.reqs.Keys == s.reqs.Keys - {r};
      UnrefGrows(s1, q.flushreq.value);
      GrownGrown(s, s1, Unref(s, r));
    }
  }

  lemma DequeueGrows(s: State, p: PoolId, r: ReqId)
    requires p in s.pools && r in s.reqs
    ensures Grown(s, Dequeue(s, p, r))
  {
    var s1 := Log(RemoveQueued(s, p, r), Dropped(r));
    UnrefGrows(s1, r);
    GrownGrown(s, s1, Dequeue(s, p, r));
  }

  lemma FlushGrows(s: State, c: ConnId)
    requires Enabled(s, FlushReq(c))
    ensures Grown(s, DoFlush(s, c))
  {
    var f := s.conns[c].held.value;
    match Search(s, s.order, c, s.reqs[f].kind.oldtag)
    case Nowhere =>
    case InQueue(p, r) => FlushEarlyGrows(s, f, p, r);
    case InWork(p, r) => FlushLateGrows(s, c, f, r);
  }

  lemma FlushEarlyGrows(s: State, f: ReqId, p: PoolId, r: ReqId)
    requires f in s.reqs && r in s.reqs && p in s.pools
    ensures Grown(s, Log(Dequeue(SetReq(s, f, s.reqs[f].(at := Held(true))), p, r), Early(f, r)))
  {
    var s1 := SetReq(s, f, s.reqs[f].(at := Held(true)));
    DequeueGrows(s1, p, r);
    GrownGrown(s, s1, Dequeue(s1, p, r));
  }

  lemma DetachGrows(s: State, r: ReqId, at: Loc)
    requires r in s.reqs
    ensures Grown(s, Detach(s, r, at))
  {
  }

  lemma AttachGrows(s: State, c: ConnId, f: ReqId, r: ReqId)
    ensures Grown(s, AttachFlush(s, c, f, r))
  {
  }

  lemma FlushLateGrows(s: State, c: ConnId, f: ReqId, r: ReqId)
    requires r in s.reqs
    ensures Grown(s, DoFlushLate(s, c, f, r))
  {
    var prior := s.reqs[r].flushreq;
    var s0 := Detach(s, r, s.reqs[r].at);
    var s1 := AttachFlush(s0, c, f, r);
    DetachGrows(s, r, s.reqs[r].at);
    AttachGrows(s0, c, f, r);
    GrownGrown(s, s0, s1);
    if prior.Some? && prior.value in s1.reqs {
      LogUnrefGrows(s, s1, Superseded(prior.value, f, r), prior.value);
    }
  }

  lemma LogUnrefGrows(s: State, s1: State, e: Event, r: ReqId)
    requires Grown(s, s1) && r in s1.reqs
    ensures Grown(s, Unref(Log(s1, e), r)) && Grown(s, Unref(s1, r))
  {
    UnrefGrows(s1, r);
    UnrefGrows(Log(s1, e), r);
    GrownGrown(s, s1, Log(s1, e));
    GrownGrown(s, Log(s1, e), Unref(Log(s1, e), r));
    GrownGrown(s, s1, Unref(s1, r));
  }

  lemma AnswerGrows(s: State, c: ConnId)
    requires Enabled(s, AnswerFlush(c))
    ensures Grown(s, DoAnswer(s, c))
  {
    var f := s.conns[c].held.value;
    var s1 := SendFlush(LetGo(s, c), f);
    UnrefGrows(s1, f);
    GrownGrown(s, s1, Unref(s1, f));
  }

  lemma FinishFlushGrows(s: State, r: ReqId)
    requires r in s.reqs
    ensures Grown(s, DoFinishFlush(s, r))
  {
    var f := s.reqs[r].flushreq;
    var s1 := Detach(s, r, Finishing(true));
    DetachGrows(s, r, Finishing(true));
    if f.Some? && f.value in s1.reqs {
      LogUnrefGrows(s, s1, Rflush(f.value), f.value);
    }
  }

  lemma {:induction false} DrainGrows(s: State, p: PoolId, pending: seq<ReqId>, c: ConnId)
    ensures Grown(s, DrainQueue(s, p, pending, c))
    decreases |pending|
  {
    if pending != [] {
      if p in s.pools && pending[0] in s.reqs && s.reqs[pending[0]].conn == c {
        var s1 := Dequeue(s, p, pending[0]);
        DequeueGrows(s, p, pending[0]);
        DrainGrows(s1, p, pending[1..], c);
        GrownGrown(s, s1, DrainQueue(s1, p, pending[1..], c));
      } else {
        DrainGrows(s, p, pending[1..], c);
      }
    }
  }

  lemma {:induction false} ClosePoolsGrow(s: State, ps: seq<PoolId>, c: ConnId)
    ensures Grown(s, ClosePools(s, ps, c))
    decreases |ps|
  {
    if ps != [] {
      if ps[0] !in s.pools {
        ClosePoolsGrow(s, ps[1..], c);
      } else {
        var s1 := DrainQueue(s, ps[0], s.pools[ps[0]].queue, c);
        DrainGrows(s, ps[0], s.pools[ps[0]].queue, c);
        var s2 := if ps[0] in s1.pools then Silence(s1, ps[0], c) else s1;
        GrownGrown(s, s1, s2);
        ClosePoolsGrow(s2, ps[1..], c);
        GrownGrown(s, s2, ClosePools(s2, ps[1..], c));
      }
    }
  }

  lemma ClosingGrows(s: State, c: ConnId)
    requires c in s.conns
    ensures Grown(s, Log(s.(conns := s.conns[c := s.conns[c].(closing := true)]), Closed(c)))
  {
  }

  lemma CloseGrows(s: State, c: ConnId)
    ensures Grown(s, DoClose(s, c))
  {
    ClosePoolsGrow(s, s.order, c);
    var s1 := ClosePools(s, s.order, c);
    if c in s1.conns {
      ClosingGrows(s1, c);
      GrownGrown(s, s1, DoClose(s, c));
    }
  }

  lemma MoveGrows(s: State, a: Action)
    requires Enabled(s, a) && Moves(a)
    ensures Grown(s, Next(s, a))
  {
  }

  lemma PlainGrows(s: State, a: Action)
    requires Enabled(s, a) && !Moves(a) && !a.FlushReq? && !a.AnswerFlush? && !a.FinishFlush? && !a.FinishFree? && !a.CloseConn?
    ensures Grown(s, Next(s, a))
  {
  }

  /** Log, ids, old connections and closed connections only grow. */
  lemma StepGrows(s: State, a: Action)
    requires Enabled(s, a)
    ensures Grown(s, Next(s, a))
  {
    if Moves(a) {
      MoveGrows(s, a);
    } else {
      match a
      case FlushReq(c) => FlushGrows(s, c);
      case AnswerFlush(c) => AnswerGrows(s, c);
      case FinishFlush(r) => FinishFlushGrows(s, r);
      case FinishFree(r) => UnrefGrows(s, r);
      case CloseConn(c) => CloseGrows(s, c);
      case _ => PlainGrows(s, a);
    }
  }

  lemma {:induction false} RunGrows(ss: seq<State>, acts: seq<Action>, j: nat, i: nat)
    requires Run(ss, acts) && j <= i < |ss|
    ensures Grown(ss[j], ss[i])
    decreases i - j
  {
    if j < i {
      RunGrows(ss, acts, j, i - 1);
      StepGrows(ss[i - 1], acts[i - 1]);
      GrownGrown(ss[j], ss[i - 1], ss[i]);
    }
  }

  // ---- whole runs ----

  ghost predicate Silenced(ss: seq<State>, acts: seq<Action>, from: nat, to: nat, r: ReqId)
    requires to <= |ss| && to <= |acts|
  {
    exists k :: from <= k < to && Silences(ss[k], acts[k], r)
  }

  /** An id that was seen is not received again, so a live request was live all along. */
  lemma LiveBefore(ss: seq<State>, acts: seq<Action>, j: nat, i: nat, r: ReqId)
    requires Run(ss, acts) && j < i < |ss| && r in ss[j].origin && r in ss[i].reqs
    ensures r in ss[i - 1].reqs
  {
    RunInv(ss, acts, i - 1);
    RunGrows(ss, acts, j, i - 1);
    StepOnward(ss[i - 1], acts[i - 1], r);
  }

  /** Between two moments of its life a request loses its reply exactly if it is silenced. */
  lemma {:induction false} SilencedSince(ss: seq<State>, acts: seq<Action>, j: nat, i: nat, r: ReqId)
    requires Run(ss, acts) && j <= i < |ss| && r in ss[j].reqs && r in ss[i].reqs
    ensures ss[i].reqs[r].conn == ss[j].reqs[r].conn
    ensures ss[i].reqs[r].state.Normal? <==> ss[j].reqs[r].state.Normal? && !Silenced(ss, acts, j, i, r)
    decreases i - j
  {
    if j < i {
      RunInv(ss, acts, j);
      LiveSeen(ss[j], r);
      LiveBefore(ss, acts, j, i, r);
      RunInv(ss, acts, i - 1);
      StepOnward(ss[i - 1], acts[i - 1], r);
      SilencedSince(ss, acts, j, i - 1, r);
      OneMore(ss, acts, j, i, r);
    }
  }

  lemma OneMore(ss: seq<State>, acts: seq<Action>, j: nat, i: nat, r: ReqId)
    requires j < i <= |ss| && i <= |acts|
    ensures Silenced(ss, acts, j, i, r) <==> Silenced(ss, acts, j, i - 1, r) || Silences(ss[i - 1], acts[i - 1], r)
  {
  }

  /** A request still has its reply exactly if nothing has silenced it since it came. */
  lemma {:induction false} NormalUnlessSilenced(ss: seq<State>, acts: seq<Action>, i: nat, r: ReqId)
    requires Run(ss, acts) && i < |ss| && r in ss[i].reqs
    ensures ss[i].reqs[r].state.Normal? <==> !Silenced(ss, acts, 0, i, r)
  {
    if i > 0 {
      RunInv(ss, acts, i - 1);
      StepOnward(ss[i - 1], acts[i - 1], r);
      OneMore(ss, acts, 0, i, r);
      if r in ss[i - 1].reqs {
        NormalUnlessSilenced(ss, acts, i - 1, r);
      } else {
        NotSilencedBefore(ss, acts, i - 1, r);
      }
    }
  }

  /** Before its id is used, nothing silences a request. */
  lemma NotSilencedBefore(ss: seq<State>, acts: seq<Action>, i: nat, r: ReqId)
    requires Run(ss, acts) && i < |acts| && r !in ss[i].reqs && r in ss[i + 1].reqs
    ensures !Silenced(ss, acts, 0, i + 1, r)
  {
    RunInv(ss, acts, i);
    StepOnward(ss[i], acts[i], r);
    assert r !in ss[i].origin;
    forall k | 0 <= k < i + 1 ensures !Silences(ss[k], acts[k], r) {
      RunInv(ss, acts, k);
      RunGrows(ss, acts, k, i);
      if r in ss[k].reqs {
        LiveSeen(ss[k], r);
      }
    }
  }

  /** The worker's answer to `r` goes out exactly if neither EINTR nor the close of its connection,
      met on a work list of a listed pool, came before it. */
  lemma RepliesExactly(ss: seq<State>, acts: seq<Action>, i: nat, r: ReqId)
    requires Run(ss, acts) && i < |acts| && acts[i] == Respond(r)
    ensures ss[i + 1].log == ss[i].log + [if Silenced(ss, acts, 0, i, r) then Suppressed(r) else Replies(r)]
  {
    NormalUnlessSilenced(ss, acts, i, r);
  }

  // ---- after a connection is closed ----

  /** What is being worked on after its connection was closed was being worked on then. */
  lemma {:induction false} WorkedOnThen(ss: seq<State>, acts: seq<Action>, j: nat, i: nat, r: ReqId, c: ConnId)
    requires Run(ss, acts) && j < i < |ss| && acts[j] == CloseConn(c)
    requires r in ss[i].reqs && ss[i].reqs[r].conn == c && ss[i].reqs[r].at.Working?
    ensures r in ss[j].reqs && ss[j].reqs[r].conn == c && ss[j].reqs[r].at.Working?
    ensures ss[i].reqs[r].at.pool == ss[j].reqs[r].at.pool
    decreases i - j
  {
    RunInv(ss, acts, i - 1);
    StepOnward(ss[i - 1], acts[i - 1], r);
    if j < i - 1 {
      ClosedByThen(ss, acts, j, i - 1, r, c);
      WorkedOnThen(ss, acts, j, i - 1, r, c);
    }
  }

  /** A live request of a connection that was closed is not queued. */
  lemma ClosedByThen(ss: seq<State>, acts: seq<Action>, j: nat, k: nat, r: ReqId, c: ConnId)
    requires Run(ss, acts) && j < k < |ss| && acts[j] == CloseConn(c)
    requires r in ss[k].reqs && ss[k].reqs[r].conn == c
    ensures c in ss[k].conns && ss[k].conns[c].closing && !ss[k].reqs[r].at.Queued?
  {
    RunInv(ss, acts, j);
    ClosesIt(ss[j], c);
    RunGrows(ss, acts, j + 1, k);
    RunInv(ss, acts, k);
    assert ReqOk(ss[k], r) && ConnOk(ss[k], c);
  }

  lemma ClosesIt(s: State, c: ConnId)
    requires Enabled(s, CloseConn(c)) && Inv(s)
    ensures Shut(Next(s, CloseConn(c)), c)
  {
    ClosePoolsKeeps(s, s.order, {}, c);
  }

  /** After the close of its connection a request replies exactly if it still had its reply, its
      pool was then no longer in the list, and no EINTR came after. */
  lemma ClosedReplies(ss: seq<State>, acts: seq<Action>, j: nat, i: nat, r: ReqId, c: ConnId)
    requires Run(ss, acts) && j < i < |acts| && acts[j] == CloseConn(c) && acts[i] == Respond(r) && ss[i].reqs[r].conn == c
    ensures r in ss[j].reqs && ss[j].reqs[r].at.Working?
    ensures ss[i + 1].log == ss[i].log + [Replies(r)] || ss[i + 1].log == ss[i].log + [Suppressed(r)]
    ensures ss[i + 1].log == ss[i].log + [Replies(r)] <==>
              && ss[j].reqs[r].state.Normal?
              && ss[j].reqs[r].at.pool !in ss[j].order
              && forall k :: j < k < i ==> acts[k] != Release(r, true)
  {
    WorkedOnThen(ss, acts, j, i, r, c);
    SilencedSince(ss, acts, j, i, r);
    forall k | j < k < i ensures Silences(ss[k], acts[k], r) <==> acts[k] == Release(r, true) {
      ClosedOnce(ss, acts, j, k, c);
      if r in ss[k].reqs {
        SilencedSince(ss, acts, j, k, r);
      }
    }
    SilencedAt(ss, acts, j, i, r);
    assert (ss[i].log + [Replies(r)])[|ss[i].log|] != (ss[i].log + [Suppressed(r)])[|ss[i].log|];
  }

  /** A connection is closed once. */
  lemma ClosedOnce(ss: seq<State>, acts: seq<Action>, j: nat, k: nat, c: ConnId)
    requires Run(ss, acts) && j < k < |acts| && acts[j] == CloseConn(c)
    ensures acts[k] != CloseConn(c)
  {
    RunInv(ss, acts, j);
    ClosesIt(ss[j], c);
    RunGrows(ss, acts, j + 1, k);
    RunInv(ss, acts, k);
    if c in ss[k].conns {
      assert ConnOk(ss[k], c);
    }
  }

  lemma SilencedAt(ss: seq<State>, acts: seq<Action>, j: nat, i: nat, r: ReqId)
    requires j < i <= |acts| && i <= |ss| && acts[j] != Release(r, true)
    requires forall k :: j < k < i ==> (Silences(ss[k], acts[k], r) <==> acts[k] == Release(r, true))
    ensures Silenced(ss, acts, j, i, r) <==> Silences(ss[j], acts[j], r) || exists k :: j < k < i && acts[k] == Release(r, true)
  {
  }

  // ---- flush, from the moment it is carried out ----

  lemma FlushLogs(s: State, c: ConnId, f: ReqId, q: ReqId)
    requires Inv(s) && Enabled(s, FlushReq(c)) && s.conns[c].held == Some(f)
    requires q in s.reqs && s.reqs[q].conn == c && s.reqs[f].kind == Flush(s.reqs[q].tag) && TagUnique(s, q)
    requires (s.reqs[q].at.Queued? || s.reqs[q].at.Working?) && s.reqs[q].at.pool in s.order
    ensures Early(f, q) in Next(s, FlushReq(c)).log || Late(f, q) in Next(s, FlushReq(c)).log
  {
    FlushFinds(s, q);
    match Search(s, s.order, c, s.reqs[f].kind.oldtag)
    case InQueue(p, r) => assert Next(s, FlushReq(c)).log[|Next(s, FlushReq(c)).log| - 1] == Early(f, q);
    case InWork(p, r) => LateLogs(s, c, f, q);
  }

  lemma LateLogs(s: State, c: ConnId, f: ReqId, q: ReqId)
    requires Inv(s) && Enabled(s, FlushReq(c)) && s.conns[c].held == Some(f) && q in s.reqs && f != q
    ensures Late(f, q) in DoFlushLate(s, c, f, q).log
  {
    var prior := s.reqs[q].flushreq;
    var s1 := AttachFlush(Detach(s, q, s.reqs[q].at), c, f, q);
    assert s1.log[|s1.log| - 1] == Late(f, q);
    if prior.Some? && prior.value in s1.reqs {
      var s2 := Log(s1, Superseded(prior.value, f, q));
      UnrefGrows(s2, prior.value);
      assert s1.log[|s1.log| - 1] == s2.log[|s1.log| - 1];
    }
  }

  /** A Tflush carried out while the request it names is in a listed pool: once the Rflush is out,
      that request does not reply. */
  lemma FlushSilences(ss: seq<State>, acts: seq<Action>, j: nat, i: nat, c: ConnId, f: ReqId, q: ReqId)
    requires Run(ss, acts) && j < i < |ss| && acts[j] == FlushReq(c) && ss[j].conns[c].held == Some(f)
    requires q in ss[j].reqs && ss[j].reqs[q].conn == c && ss[j].reqs[f].kind == Flush(ss[j].reqs[q].tag) && TagUnique(ss[j], q)
    requires (ss[j].reqs[q].at.Queued? || ss[j].reqs[q].at.Working?) && ss[j].reqs[q].at.pool in ss[j].order
    ensures NeverAfter(ss[i].log, Rflush(f), Replies(q))
  {
    RunInv(ss, acts, j);
    FlushLogs(ss[j], c, f, q);
    RunGrows(ss, acts, j + 1, i);
    assert forall e :: e in ss[j + 1].log ==> e in ss[i].log;
    FlushedNeverReplies(ss, acts, i, f, q);
  }
}
