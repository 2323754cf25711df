/**
  What a whole run of the server has done: every request is freed once and settled once,
  every Tflush is answered once unless a later one took its place, and no reply of a
  flushed request comes after the Rflush.
*/
module LifecycleHistory {
  import opened Common
  import opened Lifecycle
  import opened LifecycleInv

  /** How often `e` happened. */
  ghost function N(log: seq<Event>, e: Event): nat {
    multiset(log)[e]
  }

  lemma NAppend(log: seq<Event>, e: Event)
    ensures forall x :: N(log + [e], x) == N(log, x) + if x == e then 1 else 0
    ensures forall x :: x in log + [e] <==> x in log || x == e
  {
    assert multiset(log + [e]) == multiset(log) + multiset{e};
  }

  /** A later Tflush of the same request took the place of `f`. */
  ghost predicate Replaced(log: seq<Event>, f: ReqId) {
    exists w, q :: Superseded(f, w, q) in log
  }

  ghost predicate Before(log: seq<Event>, a: Event, b: Event) {
    exists i, j :: 0 <= i < j < |log| && log[i] == a && log[j] == b
  }

  ghost predicate NeverAfter(log: seq<Event>, a: Event, b: Event) {
    forall i, j :: 0 <= i < j < |log| && log[i] == a ==> log[j] != b
  }

  /** The worker has had its say on `r`, or `r` was taken from its queue. */
  ghost predicate Settled(s: State, r: ReqId) {
    r in s.origin && (r in s.reqs ==> s.reqs[r].at.Finishing? || s.reqs[r].at.Loose? || (s.reqs[r].at.Working? && s.reqs[r].at.stage.Replied?))
  }

  ghost predicate Gone(s: State, r: ReqId) {
    r in s.origin && r !in s.reqs
  }

  ghost predicate IsFlush(s: State, r: ReqId) {
    r in s.origin && s.origin[r].kind.Flush?
  }

  ghost predicate Hist(s: State, r: ReqId) {
    && N(s.log, Got(r)) == (if r in s.origin then 1 else 0)
    && N(s.log, Freed(r)) == (if Gone(s, r) then 1 else 0)
    && N(s.log, Replies(r)) + N(s.log, Suppressed(r)) + N(s.log, Dropped(r))
       == (if !IsFlush(s, r) && Settled(s, r) then 1 else 0)
    && N(s.log, Rflush(r)) + (if Replaced(s.log, r) then 1 else 0) == (if IsFlush(s, r) && Gone(s, r) then 1 else 0)
  }

  /** The story of a Tflush `f` that found `q` being worked on, or queued. */
  ghost predicate Link(s: State, f: ReqId, q: ReqId) {
    && (f in s.reqs && s.reqs[f].at == Attached(q) ==> Late(f, q) in s.log)
    && (Late(f, q) in s.log ==>
          && IsFlush(s, f) && q in s.origin && !IsFlush(s, q)
          && s.origin[q].conn == s.origin[f].conn && s.origin[q].tag == s.origin[f].kind.oldtag
          && (f in s.reqs ==> s.reqs[f].at == Attached(q) || s.reqs[f].at.Loose?)
          && (q in s.reqs && Rflush(f) in s.log ==> s.reqs[q].at == Finishing(true))
          && NeverAfter(s.log, Rflush(f), Replies(q)))
    && (Early(f, q) in s.log ==> N(s.log, Dropped(q)) == 1)
  }

  ghost predicate Replacement(s: State, f: ReqId, w: ReqId, q: ReqId) {
    Superseded(f, w, q) in s.log ==> Before(s.log, Late(f, q), Late(w, q)) && f != w
  }

  /** Nothing is sent on a destroyed connection. */
  ghost predicate SendsOn(s: State, e: Event, c: ConnId) {
    || (e.Replies? && e.req in s.origin && s.origin[e.req].conn == c)
    || (e.Rflush? && e.flush in s.origin && s.origin[e.flush].conn == c)
  }

  ghost predicate Silent(s: State, c: ConnId) {
    && (Destroyed(c) in s.log ==> c in s.oldConns)
    && forall i, j :: 0 <= i < j < |s.log| && s.log[i] == Destroyed(c) ==> !SendsOn(s, s.log[j], c)
  }

  ghost predicate OrderInv(s: State) {
    && (forall f, w, q {:trigger Replacement(s, f, w, q)} :: Replacement(s, f, w, q))
    && (forall c {:trigger Silent(s, c)} :: Silent(s, c))
  }

  ghost predicate HistInv(s: State) {
    && (forall r {:trigger Hist(s, r)} :: Hist(s, r))
    && (forall f, q {:trigger Link(s, f, q)} :: Link(s, f, q))
    && OrderInv(s)
  }

  // ---- small steps that keep the history ----

  lemma BeforeGrows(log: seq<Event>, e: Event, a: Event, b: Event)
    requires Before(log, a, b)
    ensures Before(log + [e], a, b)
  {
    var i, j :| 0 <= i < j < |log| && log[i] == a && log[j] == b;
    assert (log + [e])[i] == a && (log + [e])[j] == b;
  }

  lemma NeverAfterGrows(log: seq<Event>, e: Event, a: Event, b: Event)
    requires NeverAfter(log, a, b) && (e == b ==> a !in log)
    ensures NeverAfter(log + [e], a, b)
  {
  }

  /** Changes that the history does not see. */
  ghost predicate Unseen(s: State, t: State) {
    && t.log == s.log && t.origin == s.origin && t.reqs.Keys == s.reqs.Keys && s.oldConns <= t.oldConns
    && forall r :: r in s.reqs ==>
         || t.reqs[r].at == s.reqs[r].at
         || (IsFlush(s, r) && s.reqs[r].at.Attached? && t.reqs[r].at.Loose?)
         || (!s.reqs[r].at.Attached? && !s.reqs[r].at.Loose? && !t.reqs[r].at.Attached? && s.reqs[r].at != Finishing(true)
             && (IsFlush(s, r) || (Settled(t, r) <==> Settled(s, r))))
  }

  lemma UnseenKeeps(s: State, t: State)
    requires HistInv(s) && Unseen(s, t)
    ensures HistInv(t)
  {
    forall r ensures Hist(t, r) { assert Hist(s, r); }
    forall f, q ensures Link(t, f, q) { assert Link(s, f, q); }
    forall f, w, q ensures Replacement(t, f, w, q) { assert Replacement(s, f, w, q); }
    forall c ensures Silent(t, c) { assert Silent(s, c); }
  }

  /** The parts of the history that only look at the order of events. */
  lemma OrderGrows(s: State, t: State, e: Event)
    requires OrderInv(s) && t.log == s.log + [e] && s.oldConns <= t.oldConns
    requires forall r :: r in s.origin ==> r in t.origin && t.origin[r] == s.origin[r]
    requires forall r :: r in t.origin && r !in s.origin ==> Replies(r) !in s.log && Rflush(r) !in s.log
    requires !e.Superseded? && (e.Destroyed? ==> e.conn in t.oldConns)
    requires forall c :: SendsOn(t, e, c) ==> c !in s.oldConns
    ensures OrderInv(t)
  {
    NAppend(s.log, e);
    forall f, w, q ensures Replacement(t, f, w, q) {
      assert Replacement(s, f, w, q);
      if Superseded(f, w, q) in s.log { BeforeGrows(s.log, e, Late(f, q), Late(w, q)); }
    }
    forall c ensures Silent(t, c) {
      assert Silent(s, c);
      forall i, j | 0 <= i < j < |t.log| && t.log[i] == Destroyed(c) ensures !SendsOn(t, t.log[j], c) {
        if j < |s.log| { assert t.log[j] == s.log[j] && s.log[j] in s.log; }
      }
    }
  }

  lemma ReplacedGrows(log: seq<Event>, e: Event)
    requires !e.Superseded?
    ensures forall f :: Replaced(log + [e], f) == Replaced(log, f)
  {
    NAppend(log, e);
    forall f ensures Replaced(log + [e], f) == Replaced(log, f) {
      if Replaced(log, f) {
        var w, q :| Superseded(f, w, q) in log;
        assert Superseded(f, w, q) in log + [e];
      }
      if Replaced(log + [e], f) {
        var w, q :| Superseded(f, w, q) in log + [e];
        assert Superseded(f, w, q) in log;
      }
    }
  }

  /** What the history of `x` counts, when `e` happens. */
  lemma Counts(log: seq<Event>, e: Event, x: ReqId)
    ensures N(log + [e], Got(x)) == N(log, Got(x)) + if e == Got(x) then 1 else 0
    ensures N(log + [e], Freed(x)) == N(log, Freed(x)) + if e == Freed(x) then 1 else 0
    ensures N(log + [e], Replies(x)) == N(log, Replies(x)) + if e == Replies(x) then 1 else 0
    ensures N(log + [e], Suppressed(x)) == N(log, Suppressed(x)) + if e == Suppressed(x) then 1 else 0
    ensures N(log + [e], Dropped(x)) == N(log, Dropped(x)) + if e == Dropped(x) then 1 else 0
    ensures N(log + [e], Rflush(x)) == N(log, Rflush(x)) + if e == Rflush(x) then 1 else 0
    ensures Replaced(log + [e], x) == (Replaced(log, x) || (e.Superseded? && e.flush == x))
  {
    NAppend(log, e);
    if e.Superseded? { ReplacedNow(log, e.flush, e.winner, e.req); } else { ReplacedGrows(log, e); }
  }

  ghost predicate Neutral(e: Event) {
    e.NotFound? || e.Closed? || e.Destroyed?
  }

  lemma NeutralKeeps(s: State, e: Event)
    requires HistInv(s) && (Neutral(e) || (e.Early? && N(s.log, Dropped(e.req)) == 1))
    requires e.Destroyed? ==> e.conn in s.oldConns
    ensures HistInv(Log(s, e))
  {
    var t := Log(s, e);
    NAppend(s.log, e);
    OrderGrows(s, t, e);
    forall r ensures Hist(t, r) {
      assert Hist(s, r);
      NeutralCounts(s, e, r);
    }
    forall f, q ensures Link(t, f, q) {
      assert Link(s, f, q);
      NeutralLink(s, e, f, q);
    }
  }

  lemma NeutralCounts(s: State, e: Event, r: ReqId)
    requires Hist(s, r) && (Neutral(e) || e.Early?)
    ensures Hist(Log(s, e), r)
  {
    Counts(s.log, e, r);
  }

  lemma NeutralLink(s: State, e: Event, f: ReqId, q: ReqId)
    requires Link(s, f, q) && (Neutral(e) || (e.Early? && N(s.log, Dropped(e.req)) == 1))
    ensures Link(Log(s, e), f, q)
  {
    NAppend(s.log, e);
    if Late(f, q) in s.log { NeverAfterGrows(s.log, e, Rflush(f), Replies(q)); }
  }

  lemma ReceiveCounts(s: State, t: State, c: ConnId, r: ReqId, x: ReqId)
    requires Hist(s, x) && r !in s.origin && r !in s.reqs && t.log == s.log + [Got(r)]
    requires r in t.reqs && t.reqs[r].at.Held? && r in t.origin
    requires x != r ==> (x in t.reqs <==> x in s.reqs) && (x in s.reqs ==> t.reqs[x] == s.reqs[x])
    requires x != r ==> (x in t.origin <==> x in s.origin) && (x in s.origin ==> t.origin[x] == s.origin[x])
    ensures Hist(t, x)
  {
    Counts(s.log, Got(r), x);
  }

  lemma ReceiveLink(s: State, t: State, c: ConnId, r: ReqId, f: ReqId, q: ReqId)
    requires Link(s, f, q) && Hist(s, r) && Hist(s, q) && r !in s.origin && r !in s.reqs && t.log == s.log + [Got(r)]
    requires r in t.reqs && t.reqs[r].at.Held? && r in t.origin
    requires forall x :: x != r ==> (x in t.reqs <==> x in s.reqs) && (x in s.reqs ==> t.reqs[x] == s.reqs[x])
    requires forall x :: x != r ==> (x in t.origin <==> x in s.origin) && (x in s.origin ==> t.origin[x] == s.origin[x])
    ensures Link(t, f, q)
  {
    NAppend(s.log, Got(r));
    if Late(f, q) in s.log { NeverAfterGrows(s.log, Got(r), Rflush(f), Replies(q)); }
  }

  lemma ReceiveHist(s: State, c: ConnId, r: ReqId, tag: nat, kind: Kind, fid: Option<FidId>)
    requires HistInv(s) && c in s.conns && r !in s.origin && r !in s.reqs
    ensures HistInv(DoReceive(s, c, r, tag, kind, fid))
  {
    var t := DoReceive(s, c, r, tag, kind, fid);
    assert Hist(s, r);
    OrderGrows(s, t, Got(r));
    forall x ensures Hist(t, x) {
      assert Hist(s, x);
      ReceiveCounts(s, t, c, r, x);
    }
    forall f, q ensures Link(t, f, q) {
      assert Link(s, f, q) && Hist(s, q);
      ReceiveLink(s, t, c, r, f, q);
    }
  }

  /** The rest of the history, when only `r` moves and `e` is what happened to it. */
  lemma MovedHist(s: State, t: State, r: ReqId, e: Event)
    requires HistInv(s) && t.log == s.log + [e] && t.origin == s.origin && t.oldConns == s.oldConns
    requires !e.Superseded? && !e.Late? && !e.Early? && !e.Rflush?
    requires forall x :: x != r ==> (x in s.reqs <==> x in t.reqs)
    requires forall x :: x != r && x in s.reqs ==> t.reqs[x].at == s.reqs[x].at
    requires r in s.reqs && !IsFlush(s, r) && (r in t.reqs && s.reqs[r].at == Finishing(true) ==> t.reqs[r].at == Finishing(true))
    requires !s.reqs[r].at.Attached? && (r in t.reqs ==> !t.reqs[r].at.Attached?)
    requires (e == Replies(r) ==> s.reqs[r].at != Finishing(true)) && (e == Dropped(r) ==> N(s.log, e) == 0)
    requires forall x :: x != r ==> e != Replies(x) && e != Dropped(x)
    ensures forall f, q {:trigger Link(t, f, q)} :: Link(t, f, q)
  {
    NAppend(s.log, e);
    forall f, q ensures Link(t, f, q) {
      assert Link(s, f, q);
      if Late(f, q) in s.log { NeverAfterGrows(s.log, e, Rflush(f), Replies(q)); }
    }
  }

  lemma SettleCounts(s: State, t: State, r: ReqId, e: Event, x: ReqId)
    requires Hist(s, x) && r in s.reqs && !IsFlush(s, r) && s.reqs[r].at.Working? && s.reqs[r].at.stage.Released?
    requires (e == Replies(r) || e == Suppressed(r)) && r in s.origin
    requires t.log == s.log + [e] && t.reqs.Keys == s.reqs.Keys && t.origin == s.origin
    requires t.reqs[r].at == Working(s.reqs[r].at.pool, Replied) && (x in s.reqs && x != r ==> t.reqs[x] == s.reqs[x])
    ensures Hist(t, x)
  {
    Counts(s.log, e, x);
  }

  /** The worker's reply, sent or suppressed. */
  lemma SettleHist(s: State, t: State, r: ReqId, e: Event)
    requires HistInv(s) && r in s.reqs && !IsFlush(s, r) && s.reqs[r].at.Working? && s.reqs[r].at.stage.Released?
    requires e == Replies(r) || e == Suppressed(r)
    requires r in s.origin && s.origin[r].conn !in s.oldConns
    requires t.log == s.log + [e] && t.reqs.Keys == s.reqs.Keys && t.origin == s.origin && t.oldConns == s.oldConns
    requires t.reqs[r].at == Working(s.reqs[r].at.pool, Replied)
    requires forall x :: x in s.reqs && x != r ==> t.reqs[x] == s.reqs[x]
    ensures HistInv(t)
  {
    OrderGrows(s, t, e);
    MovedHist(s, t, r, e);
    forall x ensures Hist(t, x) {
      assert Hist(s, x);
      SettleCounts(s, t, r, e, x);
    }
  }

  lemma RespondHist(s: State, r: ReqId)
    requires Inv(s) && HistInv(s) && r in s.reqs && s.reqs[r].at.Working? && s.reqs[r].at.stage.Released?
    ensures HistInv(DoRespond(s, r))
  {
    assert ReqOk(s, r) && ConnOk(s, s.reqs[r].conn);
    SettleHist(s, DoRespond(s, r), r, if s.reqs[r].state.Normal? then Replies(r) else Suppressed(r));
  }

  /** Freeing an ordinary request that is settled. */
  lemma FreeHist(s: State, t: State, r: ReqId)
    requires HistInv(s) && r in s.reqs && !IsFlush(s, r) && (s.reqs[r].at == Finishing(true) || s.reqs[r].at.Loose?) && r in s.origin
    requires t.log == s.log + [Freed(r)] && t.reqs == s.reqs - {r} && t.origin == s.origin && t.oldConns == s.oldConns
    ensures HistInv(t)
  {
    var e := Freed(r);
    OrderGrows(s, t, e);
    MovedHist(s, t, r, e);
    forall x ensures Hist(t, x) {
      Counts(s.log, e, x);
      assert Hist(s, x);
    }
  }

  lemma DropCounts(s: State, t: State, r: ReqId, x: ReqId)
    requires Hist(s, x) && r in s.reqs && !IsFlush(s, r) && s.reqs[r].at.Queued? && r in s.origin
    requires t.log == s.log + [Dropped(r)] && t.reqs == s.reqs[r := s.reqs[r].(at := Loose)] && t.origin == s.origin
    ensures Hist(t, x) && (x == r ==> N(s.log, Dropped(r)) == 0 && N(t.log, Dropped(r)) == 1)
  {
    Counts(s.log, Dropped(r), x);
  }

  /** Taking a request from its queue. */
  lemma DropHist(s: State, t: State, r: ReqId)
    requires HistInv(s) && r in s.reqs && !IsFlush(s, r) && s.reqs[r].at.Queued? && r in s.origin
    requires t.log == s.log + [Dropped(r)] && t.reqs == s.reqs[r := s.reqs[r].(at := Loose)]
    requires t.origin == s.origin && t.oldConns == s.oldConns
    ensures HistInv(t) && N(t.log, Dropped(r)) == 1
  {
    var e := Dropped(r);
    assert Hist(s, r);
    DropCounts(s, t, r, r);
    OrderGrows(s, t, e);
    MovedHist(s, t, r, e);
    forall x ensures Hist(t, x) {
      assert Hist(s, x);
      DropCounts(s, t, r, x);
    }
  }

  lemma DequeueHist(s: State, p: PoolId, r: ReqId)
    requires Inv(s) && HistInv(s) && p in s.pools && r in s.pools[p].queue
    ensures r in s.reqs && HistInv(Dequeue(s, p, r)) && N(Dequeue(s, p, r).log, Dropped(r)) == 1
  {
    assert At(s, r);
    assert ReqOk(s, r);
    DequeueKeeps(s, p, r);
    var s1 := Log(RemoveQueued(s, p, r), Dropped(r));
    DropHist(s, s1, r);
    FreeHist(s1, Dequeue(s, p, r), r);
    NAppend(s1.log, Freed(r));
  }

  lemma AttachLink(s: State, t: State, f: ReqId, q: ReqId, f': ReqId, q': ReqId)
    requires Link(s, f', q') && Hist(s, f) && f in s.reqs && IsFlush(s, f) && s.reqs[f].at.Held?
    requires q in s.reqs && q in s.origin && !IsFlush(s, q)
    requires s.origin[q].conn == s.origin[f].conn && s.origin[q].tag == s.origin[f].kind.oldtag
    requires t.log == s.log + [Late(f, q)] && t.reqs.Keys == s.reqs.Keys && t.origin == s.origin
    requires t.reqs[f].at == Attached(q) && forall x :: x in s.reqs && x != f ==> t.reqs[x].at == s.reqs[x].at
    ensures Link(t, f', q')
  {
    NAppend(s.log, Late(f, q));
    assert Rflush(f) !in s.log;
    if Late(f', q') in s.log {
      NeverAfterGrows(s.log, Late(f, q), Rflush(f'), Replies(q'));
    } else if f' == f && q' == q {
      NeverSent(s.log, Late(f, q), Rflush(f), Replies(q));
    }
  }

  lemma NeverSent(log: seq<Event>, e: Event, a: Event, b: Event)
    requires a !in log && e != a
    ensures NeverAfter(log + [e], a, b)
  {
  }

  lemma AttachHist(s: State, t: State, f: ReqId, q: ReqId)
    requires HistInv(s) && f in s.reqs && IsFlush(s, f) && s.reqs[f].at.Held?
    requires q in s.reqs && q in s.origin && !IsFlush(s, q)
    requires s.origin[q].conn == s.origin[f].conn && s.origin[q].tag == s.origin[f].kind.oldtag
    requires t.log == s.log + [Late(f, q)] && t.reqs.Keys == s.reqs.Keys && t.origin == s.origin && t.oldConns == s.oldConns
    requires t.reqs[f].at == Attached(q) && forall x :: x in s.reqs && x != f ==> t.reqs[x].at == s.reqs[x].at
    ensures HistInv(t)
  {
    var e := Late(f, q);
    OrderGrows(s, t, e);
    forall f', q' ensures Link(t, f', q') {
      assert Link(s, f', q') && Hist(s, f);
      AttachLink(s, t, f, q, f', q');
    }
    forall x ensures Hist(t, x) {
      Counts(s.log, e, x);
      assert Hist(s, x);
    }
  }

  lemma AnswerCounts(s: State, t: State, f: ReqId, x: ReqId)
    requires Hist(s, x) && f in s.reqs && IsFlush(s, f) && s.reqs[f].at.Loose?
    requires t.log == s.log + [Rflush(f)] + [Freed(f)] && t.reqs == s.reqs - {f} && t.origin == s.origin
    ensures Hist(t, x)
  {
    Counts(s.log, Rflush(f), x);
    Counts(s.log + [Rflush(f)], Freed(f), x);
  }

  lemma AnswerLink(s: State, t: State, f: ReqId, g: ReqId, q: ReqId)
    requires Link(s, g, q) && Hist(s, f) && Hist(s, q) && f in s.reqs && IsFlush(s, f) && s.reqs[f].at.Loose?
    requires Late(f, q) in s.log && q in s.reqs ==> s.reqs[q].at == Finishing(true)
    requires t.log == s.log + [Rflush(f)] + [Freed(f)] && t.reqs == s.reqs - {f} && t.origin == s.origin
    ensures Link(t, g, q)
  {
    var mid := s.log + [Rflush(f)];
    NAppend(s.log, Rflush(f));
    NAppend(mid, Freed(f));
    if Late(g, q) in s.log {
      NeverAfterGrows(s.log, Rflush(f), Rflush(g), Replies(q));
      NeverAfterGrows(mid, Freed(f), Rflush(g), Replies(q));
    }
  }

  /** A flush in its thread's hands is answered and freed. */
  lemma AnswerHist(s: State, t: State, f: ReqId)
    requires HistInv(s) && f in s.reqs && IsFlush(s, f) && s.reqs[f].at.Loose?
    requires s.origin[f].conn !in s.oldConns
    requires forall q :: Late(f, q) in s.log && q in s.reqs ==> s.reqs[q].at == Finishing(true)
    requires t.log == s.log + [Rflush(f)] + [Freed(f)] && t.reqs == s.reqs - {f}
    requires t.origin == s.origin && t.oldConns == s.oldConns
    ensures HistInv(t)
  {
    var mid := s.(log := s.log + [Rflush(f)]);
    OrderGrows(s, mid, Rflush(f));
    OrderGrows(mid, t, Freed(f));
    forall x ensures Hist(t, x) {
      assert Hist(s, x);
      AnswerCounts(s, t, f, x);
    }
    forall g, q ensures Link(t, g, q) {
      assert Link(s, g, q) && Hist(s, f) && Hist(s, q);
      AnswerLink(s, t, f, g, q);
    }
  }

  lemma ReplacedNow(log: seq<Event>, f: ReqId, w: ReqId, q: ReqId)
    ensures forall x :: Replaced(log + [Superseded(f, w, q)], x) == (Replaced(log, x) || x == f)
  {
    var e := Superseded(f, w, q);
    NAppend(log, e);
    forall x ensures Replaced(log + [e], x) == (Replaced(log, x) || x == f) {
      if Replaced(log, x) {
        var w', q' :| Superseded(x, w', q') in log;
        assert Superseded(x, w', q') in log + [e];
      }
      if x == f { assert e in log + [e]; }
      if Replaced(log + [e], x) {
        var w', q' :| Superseded(x, w', q') in log + [e];
        assert Superseded(x, w', q') in log || x == f;
      }
    }
  }

  lemma ReplaceOrder(s: State, f: ReqId, w: ReqId, q: ReqId)
    requires OrderInv(s) && Before(s.log, Late(f, q), Late(w, q)) && f != w
    ensures OrderInv(s.(log := s.log + [Superseded(f, w, q)]))
  {
    var e := Superseded(f, w, q);
    var mid := s.(log := s.log + [e]);
    NAppend(s.log, e);
    forall f', w', q' ensures Replacement(mid, f', w', q') {
      assert Replacement(s, f', w', q');
      if Superseded(f', w', q') in mid.log { BeforeGrows(s.log, e, Late(f', q'), Late(w', q')); }
    }
    forall c ensures Silent(mid, c) { assert Silent(s, c); }
  }

  lemma ReplaceCounts(s: State, t: State, f: ReqId, w: ReqId, q: ReqId, x: ReqId)
    requires Hist(s, x) && f in s.reqs && IsFlush(s, f) && s.reqs[f].at.Loose?
    requires t.log == s.log + [Superseded(f, w, q)] + [Freed(f)] && t.reqs == s.reqs - {f} && t.origin == s.origin
    ensures Hist(t, x)
  {
    Counts(s.log, Superseded(f, w, q), x);
    Counts(s.log + [Superseded(f, w, q)], Freed(f), x);
  }

  /** A flush whose place was taken is freed without an answer. */
  lemma ReplaceHist(s: State, t: State, f: ReqId, w: ReqId, q: ReqId)
    requires HistInv(s) && f in s.reqs && IsFlush(s, f) && s.reqs[f].at.Loose?
    requires Before(s.log, Late(f, q), Late(w, q)) && f != w
    requires t.log == s.log + [Superseded(f, w, q)] + [Freed(f)] && t.reqs == s.reqs - {f}
    requires t.origin == s.origin && t.oldConns == s.oldConns
    ensures HistInv(t)
  {
    ReplaceOrder(s, f, w, q);
    OrderGrows(s.(log := s.log + [Superseded(f, w, q)]), t, Freed(f));
    ReplaceLink(s, t, f, w, q);
    forall x ensures Hist(t, x) {
      assert Hist(s, x);
      ReplaceCounts(s, t, f, w, q, x);
    }
  }

  lemma ReplaceLink(s: State, t: State, f: ReqId, w: ReqId, q: ReqId)
    requires HistInv(s) && t.log == s.log + [Superseded(f, w, q)] + [Freed(f)] && t.reqs == s.reqs - {f} && t.origin == s.origin
    ensures forall f', q' {:trigger Link(t, f', q')} :: Link(t, f', q')
  {
    var e := Superseded(f, w, q);
    NAppend(s.log, e);
    NAppend(s.log + [e], Freed(f));
    forall f', q' ensures Link(t, f', q') {
      assert Link(s, f', q');
      if Late(f', q') in s.log {
        NeverAfterGrows(s.log, e, Rflush(f'), Replies(q'));
        NeverAfterGrows(s.log + [e], Freed(f), Rflush(f'), Replies(q'));
      }
    }
  }

  // ---- one lemma per step that the history sees ----

  lemma FlushEarlyHist(s: State, c: ConnId, f: ReqId, p: PoolId, q: ReqId)
    requires Inv(s) && HistInv(s) && c in s.conns && s.conns[c].held == Some(f) && f in s.reqs && s.reqs[f].kind.Flush?
    requires p in s.pools && q in s.pools[p].queue && q in s.reqs
    ensures HistInv(Log(Dequeue(SetReq(s, f, s.reqs[f].(at := Held(true))), p, q), Early(f, q)))
  {
    var s1 := SetReq(s, f, s.reqs[f].(at := Held(true)));
    assert At(s, f) && ReqOk(s, f);
    ReadyKeeps(s, c);
    UnseenKeeps(s, s1);
    DequeueHist(s1, p, q);
    NeutralKeeps(Dequeue(s1, p, q), Early(f, q));
  }

  ghost predicate FlushKnown(s: State, r: ReqId)
    requires r in s.reqs
  {
    s.reqs[r].flushreq.Some? ==>
      var f := s.reqs[r].flushreq.value;
      f in s.reqs && f != r && s.reqs[f].at == Attached(r) && IsFlush(s, f)
  }

  lemma FlushIsKnown(s: State, r: ReqId)
    requires Inv(s) && r in s.reqs
    ensures FlushKnown(s, r)
  {
    assert ReqOk(s, r);
    var f := s.reqs[r].flushreq;
    if f.Some? { assert At(s, f.value) && ReqOk(s, f.value); }
  }

  lemma DetachUnseen(s: State, r: ReqId, at: Loc)
    requires r in s.reqs && r in s.origin && FlushKnown(s, r)
    requires at == s.reqs[r].at || (s.reqs[r].at == Finishing(false) && at == Finishing(true))
    ensures Unseen(s, Detach(s, r, at))
  {
  }

  lemma LatestFlush(log: seq<Event>, f: ReqId, w: ReqId, q: ReqId)
    requires Late(f, q) in log
    ensures Before(log + [Late(w, q)], Late(f, q), Late(w, q))
  {
    var i :| 0 <= i < |log| && log[i] == Late(f, q);
    var l := log + [Late(w, q)];
    assert l[i] == Late(f, q) && l[|log|] == Late(w, q);
  }

  /** What attaching a Tflush to `q` finds. */
  lemma LateFacts(s: State, c: ConnId, f: ReqId, p: PoolId, q: ReqId)
    requires Inv(s) && c in s.conns && s.conns[c].held == Some(f) && f in s.reqs && s.reqs[f].kind.Flush?
    requires p in s.pools && q in s.pools[p].work && q in s.reqs && s.reqs[q].conn == c
    ensures s.reqs[f].at.Held? && s.reqs[f].conn == c && s.reqs[q].at.Working? && s.reqs[q].kind.Ordinary?
    ensures f in s.origin && s.origin[f] == Origin(c, s.reqs[f].tag, s.reqs[f].kind)
    ensures q in s.origin && s.origin[q] == Origin(c, s.reqs[q].tag, Ordinary)
    ensures var prior := s.reqs[q].flushreq;
            prior.Some? ==> prior.value in s.reqs && s.reqs[prior.value].at == Attached(q)
                            && s.reqs[prior.value].kind.Flush? && s.reqs[prior.value].flushreq.None?
                            && prior.value in s.origin && s.origin[prior.value].kind.Flush?
  {
    assert At(s, f) && ReqOk(s, f) && At(s, q);
    assert ReqOk(s, q);
    var prior := s.reqs[q].flushreq;
    if prior.Some? {
      assert At(s, prior.value);
      assert ReqOk(s, prior.value);
    }
  }

  lemma FlushLateHist(s: State, c: ConnId, f: ReqId, p: PoolId, q: ReqId)
    requires Inv(s) && HistInv(s) && c in s.conns && s.conns[c].held == Some(f) && f in s.reqs && s.reqs[f].kind.Flush?
    requires p in s.pools && q in s.pools[p].work && Matches(s, q, c, s.reqs[f].kind.oldtag)
    ensures HistInv(DoFlushLate(s, c, f, q))
  {
    LateFacts(s, c, f, p, q);
    FlushIsKnown(s, q);
    DetachUnseen(s, q, s.reqs[q].at);
    LateHist(s, c, f, q);
  }

  lemma LateHist(s: State, c: ConnId, f: ReqId, q: ReqId)
    requires HistInv(s) && c in s.conns && f in s.reqs && IsFlush(s, f) && s.reqs[f].at.Held?
    requires q in s.reqs && q in s.origin && !IsFlush(s, q) && s.reqs[q].at.Working?
    requires s.origin[q].conn == s.origin[f].conn && s.origin[q].tag == s.origin[f].kind.oldtag
    requires Unseen(s, Detach(s, q, s.reqs[q].at))
    requires var prior := s.reqs[q].flushreq;
             prior.Some? ==> prior.value in s.reqs && s.reqs[prior.value].at == Attached(q)
                             && s.reqs[prior.value].flushreq.None? && IsFlush(s, prior.value)
    ensures HistInv(DoFlushLate(s, c, f, q))
  {
    var prior := s.reqs[q].flushreq;
    var s0 := Detach(s, q, s.reqs[q].at);
    UnseenKeeps(s, s0);
    var s1 := AttachFlush(s0, c, f, q);
    AttachHist(s0, s1, f, q);
    if prior.Some? {
      assert Link(s, prior.value, q);
      LatestFlush(s.log, prior.value, f, q);
      LateReplaces(s, c, f, q, prior.value);
      ReplaceHist(s1, DoFlushLate(s, c, f, q), prior.value, f, q);
    }
  }

  /** The flush that was attached before is freed, and nothing else changes after the new one is attached. */
  lemma LateReplaces(s: State, c: ConnId, f: ReqId, q: ReqId, prior: ReqId)
    requires c in s.conns && f in s.reqs && q in s.reqs && s.reqs[q].flushreq == Some(prior) && prior in s.reqs
    requires s.reqs[prior].flushreq.None? && f != prior && q != prior
    ensures var s1, t := AttachFlush(Detach(s, q, s.reqs[q].at), c, f, q), DoFlushLate(s, c, f, q);
            && prior in s1.reqs && s1.reqs[prior].at.Loose? && s1.log == s.log + [Late(f, q)]
            && t.log == s1.log + [Superseded(prior, f, q)] + [Freed(prior)] && t.reqs == s1.reqs - {prior}
            && t.origin == s1.origin == s.origin && t.oldConns == s1.oldConns
  {
    PriorLoose(s, c, f, q, prior);
    FreedAlone(Log(AttachFlush(Detach(s, q, s.reqs[q].at), c, f, q), Superseded(prior, f, q)), prior);
  }

  lemma PriorLoose(s: State, c: ConnId, f: ReqId, q: ReqId, prior: ReqId)
    requires c in s.conns && f in s.reqs && q in s.reqs && s.reqs[q].flushreq == Some(prior) && prior in s.reqs
    requires s.reqs[prior].flushreq.None? && f != prior && q != prior
    ensures var s1 := AttachFlush(Detach(s, q, s.reqs[q].at), c, f, q);
            && prior in s1.reqs && s1.reqs[prior].at.Loose? && s1.reqs[prior].flushreq.None?
            && s1.log == s.log + [Late(f, q)] && s1.origin == s.origin && s1.oldConns == s.oldConns
  {
  }

  lemma FreedAlone(s: State, r: ReqId)
    requires r in s.reqs && s.reqs[r].flushreq.None?
    ensures var t := Unref(s, r);
            t.log == s.log + [Freed(r)] && t.reqs == s.reqs - {r} && t.origin == s.origin && t.oldConns == s.oldConns
  {
  }

  lemma FlushReqHist(s: State, c: ConnId)
    requires Inv(s) && HistInv(s) && c in s.conns && s.conns[c].held.Some? && s.conns[c].held.value in s.reqs
    requires s.reqs[s.conns[c].held.value].kind.Flush?
    ensures HistInv(DoFlush(s, c))
  {
    var f := s.conns[c].held.value;
    match Search(s, s.order, c, s.reqs[f].kind.oldtag)
    case Nowhere =>
      assert At(s, f) && ReqOk(s, f);
      UnseenKeeps(s, SetReq(s, f, s.reqs[f].(at := Held(true))));
      NeutralKeeps(SetReq(s, f, s.reqs[f].(at := Held(true))), NotFound(f));
    case InQueue(p, q) => FlushEarlyHist(s, c, f, p, q);
    case InWork(p, q) => FlushLateHist(s, c, f, p, q);
  }

  lemma AnswerFlushHist(s: State, c: ConnId)
    requires Inv(s) && HistInv(s) && c in s.conns && s.conns[c].held.Some? && s.conns[c].held.value in s.reqs
    requires s.reqs[s.conns[c].held.value].at == Held(true)
    ensures HistInv(DoAnswer(s, c))
  {
    var f := s.conns[c].held.value;
    assert At(s, f) && ReqOk(s, f) && ConnOk(s, c);
    UnseenKeeps(s, LetGo(s, c));
    forall q ensures Late(f, q) !in s.log { assert Link(s, f, q); }
    AnswerHist(LetGo(s, c), DoAnswer(s, c), f);
  }

  lemma FinishFlushHist(s: State, r: ReqId)
    requires Inv(s) && HistInv(s) && r in s.reqs && s.reqs[r].at == Finishing(false)
    ensures HistInv(DoFinishFlush(s, r))
  {
    assert At(s, r) && ReqOk(s, r) && ConnOk(s, s.reqs[r].conn);
    FlushIsKnown(s, r);
    DetachUnseen(s, r, Finishing(true));
    UnseenKeeps(s, Detach(s, r, Finishing(true)));
    if s.reqs[r].flushreq.Some? {
      var f := s.reqs[r].flushreq.value;
      assert At(s, f) && ReqOk(s, f);
      forall q | Late(f, q) in s.log ensures q == r { assert Link(s, f, q); }
      AnswerHist(Detach(s, r, Finishing(true)), DoFinishFlush(s, r), f);
    }
  }

  lemma {:induction false} DrainQueueHist(s: State, p: PoolId, pending: seq<ReqId>, c: ConnId)
    requires Inv(s) && HistInv(s) && p in s.pools && Distinct(pending)
    requires forall r :: r in pending ==> r in s.pools[p].queue
    ensures HistInv(DrainQueue(s, p, pending, c))
    decreases |pending|
  {
    if pending != [] {
      var r := pending[0];
      assert At(s, r);
      assert pending == [r] + pending[1..];
      if s.reqs[r].conn == c {
        DequeueHist(s, p, r);
        DequeueKeeps(s, p, r);
        DequeueFrame(s, p, r, c);
        assert PoolOk(s, p);
        WithoutMembers(s.pools[p].queue, r);
        DrainQueueHist(Dequeue(s, p, r), p, pending[1..], c);
      } else {
        DrainQueueHist(s, p, pending[1..], c);
      }
    }
  }

  lemma {:induction false} ClosePoolsHist(s: State, ps: seq<PoolId>, c: ConnId)
    requires Inv(s) && HistInv(s) && forall p :: p in ps ==> p in s.pools
    ensures HistInv(ClosePools(s, ps, c))
    decreases |ps|
  {
    if ps != [] {
      var p := ps[0];
      assert PoolOk(s, p);
      DrainQueueHist(s, p, s.pools[p].queue, c);
      ClosePoolKeeps(s, p, {}, c);
      var s1 := DrainQueue(s, p, s.pools[p].queue, c);
      UnseenKeeps(s1, Silence(s1, p, c));
      ClosePoolsHist(Silence(s1, p, c), ps[1..], c);
    }
  }

  lemma CloseConnHist(s: State, c: ConnId)
    requires Inv(s) && HistInv(s) && c in s.conns
    ensures HistInv(DoClose(s, c))
  {
    ClosePoolsHist(s, s.order, c);
    ClosePoolsKeeps(s, s.order, {}, c);
    var s1 := ClosePools(s, s.order, c);
    UnseenKeeps(s1, s1.(conns := s1.conns[c := s1.conns[c].(closing := true)]));
    NeutralKeeps(s1.(conns := s1.conns[c := s1.conns[c].(closing := true)]), Closed(c));
  }

  lemma EnqueueHist(s: State, c: ConnId)
    requires Inv(s) && HistInv(s) && c in s.conns && s.conns[c].held.Some? && s.conns[c].held.value in s.reqs
    ensures HistInv(DoEnqueue(s, c))
  {
    assert At(s, s.conns[c].held.value);
    EnqueueUnseen(s, c);
    UnseenKeeps(s, DoEnqueue(s, c));
  }

  lemma EnqueueUnseen(s: State, c: ConnId)
    requires c in s.conns && s.conns[c].held.Some? && s.conns[c].held.value in s.reqs && s.reqs[s.conns[c].held.value].at.Held?
    ensures Unseen(s, DoEnqueue(s, c))
  {
  }

  lemma TakeHist(s: State, p: PoolId)
    requires Inv(s) && HistInv(s) && p in s.pools && s.pools[p].queue != [] && s.pools[p].queue[0] in s.reqs
    ensures HistInv(DoTake(s, p))
  {
    assert At(s, s.pools[p].queue[0]);
    UnseenKeeps(s, DoTake(s, p));
  }

  lemma DestroyConnHist(s: State, c: ConnId)
    requires Inv(s) && HistInv(s)
    ensures HistInv(Log(Cleanup(s.(conns := s.conns - {c}, oldConns := s.oldConns + {c})), Destroyed(c)))
  {
    var t := Cleanup(s.(conns := s.conns - {c}, oldConns := s.oldConns + {c}));
    UnseenKeeps(s, t);
    NeutralKeeps(t, Destroyed(c));
  }

  lemma FinishFreeHist(s: State, r: ReqId)
    requires Inv(s) && HistInv(s) && Enabled(s, FinishFree(r))
    ensures HistInv(Next(s, FinishFree(r)))
  {
    assert ReqOk(s, r);
    assert At(s, r);
    FinishFreeKeeps(s, r);
    UnrefKeeps(s, r);
    FreeHist(s, Next(s, FinishFree(r)), r);
  }

  /** The steps of which the history sees nothing. */
  ghost predicate OffRecord(a: Action) {
    || a.NewConn? || a.NewFid? || a.SelectPool? || a.CloneFid? || a.DestroyFid?
    || a.Release? || a.Unlink? || a.FreePool? || a.DestroyServer?
  }

  lemma QuietHist(s: State, a: Action)
    requires HistInv(s) && Enabled(s, a) && OffRecord(a)
    ensures HistInv(Next(s, a))
  {
    QuietUnseen(s, a);
    UnseenKeeps(s, Next(s, a));
  }

  lemma QuietUnseen(s: State, a: Action)
    requires Enabled(s, a) && OffRecord(a)
    ensures Unseen(s, Next(s, a))
  {
    match a
    case SelectPool(f, name, newId) => SelectUnseen(s, f, name, newId);
    case Release(r, eintr) => ReleaseUnseen(s, r, eintr);
    case Unlink(r) => UnlinkUnseen(s, r);
    case _ =>
  }

  lemma SelectUnseen(s: State, f: FidId, name: string, newId: PoolId)
    requires Enabled(s, SelectPool(f, name, newId))
    ensures Unseen(s, DoSelectPool(s, f, name, newId))
  {
  }

  lemma ReleaseUnseen(s: State, r: ReqId, eintr: bool)
    requires Enabled(s, Release(r, eintr))
    ensures Unseen(s, DoRelease(s, r, eintr))
  {
  }

  lemma UnlinkUnseen(s: State, r: ReqId)
    requires Enabled(s, Unlink(r))
    ensures Unseen(s, DoUnlink(s, r))
  {
  }

  lemma StepHist(s: State, a: Action)
    requires Inv(s) && HistInv(s) && Enabled(s, a)
    ensures HistInv(Next(s, a))
  {
    if OffRecord(a) {
      QuietHist(s, a);
    } else {
      match a
      case Receive(c, r, tag, kind, fid) =>
        if r in s.reqs { LiveSeen(s, r); }
        ReceiveHist(s, c, r, tag, kind, fid);
      case Enqueue(c) => EnqueueHist(s, c);
      case FlushReq(c) => FlushReqHist(s, c);
      case AnswerFlush(c) => AnswerFlushHist(s, c);
      case Take(p) => TakeHist(s, p);
      case Respond(r) => RespondHist(s, r);
      case FinishFlush(r) => FinishFlushHist(s, r);
      case FinishFree(r) => FinishFreeHist(s, r);
      case CloseConn(c) => CloseConnHist(s, c);
      case DestroyConn(c) => DestroyConnHist(s, c);
    }
  }
}
