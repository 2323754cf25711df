/**
  Clients that leave alone the number of a fid that is being made.  For them the two steps that can
  go wrong never do: a walk never revives a fid, and an interrupted walk has nothing to fix up.
*/
module FidManners {
  import opened Common
  import opened Fids
  import opened FidProtocol
  import opened FidInv

  predicate Names(q: Req, n: nat) {
    n == q.num || q.other == Some(n)
  }

  /** Two outstanding requests do not get in each other's way over a number that is being made. */
  predicate Apart(a: Req, b: Req) {
    (NewNum(a).Some? ==> !Names(b, NewNum(a).value)) && (NewNum(b).Some? ==> !Names(a, NewNum(b).value))
  }

  predicate Considerate(s: State, a: Action) {
    a.Recv? ==>
      var q := Req(a.kind, a.num, a.other, Queued, 0);
      && (forall r :: r in s.reqs ==> Apart(s.reqs[r], q))
      && (NewNum(q).Some? ==> NewNum(q).value != q.num)
  }

  /** A run in which nothing is said about the two steps that can go wrong. */
  ghost predicate PoliteRun(ss: seq<State>, acts: seq<Action>) {
    && |ss| == |acts| + 1
    && (exists loose :: ss[0] == Init(loose))
    && forall i :: 0 <= i < |acts| ==>
         && Possible(ss[i], acts[i]) && ss[i + 1] == Next(ss[i], acts[i])
         && (acts[i].Recv? && Drops(acts[i].kind) ==> MayDrop(ss[i], acts[i].num))
         && Considerate(ss[i], acts[i])
  }

  // ---- what such clients keep ----

  /** While a walk holds the fid it made, that is the only one of its number, and it is a zombie
      only if the fid it was walked from is; once it has lost it there is none of that number. */
  ghost predicate Alone(s: State, r: ReqId)
    requires r in s.reqs
  {
    var q := s.reqs[r];
    && (NewNum(q).Some? ==> NewNum(q).value != q.num)
    && (q.stage.Made? && NewNum(q).Some? && ByNew(r) in s.t.held ==>
          !Buried(s, r) && forall id :: Matches(s.t, id, NewNum(q).value) ==> id == s.t.held[ByNew(r)])
    && (q.stage.Failed? && NewNum(q).Some? ==> forall id :: !Matches(s.t, id, NewNum(q).value))
  }

  ghost predicate ApartOk(s: State, a: ReqId, b: ReqId)
    requires a in s.reqs && b in s.reqs
  {
    a != b ==> Apart(s.reqs[a], s.reqs[b])
  }

  ghost predicate Shy(s: State) {
    && (forall r {:trigger Alone(s, r)} :: r in s.reqs ==> Alone(s, r))
    && (forall a, b {:trigger ApartOk(s, a, b)} :: a in s.reqs && b in s.reqs ==> ApartOk(s, a, b))
  }

  /** Then every step is harmless. */
  lemma ShyIsHarmless(s: State, a: Action)
    requires Inv(s) && Shy(s) && Possible(s, a)
    ensures Harmless(s, a)
  {
    if a.Inherit? {
      assert ReqOk(s, a.r) && Alone(s, a.r);
    } else if a.Finish? {
      assert ReqOk(s, a.r) && Alone(s, a.r);
      NoneToFind(s, a.r);
    }
  }

  lemma NoneToFind(s: State, r: ReqId)
    requires Inv(s) && r in s.reqs && ReqOk(s, r) && Alone(s, r)
    ensures !Strays(s, r)
  {
    var q := s.reqs[r];
    if q.ecode == EINTR && q.kind.Walk? && q.other.Some? && Lookup(s.t, q.other.value).Some? {
      LookupFinds(s.t, q.other.value, Lookup(s.t, q.other.value).value);
    }
  }

  /** Requests keep to themselves as long as none is new. */
  lemma ApartKept(s: State, u: State)
    requires Shy(s) && u.reqs.Keys <= s.reqs.Keys
    requires forall r :: r in u.reqs ==>
      u.reqs[r].kind == s.reqs[r].kind && u.reqs[r].num == s.reqs[r].num && u.reqs[r].other == s.reqs[r].other
    ensures forall a, b {:trigger ApartOk(u, a, b)} :: a in u.reqs && b in u.reqs ==> ApartOk(u, a, b)
  {
    forall a, b | a in u.reqs && b in u.reqs ensures ApartOk(u, a, b) { assert ApartOk(s, a, b); }
  }

  /** A step that makes no fid and changes no flag leaves `x` alone, if `x` keeps its stage. */
  lemma AloneKept(s: State, u: State, x: ReqId)
    requires Inv(s) && Inv(u) && Shy(s) && x in s.reqs && x in u.reqs && Frame(s.t, u.t)
    requires u.reqs[x].(ecode := 0) == s.reqs[x].(ecode := 0) || !(u.reqs[x].stage.Made? || u.reqs[x].stage.Failed?)
    requires u.reqs[x].kind == s.reqs[x].kind && u.reqs[x].num == s.reqs[x].num && u.reqs[x].other == s.reqs[x].other
    requires ByNew(x) in u.t.held ==> ByNew(x) in s.t.held && u.t.held[ByNew(x)] == s.t.held[ByNew(x)]
    requires ByReq(x) in u.t.held ==> ByReq(x) in s.t.held && u.t.held[ByReq(x)] == s.t.held[ByReq(x)]
    ensures Alone(u, x)
  {
    assert Alone(s, x) && PointerOk(u, ByNew(x)) && PointerOk(u, ByReq(x)) && PointerOk(s, ByNew(x)) && PointerOk(s, ByReq(x));
  }

  /** A fid is made of a number that `x` does not make. */
  lemma AloneBesides(s: State, u: State, x: ReqId, num: nat, id: Id, h: Holder)
    requires Inv(s) && Shy(s) && x in s.reqs && x in u.reqs && u.reqs[x] == s.reqs[x] && h != ByNew(x) && h != ByReq(x)
    requires id !in s.t.created && h !in s.t.held && !h.ByClient? && u.t == CreateFid(s.t, num, s.loose, id, h)
    requires NewNum(s.reqs[x]) != Some(num)
    ensures Alone(u, x)
  {
    CreateKeeps(s.t, num, s.loose, id, h);
    assert Alone(s, x) && PointerOk(s, ByNew(x)) && PointerOk(s, ByReq(x)) && ReqOk(s, x);
    NewUnheld(s.t, id, ByNew(x));
    NewUnheld(s.t, id, ByReq(x));
  }

  lemma RecvShy(s: State, r: ReqId, kind: Kind, num: nat, other: Option<nat>, id: Id, mem: bool)
    requires Inv(s) && Shy(s) && Enabled(s, Recv(r, kind, num, other, id, mem))
    requires Considerate(s, Recv(r, kind, num, other, id, mem))
    ensures Shy(DoRecv(s, r, kind, num, other, id, mem))
  {
    var q, u := Req(kind, num, other, Queued, 0), DoRecv(s, r, kind, num, other, id, mem);
    RecvKeeps(s, r, kind, num, other, id, mem);
    RecvIsNew(s, r);
    forall x | x in u.reqs ensures Alone(u, x) {
      if x != r {
        assert Apart(s.reqs[x], q);
        if Creates(kind) {
          RecvCreateKeeps(s, r, kind, num, other, id);
          var v := DoRecv(s, r, kind, num, other, id, true);
          AloneBesides(s, v, x, num, id, ByReq(r));
          GivenUpAlone(v, u, r, x);
        } else {
          FindKeeps(s.t, num, ByReq(r));
          AloneKept(s, u, x);
        }
      }
    }
    forall a, b | a in u.reqs && b in u.reqs ensures ApartOk(u, a, b) {
      if a != r && b != r { assert ApartOk(s, a, b); }
    }
  }

  lemma GivenUpAlone(v: State, u: State, r: ReqId, x: ReqId)
    requires Inv(v) && Alone0(v, x) && x != r && u.reqs == v.reqs
    requires u.t == v.t || (ByReq(r) in v.t.held && u.t == Release(v.t, ByReq(r)))
    ensures x in u.reqs && Alone(u, x)
  {
    if u.t != v.t { ReleaseKeeps(v.t, ByReq(r)); }
    assert PointerOk(v, ByNew(x)) && PointerOk(v, ByReq(x));
  }

  ghost predicate Alone0(s: State, r: ReqId) {
    r in s.reqs && Alone(s, r)
  }

  lemma MakeNewShy(s: State, r: ReqId, n: nat, id: Id, e: nat)
    requires Inv(s) && Shy(s) && At(s, r, Running) && NewNum(s.reqs[r]) == Some(n) && ByReq(r) in s.t.held && id !in s.t.created
    ensures Shy(DoMakeNew(s, r, n, id, e))
  {
    var u := DoMakeNew(s, r, n, id, e);
    assert PointerOk(s, ByNew(r));
    forall x | x in u.reqs ensures Alone(u, x) {
      if x == r {
        MadeAlone(s, r, n, id, e);
      } else {
        assert ApartOk(s, x, r);
        AloneBesides(s, u, x, n, id, ByNew(r));
      }
    }
    ApartKept(s, u);
  }

  lemma MadeAlone(s: State, r: ReqId, n: nat, id: Id, e: nat)
    requires Inv(s) && Shy(s) && At(s, r, Running) && NewNum(s.reqs[r]) == Some(n) && ByReq(r) in s.t.held && id !in s.t.created
    ensures Alone(DoMakeNew(s, r, n, id, e), r)
  {
    var u := DoMakeNew(s, r, n, id, e);
    assert PointerOk(s, ByNew(r)) && PointerOk(s, ByReq(r)) && Alone(s, r);
    NewUnheld(s.t, id, ByReq(r));
    CreateKeeps(s.t, n, s.loose, id, ByNew(r));
    if CanCreate(s.t, n, s.loose) {
      forall x | Matches(u.t, x, n) ensures x == id { assert Single(u.t, id); }
    }
  }

  lemma InheritShy(s: State, r: ReqId)
    requires Inv(s) && Shy(s) && Possible(s, Inherit(r))
    ensures Shy(Next(s, Inherit(r)))
  {
    var u := Next(s, Inherit(r));
    var from, to := s.t.held[ByReq(r)], s.t.held[ByNew(r)];
    assert Alone(s, r) && ReqOk(s, r) && PointerOk(s, ByReq(r)) && PointerOk(s, ByNew(r));
    forall x | x in u.reqs ensures Alone(u, x) {
      assert Alone(s, x) && PointerOk(s, ByReq(x)) && PointerOk(s, ByNew(x)) && ApartOk(s, x, r);
      assert forall id, n :: Matches(u.t, id, n) ==> Matches(s.t, id, n);
    }
    ApartKept(s, u);
  }

  /** Nobody else holds the fid a walk has just made. */
  lemma MadeHeldOnce(s: State, r: ReqId, h: Holder)
    requires Inv(s) && Shy(s) && At(s, r, Made) && ByNew(r) in s.t.held && h in s.t.held && s.t.held[h] == s.t.held[ByNew(r)]
    ensures h == ByNew(r)
  {
    assert PointerOk(s, ByNew(r)) && PointerOk(s, h) && HolderOk(s.t, h) && PendingOk(s, r, s.t.held[h]) && Alone(s, r);
    if !h.ByClient? {
      assert ApartOk(s, r, h.r);
    }
  }

  /** A failed walk destroys the fid it made, and no fid of that number is left to be found. */
  lemma LoseNewClears(s: State, r: ReqId)
    requires Inv(s) && Shy(s) && At(s, r, Made) && ByNew(r) in s.t.held && NewNum(s.reqs[r]).Some?
    ensures forall id :: !Matches(Release(s.t, ByNew(r)), id, NewNum(s.reqs[r]).value)
  {
    var g := s.t.held[ByNew(r)];
    ReleaseKeeps(s.t, ByNew(r));
    assert Holders(s.t.held, g) == {ByNew(r)} by {
      forall h | h in Holders(s.t.held, g) ensures h == ByNew(r) { MadeHeldOnce(s, r, h); }
      assert ByNew(r) in Holders(s.t.held, g);
    }
    assert Alone(s, r);
  }

  lemma LoseNewShy(s: State, r: ReqId, e: nat)
    requires Inv(s) && Shy(s) && Possible(s, LoseNew(r, e))
    ensures Shy(Next(s, LoseNew(r, e)))
  {
    var u := Next(s, LoseNew(r, e));
    LoseNewKeeps(s, r, e);
    ReleaseKeeps(s.t, ByNew(r));
    assert ReqOk(s, r) && Alone(s, r);
    LoseNewClears(s, r);
    forall x | x in u.reqs && x != r ensures Alone(u, x) { AloneKept(s, u, x); }
    ApartKept(s, u);
  }

  /** The other steps make no fid, change no flag, and take no request to a new stage that matters. */
  lemma QuietShy(s: State, a: Action)
    requires Inv(s) && Shy(s) && Enabled(s, a) && !a.Recv? && !a.MakeNew? && !a.Inherit? && !a.LoseNew?
    ensures Shy(Next(s, a))
  {
    var u := Next(s, a);
    StepInv(s, a);
    QuietFrame(s, a);
    QuietReqs(s, a);
    forall x | x in u.reqs ensures Alone(u, x) { AloneKept(s, u, x); }
    ApartKept(s, u);
  }

  /** Such a step changes no request but its own, and of that only the stage and the error. */
  lemma QuietReqs(s: State, a: Action)
    requires Inv(s) && Enabled(s, a) && !a.Recv? && !a.MakeNew? && !a.Inherit? && !a.LoseNew?
    ensures Next(s, a).reqs.Keys <= s.reqs.Keys
    ensures forall x :: x in Next(s, a).reqs ==>
              var p, q := s.reqs[x], Next(s, a).reqs[x];
              && q.kind == p.kind && q.num == p.num && q.other == p.other
              && (q.(ecode := 0) == p.(ecode := 0) || !(q.stage.Made? || q.stage.Failed?))
  {
    assert a.Finish? ==> a.r in s.reqs;
  }

  lemma QuietFrame(s: State, a: Action)
    requires Inv(s) && Enabled(s, a) && !a.Recv? && !a.MakeNew? && !a.Inherit? && !a.LoseNew?
    ensures Frame(s.t, Next(s, a).t)
    ensures forall x :: ByNew(x) in Next(s, a).t.held ==>
              ByNew(x) in s.t.held && Next(s, a).t.held[ByNew(x)] == s.t.held[ByNew(x)]
    ensures forall x :: ByReq(x) in Next(s, a).t.held ==>
              ByReq(x) in s.t.held && Next(s, a).t.held[ByReq(x)] == s.t.held[ByReq(x)]
  {
    match a
    case Drop(r) => if ByReq(r) in s.t.held { ReleaseKeeps(s.t, ByReq(r)); }
    case Start(r) =>
    case TempFind(r) =>
      assert PointerOk(s, ByTemp(r));
      FindKeeps(s.t, s.reqs[r].other.value, ByTemp(r));
    case TempDrop(r, e) => assert ReqOk(s, r); ReleaseKeeps(s.t, ByTemp(r));
    case Grant(r) =>
      assert PendingOk(s, r, s.t.held[ByReq(r)]);
      ShareKeeps(s.t, ByReq(r), ByClient(s.t.held[ByReq(r)]));
    case KeepNew(r) =>
      assert PendingOk(s, r, s.t.held[ByNew(r)]);
      PassKeeps(s.t, ByNew(r), ByClient(s.t.held[ByNew(r)]));
    case ClunkFid(r, e) =>
      assert ReqOk(s, r) && HolderOk(s.t, ByClient(s.t.held[ByReq(r)]));
      ReleaseKeeps(s.t, ByClient(s.t.held[ByReq(r)]));
    case Stop(r, e) =>
    case Finish(r) => FinishFrame(s, r);
  }

  lemma FinishFrame(s: State, r: ReqId)
    requires Inv(s) && Possible(s, Finish(r)) && !Strays(s, r)
    ensures Frame(s.t, DoFinish(s, r).t)
    ensures forall h :: h in DoFinish(s, r).t.held && !h.ByClient? ==> h in s.t.held && DoFinish(s, r).t.held[h] == s.t.held[h]
  {
    assert ReqOk(s, r);
    var q := s.reqs[r];
    if q.ecode == EINTR && Drops(q.kind) && ByReq(r) in s.t.held {
      PassKeeps(s.t, ByReq(r), ByClient(s.t.held[ByReq(r)]));
    } else {
      if q.ecode == EINTR && q.kind.Walk? && q.other.Some? { WalkFixUpIdle(s, r); }
      if ByReq(r) in s.t.held { ReleaseKeeps(s.t, ByReq(r)); }
    }
  }

  lemma StepShy(s: State, a: Action)
    requires Inv(s) && Shy(s) && Enabled(s, a) && Considerate(s, a)
    ensures Shy(Next(s, a))
  {
    match a
    case Recv(r, kind, num, other, id, mem) => RecvShy(s, r, kind, num, other, id, mem);
    case MakeNew(r, id, e) => MakeNewShy(s, r, NewNum(s.reqs[r]).value, id, e);
    case Inherit(r) => InheritShy(s, r);
    case LoseNew(r, e) => LoseNewShy(s, r, e);
    case _ => QuietShy(s, a);
  }

  lemma {:induction false} PoliteInv(ss: seq<State>, acts: seq<Action>, i: nat)
    requires PoliteRun(ss, acts) && i < |ss|
    ensures Inv(ss[i]) && Shy(ss[i])
    ensures i < |acts| ==> Enabled(ss[i], acts[i])
  {
    if i == 0 {
      var loose :| ss[0] == Init(loose);
      InitInv(loose);
    } else {
      PoliteInv(ss, acts, i - 1);
      StepInv(ss[i - 1], acts[i - 1]);
      StepShy(ss[i - 1], acts[i - 1]);
    }
    if i < |acts| { ShyIsHarmless(ss[i], acts[i]); }
  }

  /** Whatever such clients do, the two steps never go wrong: all that holds of runs holds of theirs. */
  lemma PoliteRuns(ss: seq<State>, acts: seq<Action>)
    requires PoliteRun(ss, acts)
    ensures Run(ss, acts)
  {
    forall i | 0 <= i < |acts| ensures Enabled(ss[i], acts[i]) { PoliteInv(ss, acts, i); }
  }
}
