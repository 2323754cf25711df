/** The main results about fid references, for every run of the request handlers. */
module FidTheorems {
  import opened Common
  import opened Fids
  import opened FidProtocol
  import opened FidInv
  import opened FidManners

  /** The pointers that requests have to a fid: their own, a second one, one they made. */
  ghost function Pointers(t: Table, id: Id): set<Holder> {
    set h | h in t.held && t.held[h] == id && !h.ByClient?
  }

  ghost function ClientRefs(t: Table, id: Id): nat {
    if ByClient(id) in t.held then 1 else 0
  }

  /** The count of a live fid is the client's reference and the pointers of requests, at least one;
      a pointer always leads to a live fid of the number it was looked up by, and no handler that has
      come to its end has one besides req->fid. */
  lemma RefsCounted(ss: seq<State>, acts: seq<Action>, i: nat, id: Id)
    requires Run(ss, acts) && i < |ss|
    ensures id in ss[i].t.live ==> ss[i].t.live[id].refs == ClientRefs(ss[i].t, id) + |Pointers(ss[i].t, id)| > 0
    ensures forall h :: h in ss[i].t.held && ss[i].t.held[h] == id ==> id in ss[i].t.live
    ensures forall r :: ByReq(r) in ss[i].t.held ==>
              r in ss[i].reqs && ss[i].t.held[ByReq(r)] in ss[i].t.live
              && ss[i].t.live[ss[i].t.held[ByReq(r)]].num == ss[i].reqs[r].num
    ensures forall r :: At(ss[i], r, Done) || At(ss[i], r, Failed) || r !in ss[i].reqs ==>
              ByTemp(r) !in ss[i].t.held && ByNew(r) !in ss[i].t.held
  {
    RunInv(ss, acts, i);
    var t := ss[i].t;
    forall r | At(ss[i], r, Done) || At(ss[i], r, Failed) || r !in ss[i].reqs
      ensures ByTemp(r) !in t.held && ByNew(r) !in t.held
    {
      assert PointerOk(ss[i], ByTemp(r)) && PointerOk(ss[i], ByNew(r));
    }
    assert Counted(t, id) && HolderOk(t, ByClient(id));
    forall h | h in t.held && t.held[h] == id ensures id in t.live && (h.ByClient? ==> h == ByClient(id)) {
      assert HolderOk(t, h);
    }
    assert Holders(t.held, id) == Pointers(t, id) + (if ByClient(id) in t.held then {ByClient(id)} else {});
    forall r | ByReq(r) in t.held
      ensures r in ss[i].reqs && t.held[ByReq(r)] in t.live && t.live[t.held[ByReq(r)]].num == ss[i].reqs[r].num
    {
      assert PointerOk(ss[i], ByReq(r));
    }
  }

  /** Every fid that was made is either live or has been destroyed, once. */
  lemma DestroyedOnce(ss: seq<State>, acts: seq<Action>, i: nat, id: Id)
    requires Run(ss, acts) && i < |ss| && id in ss[i].t.created
    ensures multiset(ss[i].t.log)[id] == if id in ss[i].t.live then 0 else 1
  {
    RunInv(ss, acts, i);
    assert Counted(ss[i].t, id);
    DistinctCount(ss[i].t.log, id);
  }

  lemma {:induction false} DistinctCount(q: seq<Id>, x: Id)
    requires Distinct(q)
    ensures multiset(q)[x] == if x in q then 1 else 0
  {
    if q != [] {
      assert q == [q[0]] + q[1..];
      DistinctCount(q[1..], x);
    }
  }

  /** A number has at most one fid that is not a zombie, and that one is found wherever it is in
      its bucket. */
  lemma OneFidPerNumber(ss: seq<State>, acts: seq<Action>, i: nat, num: nat, id: Id)
    requires Run(ss, acts) && i < |ss|
    ensures Lookup(ss[i].t, num) == Some(id) <==> Matches(ss[i].t, id, num)
    ensures forall k :: Matches(ss[i].t, id, num) && Matches(ss[i].t, k, num) ==> k == id
  {
    RunInv(ss, acts, i);
    LookupFinds(ss[i].t, num, id);
    assert Single(ss[i].t, id);
  }

  // ---- numbers in use ----

  /** What one step of a server that is not loose does to the fid `x`: it is new and no zombie, or it has the
      number it had, and has not become a zombie. */
  ghost predicate Steady(t: Table, u: Table, x: Id) {
    && t.created <= u.created
    && (x in u.live ==>
          if x in t.live then u.live[x].num == t.live[x].num && (u.live[x].zombie ==> t.live[x].zombie)
          else x !in t.created && !u.live[x].zombie)
  }

  ghost predicate NoZombies(t: Table) {
    forall x :: x in t.live ==> !t.live[x].zombie
  }

  lemma CreateSteady(t: Table, num: nat, id: Id, h: Holder, x: Id)
    requires TableOk(t) && id !in t.created && h !in t.held && !h.ByClient?
    ensures Steady(t, CreateFid(t, num, false, id, h), x)
    ensures CanCreate(t, num, false) ==> TableOk(CreateFid(t, num, false, id, h)) && h in CreateFid(t, num, false, id, h).held
  {
    CreateExactly(t, num, false, id, h);
    CreateKeeps(t, num, false, id, h);
    assert Counted(t, id);
    if CanCreate(t, num, false) {
      forall k ensures !Matches(t, k, num) { LookupFinds(t, num, k); }
    }
  }

  lemma RecvSteady(s: State, a: Action, x: Id)
    requires Inv(s) && Possible(s, a) && a.Recv? && !s.loose
    ensures Steady(s.t, Next(s, a).t, x)
  {
    RecvIsNew(s, a.r);
    if Creates(a.kind) {
      CreateSteady(s.t, a.num, a.id, ByReq(a.r), x);
      var t := CreateFid(s.t, a.num, false, a.id, ByReq(a.r));
      if CanCreate(s.t, a.num, false) && !a.mem { ReleaseKeeps(t, ByReq(a.r)); }
    } else {
      FindKeeps(s.t, a.num, ByReq(a.r));
    }
  }

  lemma FinishSteady(s: State, r: ReqId, x: Id)
    requires Inv(s) && Possible(s, Finish(r)) && !Strays(s, r)
    ensures Steady(s.t, DoFinish(s, r).t, x)
  {
    assert ReqOk(s, r);
    var q := s.reqs[r];
    if q.ecode == EINTR && Drops(q.kind) && ByReq(r) in s.t.held {
      assert ByReq(r) !in Pass(s.t, ByReq(r), ByClient(s.t.held[ByReq(r)])).held;
    } else {
      if q.ecode == EINTR && q.kind.Walk? && q.other.Some? { WalkFixUpIdle(s, r); }
      if ByReq(r) in s.t.held { ReleaseKeeps(s.t, ByReq(r)); }
    }
  }

  lemma StepSteady(s: State, a: Action, x: Id)
    requires Inv(s) && Enabled(s, a) && !s.loose && NoZombies(s.t)
    ensures Steady(s.t, Next(s, a).t, x)
  {
    match a
    case Recv(r, kind, num, other, id, mem) => RecvSteady(s, a, x);
    case Drop(r) => if ByReq(r) in s.t.held { ReleaseKeeps(s.t, ByReq(r)); }
    case Start(r) =>
    case TempFind(r) =>
      assert PointerOk(s, ByTemp(r));
      FindKeeps(s.t, s.reqs[r].other.value, ByTemp(r));
    case TempDrop(r, e) => assert ReqOk(s, r); ReleaseKeeps(s.t, ByTemp(r));
    case Grant(r) =>
      assert PendingOk(s, r, s.t.held[ByReq(r)]);
      ShareKeeps(s.t, ByReq(r), ByClient(s.t.held[ByReq(r)]));
    case MakeNew(r, id, e) =>
      assert PointerOk(s, ByNew(r));
      CreateSteady(s.t, NewNum(s.reqs[r]).value, id, ByNew(r), x);
    case Inherit(r) =>
    case KeepNew(r) =>
    case LoseNew(r, e) => ReleaseKeeps(s.t, ByNew(r));
    case ClunkFid(r, e) =>
      assert ReqOk(s, r) && HolderOk(s.t, ByClient(s.t.held[ByReq(r)]));
      ReleaseKeeps(s.t, ByClient(s.t.held[ByReq(r)]));
    case Stop(r, e) =>
    case Finish(r) => FinishSteady(s, r, x);
  }

  /** Without SRV_FLAGS_LOOSEFID no fid is ever a zombie. */
  lemma {:induction false} NeverZombies(ss: seq<State>, acts: seq<Action>, i: nat)
    requires Run(ss, acts) && i < |ss| && !ss[0].loose
    ensures !ss[i].loose && NoZombies(ss[i].t)
  {
    if i > 0 {
      NeverZombies(ss, acts, i - 1);
      RunInv(ss, acts, i - 1);
      forall x | x in ss[i].t.live ensures !ss[i].t.live[x].zombie { StepSteady(ss[i - 1], acts[i - 1], x); }
    }
  }

  lemma RunSteady(ss: seq<State>, acts: seq<Action>, i: nat, x: Id)
    requires Run(ss, acts) && i < |acts| && !ss[0].loose
    ensures Steady(ss[i].t, ss[i + 1].t, x)
  {
    NeverZombies(ss, acts, i);
    RunInv(ss, acts, i);
    StepSteady(ss[i], acts[i], x);
  }

  ghost predicate AllSteady(ss: seq<State>, x: Id) {
    forall i {:trigger ss[i]} :: 0 < i < |ss| ==> Steady(ss[i - 1].t, ss[i].t, x)
  }

  lemma {:induction false} SameNumber(ss: seq<State>, i: nat, j: nat, id: Id)
    requires AllSteady(ss, id) && i <= j < |ss| && id in ss[i].t.created
    ensures id in ss[j].t.created
    ensures id in ss[j].t.live ==> id in ss[i].t.live && ss[j].t.live[id].num == ss[i].t.live[id].num
    decreases j - i
  {
    if i < j {
      SameNumber(ss, i, j - 1, id);
      assert Steady(ss[j - 1].t, ss[j].t, id);
    }
  }

  /** A number that the client was given leads to that one fid, whatever it and others send, until the client's
      reference is gone. */
  lemma NumberIsKept(ss: seq<State>, acts: seq<Action>, i: nat, j: nat, id: Id)
    requires Run(ss, acts) && i <= j < |ss| && !ss[0].loose && ByClient(id) in ss[i].t.held && ByClient(id) in ss[j].t.held
    ensures id in ss[i].t.live && Lookup(ss[j].t, ss[i].t.live[id].num) == Some(id)
  {
    RunInv(ss, acts, i);
    RunInv(ss, acts, j);
    assert HolderOk(ss[i].t, ByClient(id)) && HolderOk(ss[j].t, ByClient(id));
    assert Counted(ss[i].t, id);
    forall k {:trigger ss[k]} | 0 < k < |ss| ensures Steady(ss[k - 1].t, ss[k].t, id) { RunSteady(ss, acts, k - 1, id); }
    SameNumber(ss, i, j, id);
    NeverZombies(ss, acts, j);
    LookupFinds(ss[j].t, ss[i].t.live[id].num, id);
  }

  /** For clients that leave alone the number of a fid that is being made, the fix-up of an
      interrupted walk changes nothing. */
  lemma InterruptedWalk(ss: seq<State>, acts: seq<Action>, i: nat, r: ReqId)
    requires PoliteRun(ss, acts) && i < |acts| && acts[i] == Finish(r) && ss[i].reqs[r].ecode == EINTR
    requires ss[i].reqs[r].kind.Walk? && ss[i].reqs[r].other.Some?
    ensures ss[i].reqs[r].stage.Failed? && FixUp(ss[i].t, r, ss[i].reqs[r]) == ss[i].t
  {
    PoliteInv(ss, acts, i);
    assert ReqOk(ss[i], r);
    WalkFixUpIdle(ss[i], r);
  }

  // ---- what it depends on ----

  /** Copying the flags to a fid that was walked keeps the accounts exactly when it does not bring
      a second fid of a number back to life. */
  lemma InheritExactly(s: State, r: ReqId)
    requires Inv(s) && Possible(s, Inherit(r))
    ensures Inv(Next(s, Inherit(r))) <==> !Revives(s, r)
  {
    if Revives(s, r) {
      var u, id := Next(s, Inherit(r)), s.t.held[ByNew(r)];
      var k := Lookup(s.t, s.t.live[id].num).value;
      LookupFinds(s.t, s.t.live[id].num, k);
      assert k != id && k in u.t.live && u.t.live[k] == s.t.live[k] && !u.t.live[id].zombie;
      assert !Single(u.t, id);
    } else {
      InheritKeeps(s, r);
    }
  }

  /** The end of a request keeps the accounts exactly when no interrupted walk finds a fid to fix up. */
  lemma FinishExactly(s: State, r: ReqId)
    requires Inv(s) && Possible(s, Finish(r)) && s.reqs[r].other != Some(s.reqs[r].num)
    ensures Inv(Next(s, Finish(r))) <==> !Strays(s, r)
  {
    if Strays(s, r) {
      StrayBreaks(s, r);
    } else {
      FinishKeeps(s, r);
    }
  }

  lemma StrayBreaks(s: State, r: ReqId)
    requires Inv(s) && Possible(s, Finish(r)) && s.reqs[r].other != Some(s.reqs[r].num) && Strays(s, r)
    ensures !TableOk(Next(s, Finish(r)).t)
  {
    var n := s.reqs[r].other.value;
    var f, t := Lookup(s.t, n).value, DecrefByNum(s.t, n);
    LookupFinds(s.t, n, f);
    TouchKeeps(s.t, n);
    assert PointerOk(s, ByReq(r)) && Counted(s.t, f);
    var h :| h in Holders(s.t.held, f);
    var u := Next(s, Finish(r)).t;
    assert t.held == s.t.held && (ByReq(r) in t.held ==> t.held[ByReq(r)] != f);
    OtherLetsGo(t, ByReq(r), f);
    assert u == if ByReq(r) in t.held then Release(t, ByReq(r)) else t;
    assert !(Counted(u, f) && HolderOk(u, h));
  }

  /** When one holder lets go of its fid, another fid has the holders and the count it had. */
  lemma OtherLetsGo(t: Table, h: Holder, f: Id)
    requires h in t.held ==> t.held[h] != f
    ensures Holders(Release(t, h).held, f) == Holders(t.held, f)
    ensures f in t.live ==> f in Release(t, h).live && Release(t, h).live[f].refs == t.live[f].refs
    ensures f !in t.live ==> f !in Release(t, h).live
  {
  }

  /** np_fid_decref_bynum keeps the accounts exactly when it finds nothing. */
  lemma DecrefByNumNeedsNothing(t: Table, num: nat)
    requires TableOk(t)
    ensures TableOk(DecrefByNum(t, num)) <==> Lookup(t, num).None?
  {
    TouchKeeps(t, num);
    var f, u := Lookup(t, num), DecrefByNum(t, num);
    if f.Some? {
      assert Counted(t, f.value);
      var h :| h in Holders(t.held, f.value);
      assert !(Counted(u, f.value) && HolderOk(u, h));
    }
  }

  /** A clunk keeps the accounts exactly when the client has a reference to give up, or the
      clunk's own pointer is the last. */
  lemma ClunkNeedsClient(t: Table, r: ReqId, id: Id)
    requires TableOk(t) && id in t.live && ByReq(r) in t.held && t.held[ByReq(r)] == id
    ensures TableOk(DropClient(t, r, id)) <==> ByClient(id) in t.held || Holders(t.held, id) == {ByReq(r)}
  {
    var u := DropClient(t, r, id);
    assert Counted(t, id) && ByReq(r) in Holders(t.held, id);
    if ByClient(id) in t.held {
      assert HolderOk(t, ByClient(id));
      ReleaseKeeps(t, ByClient(id));
    } else if Holders(t.held, id) == {ByReq(r)} {
      ReleaseKeeps(t, ByReq(r));
      assert u == Release(t, ByReq(r));
    } else {
      OnlyOne(Holders(t.held, id), ByReq(r));
      assert !Counted(u, id);
    }
  }

  lemma OnlyOne(s: set<Holder>, h: Holder)
    requires h in s
    ensures |s| == 1 <==> s == {h}
  {
    if |s| == 1 {
      assert |s - {h}| == 0;
    }
  }

  /** Two clunks of one fid while a third request uses it: the third is left with a pointer to
      a fid that is gone. */
  lemma SecondClunkFrees()
    ensures var t := Table(map[7 := Fid(5, 4, false)], Empty().buckets[5 := [7]],
                           map[ByClient(7) := 7, ByReq(1) := 7, ByReq(2) := 7, ByReq(3) := 7], {7}, []);
            var u := Release(DropClient(t, 1, 7), ByReq(1));
            && TableOk(t) && TableOk(u) && 7 in u.live
            && (var v := Release(DropClient(u, 2, 7), ByReq(2));
                7 !in v.live && ByReq(3) in v.held && v.held[ByReq(3)] == 7)
  {
    var t := Table(map[7 := Fid(5, 4, false)], Empty().buckets[5 := [7]],
                   map[ByClient(7) := 7, ByReq(1) := 7, ByReq(2) := 7, ByReq(3) := 7], {7}, []);
    assert Holders(t.held, 7) == {ByClient(7), ByReq(1), ByReq(2), ByReq(3)};
    assert TableOk(t);
    ReleaseKeeps(t, ByClient(7));
    assert ByReq(1) in Holders(t.held, 7) && ByReq(1) != ByClient(7);
    var t1 := DropClient(t, 1, 7);
    assert t1 == Release(t, ByClient(7));
    assert ByReq(2) in Holders(t1.held, 7);
    ReleaseKeeps(t1, ByReq(1));
  }

  // ---- the end of a connection ----

  /** np_fidpool_destroy: every fid of every bucket. */
  function DestroyBuckets(t: Table, i: nat): Table
    requires i <= |t.buckets|
    decreases |t.buckets| - i
  {
    if i == |t.buckets| then t
    else
      DestroyBuckets(t.(log := t.log + t.buckets[i], live := map id | id in t.live && id !in t.buckets[i] :: t.live[id],
                        buckets := t.buckets[i := []]), i + 1)
  }

  ghost predicate Sweep(t: Table, i: nat) {
    && |t.buckets| == HTABLE_SIZE && Distinct(t.log)
    && (forall id :: id in t.log <==> id in t.created && id !in t.live)
    && (forall h: nat {:trigger BucketOk(t, h)} :: BucketOk(t, h))
    && (forall id :: id in t.live ==> id in t.created && Hash(t.live[id].num) >= i)
  }

  lemma {:induction false} SweepOn(t: Table, i: nat)
    requires i <= HTABLE_SIZE && Sweep(t, i)
    ensures DestroyBuckets(t, i).live == map[] && Sweep(DestroyBuckets(t, i), HTABLE_SIZE)
    ensures DestroyBuckets(t, i).created == t.created
    decreases HTABLE_SIZE - i
  {
    if i < HTABLE_SIZE {
      var u := t.(log := t.log + t.buckets[i], live := map id | id in t.live && id !in t.buckets[i] :: t.live[id],
                  buckets := t.buckets[i := []]);
      assert BucketOk(t, i);
      forall h: nat ensures BucketOk(u, h) { assert BucketOk(t, h); }
      forall id ensures id in u.log <==> id in u.created && id !in u.live {}
      assert Distinct(u.log) by {
        forall a, b | 0 <= a < b < |u.log| ensures u.log[a] != u.log[b] {
          if a < |t.log| <= b { assert t.log[a] in t.log && t.buckets[i][b - |t.log|] in t.buckets[i]; }
        }
      }
      SweepOn(u, i + 1);
    }
  }

  /** When the connection goes away, each fid that was ever made has been destroyed, once. */
  lemma PoolDestroyed(ss: seq<State>, acts: seq<Action>, i: nat, id: Id)
    requires Run(ss, acts) && i < |ss| && id in ss[i].t.created
    ensures multiset(DestroyBuckets(ss[i].t, 0).log)[id] == 1
  {
    RunInv(ss, acts, i);
    var t := ss[i].t;
    forall x ensures x in t.log <==> x in t.created && x !in t.live { assert Counted(t, x); }
    forall x | x in t.live ensures x in t.created { assert Counted(t, x); }
    SweepOn(t, 0);
    DistinctCount(DestroyBuckets(t, 0).log, id);
  }

  // ---- what each step does to the references ----

  /** A number that leads to a fid. */
  ghost predicate Leads(t: Table, num: nat) {
    exists k :: Matches(t, k, num)
  }

  /** The references after np_fid_find for the pointer `h`. */
  ghost predicate Found(t: Table, num: nat, h: Holder, held: map<Holder, Id>) {
    if Leads(t, num) then h in held && Matches(t, held[h], num) && held == t.held[h := held[h]] else held == t.held
  }

  /** The references after np_fid_create for the pointer `h`. */
  ghost predicate Made(s: State, num: nat, id: Id, h: Holder, held: map<Holder, Id>) {
    held == if s.loose || !Leads(s.t, num) then s.t.held[h := id] else s.t.held
  }

  lemma FindHolds(t: Table, num: nat, h: Holder)
    requires TableOk(t) && h !in t.held && !h.ByClient?
    ensures Found(t, num, h, FindFid(t, num, h).held)
  {
    FindKeeps(t, num, h);
    if Leads(t, num) {
      var k :| Matches(t, k, num);
      LookupFinds(t, num, k);
    }
  }

  lemma MakeHolds(s: State, num: nat, id: Id, h: Holder)
    requires TableOk(s.t) && id !in s.t.created && h !in s.t.held && !h.ByClient?
    ensures Made(s, num, id, h, CreateFid(s.t, num, s.loose, id, h).held)
    ensures CanCreate(s.t, num, s.loose) <==> s.loose || !Leads(s.t, num)
  {
    CreateExactly(s.t, num, s.loose, id, h);
    if Leads(s.t, num) {
      var k :| Matches(s.t, k, num);
      LookupFinds(s.t, num, k);
    }
    if Lookup(s.t, num).Some? { LookupFinds(s.t, num, Lookup(s.t, num).value); }
  }

  /** Which references a step takes and drops: the client is given one by Tauth, Tattach and a walk that succeeds, and loses
      it by its clunk or remove, unless that is interrupted. */
  ghost predicate Holds(s: State, a: Action, held: map<Holder, Id>)
    requires Inv(s) && Enabled(s, a)
  {
    var was := s.t.held;
    match a
    case Recv(r, kind, num, other, id, mem) =>
      if !Creates(kind) then Found(s.t, num, ByReq(r), held)
      else if mem then Made(s, num, id, ByReq(r), held) else held == was
    case Drop(r) => held == was - {ByReq(r)}
    case TempFind(r) => Found(s.t, s.reqs[r].other.value, ByTemp(r), held)
    case TempDrop(r, e) => held == was - {ByTemp(r)}
    case Grant(r) => held == was[ByClient(was[ByReq(r)]) := was[ByReq(r)]]
    case MakeNew(r, id, e) => Made(s, s.reqs[r].other.value, id, ByNew(r), held)
    case KeepNew(r) => held == (was - {ByNew(r)})[ByClient(was[ByNew(r)]) := was[ByNew(r)]]
    case LoseNew(r, e) => held == was - {ByNew(r)}
    case ClunkFid(r, e) => held == was - {ByClient(was[ByReq(r)])}
    case Finish(r) =>
      if s.reqs[r].ecode == EINTR && Drops(s.reqs[r].kind) && ByReq(r) in was
      then held == (was - {ByReq(r)})[ByClient(was[ByReq(r)]) := was[ByReq(r)]]
      else held == was - {ByReq(r)}
    case _ => held == was
  }

  lemma RecvHolds(s: State, a: Action)
    requires Inv(s) && Enabled(s, a) && a.Recv?
    ensures Holds(s, a, Next(s, a).t.held)
  {
    RecvIsNew(s, a.r);
    var h := ByReq(a.r);
    if Creates(a.kind) {
      MakeHolds(s, a.num, a.id, h);
      CreateKeeps(s.t, a.num, s.loose, a.id, h);
      if CanCreate(s.t, a.num, s.loose) && !a.mem {
        ReleaseKeeps(CreateFid(s.t, a.num, s.loose, a.id, h), h);
        assert s.t.held[h := a.id] - {h} == s.t.held;
      }
    } else {
      FindHolds(s.t, a.num, h);
    }
  }

  lemma FinishHolds(s: State, r: ReqId)
    requires Inv(s) && Enabled(s, Finish(r))
    ensures Holds(s, Finish(r), Next(s, Finish(r)).t.held)
  {
    assert ReqOk(s, r);
    var q := s.reqs[r];
    if q.ecode == EINTR && Drops(q.kind) && ByReq(r) in s.t.held {
      assert ByReq(r) !in Pass(s.t, ByReq(r), ByClient(s.t.held[ByReq(r)])).held;
    } else {
      if q.ecode == EINTR && q.kind.Walk? && q.other.Some? { WalkFixUpIdle(s, r); }
      if ByReq(r) in s.t.held { ReleaseKeeps(s.t, ByReq(r)); } else { assert s.t.held - {ByReq(r)} == s.t.held; }
    }
  }

  lemma StepHolds(s: State, a: Action)
    requires Inv(s) && Enabled(s, a)
    ensures Holds(s, a, Next(s, a).t.held)
  {
    match a
    case Recv(r, kind, num, other, id, mem) => RecvHolds(s, a);
    case Drop(r) =>
      if ByReq(r) in s.t.held { ReleaseKeeps(s.t, ByReq(r)); } else { assert s.t.held - {ByReq(r)} == s.t.held; }
    case TempFind(r) =>
      assert PointerOk(s, ByTemp(r));
      FindHolds(s.t, s.reqs[r].other.value, ByTemp(r));
    case TempDrop(r, e) => assert ReqOk(s, r); ReleaseKeeps(s.t, ByTemp(r));
    case Grant(r) =>
      assert PendingOk(s, r, s.t.held[ByReq(r)]);
      ShareKeeps(s.t, ByReq(r), ByClient(s.t.held[ByReq(r)]));
    case MakeNew(r, id, e) =>
      assert PointerOk(s, ByNew(r));
      MakeHolds(s, NewNum(s.reqs[r]).value, id, ByNew(r));
    case LoseNew(r, e) => ReleaseKeeps(s.t, ByNew(r));
    case ClunkFid(r, e) =>
      assert ReqOk(s, r) && HolderOk(s.t, ByClient(s.t.held[ByReq(r)]));
      ReleaseKeeps(s.t, ByClient(s.t.held[ByReq(r)]));
    case Finish(r) => FinishHolds(s, r);
    case Start(r) =>
    case Inherit(r) =>
    case KeepNew(r) =>
    case Stop(r, e) =>
  }
}
