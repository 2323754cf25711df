/**
  The request handlers of fcall.c as far as they take and drop fid references: any number of
  requests, each going through its handler step by step, in any interleaving.  `FidHandlers` has
  the handlers themselves, which perform these steps.
*/
module FidProtocol {
  import opened Common
  import opened Fids

  const EINTR: nat := 4

  datatype Kind =
    | Auth | Attach             // np_fid_create in the receive path
    | Walk | XattrWalk          // may make a fid of their own
    | Clunk | Remove
    | Pair                      // Trename, Tlink, Trenameat: a second fid is looked up
    | Plain

  /** Where a handler is: which references besides req->fid it has in its hands. */
  datatype Stage =
    | Queued | Running
    | Looked                    // a second fid has been found
    | Granted                   // the client has been given a reference
    | Both                      // the two together
    | Made                      // newfid or attrfid has been made
    | Failed                    // and lost again
    | Done

  /** `num` is the fid of the message; `other` its afid, dfid, newfid or attrfid. A Twalk onto
      the same fid has no `other`. `ecode` is what np_rerror() will say. */
  datatype Req = Req(kind: Kind, num: nat, other: Option<nat>, stage: Stage, ecode: nat)

  datatype State = State(
    loose: bool,                  // SRV_FLAGS_LOOSEFID
    t: Table,
    reqs: map<ReqId, Req>,
    seen: set<ReqId>,
    creator: map<Id, ReqId>)

  predicate Creates(k: Kind) { k.Auth? || k.Attach? }
  predicate Makes(k: Kind) { k.Walk? || k.XattrWalk? }
  predicate Drops(k: Kind) { k.Clunk? || k.Remove? }
  predicate LooksUp(k: Kind) { k.Attach? || k.Pair? }

  datatype Action =
    | Recv(r: ReqId, kind: Kind, num: nat, other: Option<nat>, id: Id, mem: bool)
    | Drop(r: ReqId)              // a Tflush or the end of the connection takes it from its queue
    | Start(r: ReqId)
    | TempFind(r: ReqId)
    | TempDrop(r: ReqId, e: nat)
    | Grant(r: ReqId)             // np_fid_incref for the client
    | MakeNew(r: ReqId, id: Id, e: nat)
    | Inherit(r: ReqId)
    | KeepNew(r: ReqId)
    | LoseNew(r: ReqId, e: nat)
    | ClunkFid(r: ReqId, e: nat)
    | Stop(r: ReqId, e: nat)
    | Finish(r: ReqId)

  function SetStage(s: State, r: ReqId, stage: Stage): State {
    if r in s.reqs then s.(reqs := s.reqs[r := s.reqs[r].(stage := stage)]) else s
  }

  function End(s: State, r: ReqId, stage: Stage, e: nat): State {
    if r in s.reqs then s.(reqs := s.reqs[r := s.reqs[r].(stage := stage, ecode := e)]) else s
  }

  /** The receive path: np_preprocess_request.  Without memory for aname the new fid goes again. */
  function DoRecv(s: State, r: ReqId, kind: Kind, num: nat, other: Option<nat>, id: Id, mem: bool): State {
    var made := Creates(kind) && CanCreate(s.t, num, s.loose);
    var t := if Creates(kind) then CreateFid(s.t, num, s.loose, id, ByReq(r)) else FindFid(s.t, num, ByReq(r));
    s.(t := if made && !mem then Release(t, ByReq(r)) else t,
       reqs := s.reqs[r := Req(kind, num, other, Queued, 0)],
       seen := s.seen + {r},
       creator := if made then s.creator[id := r] else s.creator)
  }

  function DoTempFind(s: State, r: ReqId, num: nat): State {
    var t := FindFid(s.t, num, ByTemp(r));
    if ByTemp(r) in t.held then SetStage(s.(t := t), r, Looked) else s.(t := t)
  }

  function DoMakeNew(s: State, r: ReqId, num: nat, id: Id, e: nat): State {
    var can := CanCreate(s.t, num, s.loose);
    var s1 := s.(t := CreateFid(s.t, num, s.loose, id, ByNew(r)),
                 creator := if can then s.creator[id := r] else s.creator);
    if can then SetStage(s1, r, Made) else End(s1, r, Done, e)
  }

  /** np_clunk and np_remove: one reference goes, which ought to be the client's. */
  function DropClient(t: Table, r: ReqId, id: Id): Table
    requires id in t.live
  {
    if ByClient(id) in t.held then Release(t, ByClient(id))
    else
      var u := Decref(t, id);
      if id in u.live then u else u.(held := u.held - {ByReq(r)})
  }

  /** The EINTR fix-up of np_postprocess_request. */
  function FixUp(t: Table, r: ReqId, q: Req): Table {
    if Drops(q.kind) && ByReq(r) in t.held then Pass(t, ByReq(r), ByClient(t.held[ByReq(r)]))
    else if q.kind.Walk? && q.other.Some? then DecrefByNum(t, q.other.value)
    else t
  }

  /** np_postprocess_request up to the reply, and the end of the request. */
  function DoFinish(s: State, r: ReqId): State
    requires r in s.reqs
  {
    var t := if s.reqs[r].ecode == EINTR then FixUp(s.t, r, s.reqs[r]) else s.t;
    s.(t := if ByReq(r) in t.held then Release(t, ByReq(r)) else t, reqs := s.reqs - {r})
  }

  // ---- what a client may send ----

  /** The number a request is about to make a fid of. */
  function NewNum(q: Req): Option<nat> {
    if Makes(q.kind) then q.other else None
  }

  /** A client clunks or removes only a fid it was given, and once. */
  ghost predicate MayDrop(s: State, num: nat) {
    var f := Lookup(s.t, num);
    f.Some? ==>
      && ByClient(f.value) in s.t.held
      && forall r :: r in s.reqs && Drops(s.reqs[r].kind) && ByReq(r) in s.t.held ==> s.t.held[ByReq(r)] != f.value
  }

  // ---- steps ----

  predicate At(s: State, r: ReqId, stage: Stage) {
    r in s.reqs && s.reqs[r].stage == stage
  }

  /** What the step itself needs. */
  predicate Possible(s: State, a: Action) {
    match a
    case Recv(r, kind, num, other, id, mem) => r !in s.seen && id !in s.t.created
    case Drop(r) => At(s, r, Queued)
    case Start(r) => At(s, r, Queued)
    case TempFind(r) => At(s, r, Running) && LooksUp(s.reqs[r].kind) && s.reqs[r].other.Some?
    case TempDrop(r, e) => At(s, r, Looked) || At(s, r, Both)
    case Grant(r) => (At(s, r, Running) || At(s, r, Looked)) && Creates(s.reqs[r].kind) && ByReq(r) in s.t.held
    case MakeNew(r, id, e) =>
      At(s, r, Running) && NewNum(s.reqs[r]).Some? && ByReq(r) in s.t.held && id !in s.t.created && e != EINTR
    case Inherit(r) => At(s, r, Made) && ByReq(r) in s.t.held && ByNew(r) in s.t.held
    case KeepNew(r) => At(s, r, Made) && ByNew(r) in s.t.held
    case LoseNew(r, e) => At(s, r, Made) && ByNew(r) in s.t.held
    case ClunkFid(r, e) =>
      At(s, r, Running) && Drops(s.reqs[r].kind) && ByReq(r) in s.t.held && s.t.held[ByReq(r)] in s.t.live
    case Stop(r, e) =>
      && (At(s, r, Running) || At(s, r, Granted)) && (Drops(s.reqs[r].kind) ==> ByReq(r) !in s.t.held)
      // a walk that is to make a fid and stops before has not been interrupted
      && (s.reqs[r].kind.Walk? && s.reqs[r].other.Some? ==> e != EINTR)
    case Finish(r) => At(s, r, Done) || At(s, r, Failed)
  }

  function Next(s: State, a: Action): State
    requires Possible(s, a)
  {
    match a
    case Recv(r, kind, num, other, id, mem) => DoRecv(s, r, kind, num, other, id, mem)
    case Drop(r) => s.(t := if ByReq(r) in s.t.held then Release(s.t, ByReq(r)) else s.t, reqs := s.reqs - {r})
    case Start(r) => SetStage(s, r, Running)
    case TempFind(r) => DoTempFind(s, r, s.reqs[r].other.value)
    case TempDrop(r, e) => End(s.(t := Release(s.t, ByTemp(r))), r, Done, e)
    case Grant(r) =>
      SetStage(s.(t := Share(s.t, ByReq(r), ByClient(s.t.held[ByReq(r)]))), r, if At(s, r, Running) then Granted else Both)
    case MakeNew(r, id, e) => DoMakeNew(s, r, NewNum(s.reqs[r]).value, id, e)
    case Inherit(r) => s.(t := CopyFlags(s.t, s.t.held[ByReq(r)], s.t.held[ByNew(r)]))
    case KeepNew(r) => End(s.(t := Pass(s.t, ByNew(r), ByClient(s.t.held[ByNew(r)]))), r, Done, 0)
    case LoseNew(r, e) => End(s.(t := Release(s.t, ByNew(r))), r, Failed, e)
    case ClunkFid(r, e) => End(s.(t := DropClient(s.t, r, s.t.held[ByReq(r)])), r, Done, e)
    case Stop(r, e) => End(s, r, Done, e)
    case Finish(r) => DoFinish(s, r)
  }

  /** The number of the fid a walk has made has been used again meanwhile. */
  predicate Buried(s: State, r: ReqId) {
    && ByReq(r) in s.t.held && ByNew(r) in s.t.held
    && s.t.held[ByReq(r)] in s.t.live && s.t.held[ByNew(r)] in s.t.live
    && s.t.live[s.t.held[ByNew(r)]].zombie && !s.t.live[s.t.held[ByReq(r)]].zombie
  }

  /** And the flags the walk copies would bring its fid back to life beside the other one. */
  predicate Revives(s: State, r: ReqId) {
    Buried(s, r) && Lookup(s.t, s.t.live[s.t.held[ByNew(r)]].num).Some?
  }

  /** The fix-up of an interrupted walk finds a fid. */
  predicate Strays(s: State, r: ReqId) {
    && r in s.reqs && s.reqs[r].ecode == EINTR && s.reqs[r].kind.Walk? && s.reqs[r].other.Some?
    && Lookup(s.t, s.reqs[r].other.value).Some?
  }

  /** The two steps that go wrong when a client uses the number of a fid that is being made. */
  predicate Harmless(s: State, a: Action) {
    (a.Inherit? ==> !Revives(s, a.r)) && (a.Finish? ==> !Strays(s, a.r))
  }

  ghost predicate Enabled(s: State, a: Action) {
    Possible(s, a) && Harmless(s, a) && (a.Recv? && Drops(a.kind) ==> MayDrop(s, a.num))
  }

  function Init(loose: bool): State {
    State(loose, Empty(), map[], {}, map[])
  }

  ghost predicate Run(ss: seq<State>, acts: seq<Action>) {
    && |ss| == |acts| + 1
    && (exists loose :: ss[0] == Init(loose))
    && forall i :: 0 <= i < |acts| ==> Enabled(ss[i], acts[i]) && ss[i + 1] == Next(ss[i], acts[i])
  }

  // ---- what every step keeps ----

  /** `r` has made the fid `id`, and the client does not know of it yet. */
  ghost predicate Pending(s: State, r: ReqId, id: Id) {
    r in s.reqs &&
    ((ByNew(r) in s.t.held && s.t.held[ByNew(r)] == id) ||
     (Creates(s.reqs[r].kind) && (s.reqs[r].stage.Queued? || s.reqs[r].stage.Running? || s.reqs[r].stage.Looked?)
      && ByReq(r) in s.t.held && s.t.held[ByReq(r)] == id))
  }

  /** A pointer belongs to an outstanding request, at a stage that has it in hand, and leads to the
      fid of its number. */
  ghost predicate PointerOk(s: State, h: Holder) {
    h in s.t.held ==>
      && s.t.held[h] in s.t.live
      && (h.ByReq? ==> h.r in s.reqs && s.t.live[s.t.held[h]].num == s.reqs[h.r].num)
      && (h.ByTemp? ==> (At(s, h.r, Looked) || At(s, h.r, Both)) && LooksUp(s.reqs[h.r].kind)
                        && s.reqs[h.r].other == Some(s.t.live[s.t.held[h]].num))
      && (h.ByNew? ==> At(s, h.r, Made) && NewNum(s.reqs[h.r]) == Some(s.t.live[s.t.held[h]].num))
  }

  /** A pending fid belongs to the request that made it, and neither the client nor a clunk has it. */
  ghost predicate PendingOk(s: State, r: ReqId, id: Id) {
    Pending(s, r, id) ==>
      && id in s.creator && s.creator[id] == r && ByClient(id) !in s.t.held
      && forall q :: q in s.reqs && Drops(s.reqs[q].kind) && ByReq(q) in s.t.held ==> s.t.held[ByReq(q)] != id
  }

  /** A stage has in hand what it says; an interrupted walk has lost the fid it made. */
  ghost predicate ReqOk(s: State, r: ReqId)
    requires r in s.reqs
  {
    var q := s.reqs[r];
    && r in s.seen
    && (q.stage.Looked? || q.stage.Both? ==> ByTemp(r) in s.t.held)
    && (q.stage.Made? ==> ByNew(r) in s.t.held && ByReq(r) in s.t.held && NewNum(q).Some?)
    && (q.stage.Granted? || q.stage.Both? ==> Creates(q.kind))
    && (q.stage.Failed? ==> NewNum(q).Some?)
    && (!q.stage.Done? && !q.stage.Failed? ==> q.ecode == 0)
    && (q.ecode == EINTR && q.kind.Walk? && q.other.Some? ==> q.stage.Failed?)
    && (Drops(q.kind) && ByReq(r) in s.t.held ==>
          (ByClient(s.t.held[ByReq(r)]) in s.t.held <==> !q.stage.Done?))
  }

  ghost predicate PairOk(s: State, a: ReqId, b: ReqId)
    requires a in s.reqs && b in s.reqs
  {
    a != b && Drops(s.reqs[a].kind) && Drops(s.reqs[b].kind) && ByReq(a) in s.t.held && ByReq(b) in s.t.held ==>
      s.t.held[ByReq(a)] != s.t.held[ByReq(b)]
  }

  ghost predicate Inv(s: State) {
    && TableOk(s.t) && s.creator.Keys == s.t.created
    && (forall h {:trigger PointerOk(s, h)} :: PointerOk(s, h))
    && (forall r, id {:trigger PendingOk(s, r, id)} :: PendingOk(s, r, id))
    && (forall r {:trigger ReqOk(s, r)} :: r in s.reqs ==> ReqOk(s, r))
    && (forall a, b {:trigger PairOk(s, a, b)} :: a in s.reqs && b in s.reqs ==> PairOk(s, a, b))
  }
}
