/**
  The life of a request in the server: receive, queue, work, reply, unlink, free, and
  what Tflush, connection close and thread-pool cleanup do to it at each of these moments.

  The state is what `srv->lock` and the connection locks protect.  Every action is one
  critical section, or one stretch of code that touches only what its own thread owns.
  Request ids never recur, so that `log` can speak about a request after it is freed.
*/
module Lifecycle {
  import opened Common

  type ReqId = nat
  type ConnId = nat
  type PoolId = nat
  type FidId = nat

  /** The pool that np_srv_create makes; it is the head of the pool list. */
  const DEFAULT: PoolId := 0

  /** How far the worker is with a request on a work list. */
  datatype Stage = Processing | Released | Replied

  /** Which thread or structure is responsible for a request. */
  datatype Loc =
    | Held(ready: bool)                     // the connection's reader; `ready` once np_flush returned 1
    | Queued(pool: PoolId)
    | Working(pool: PoolId, stage: Stage)
    | Finishing(flushed: bool)              // off the work list; np_postprocess_flush done or not
    | Loose                                 // off every list, about to be freed within the same step
    | Attached(to: ReqId)                   // the flushreq of another request

  datatype Kind = Ordinary | Flush(oldtag: nat)
  datatype ReplyState = Normal | NoReply

  datatype Req = Req(conn: ConnId, tag: nat, kind: Kind, state: ReplyState,
                     flushreq: Option<ReqId>, fid: Option<FidId>, at: Loc)
  datatype Pool = Pool(name: string, queue: seq<ReqId>, work: seq<ReqId>, refs: int)
  datatype Conn = Conn(refs: int, closing: bool, held: Option<ReqId>)
  datatype Fid = Fid(tpool: Option<PoolId>)

  /** What happened, in order. */
  datatype Event =
    | Got(req: ReqId)
    | Replies(req: ReqId)                   // an ordinary reply is sent
    | Suppressed(req: ReqId)                // the worker finished, but REQ_NOREPLY
    | Dropped(req: ReqId)                   // taken from its queue, by a Tflush or by connection close
    | Early(flush: ReqId, req: ReqId)       // Tflush found the request queued
    | Late(flush: ReqId, req: ReqId)        // Tflush found the request being worked on
    | NotFound(flush: ReqId)
    | Superseded(flush: ReqId, winner: ReqId, req: ReqId)
    | Rflush(flush: ReqId)                  // an Rflush is sent
    | Freed(req: ReqId)
    | Closed(conn: ConnId)
    | Destroyed(conn: ConnId)

  /** What a request was when it arrived. */
  datatype Origin = Origin(conn: ConnId, tag: nat, kind: Kind)

  datatype State = State(
    up: bool,                       // between np_srv_create and np_srv_destroy
    single: bool,                   // SRV_FLAGS_TPOOL_SINGLE
    order: seq<PoolId>,             // the pool list
    pools: map<PoolId, Pool>,       // pools in the list, and unlinked ones whose threads are being joined
    reqs: map<ReqId, Req>,
    conns: map<ConnId, Conn>,
    fids: map<FidId, Fid>,
    origin: map<ReqId, Origin>,     // every request ever received
    oldConns: set<ConnId>,
    log: seq<Event>)

  /** The state np_srv_create leaves behind: one pool, held by one reference. */
  function Init(single: bool): (s: State)
  {
    State(true, single, [DEFAULT], map[DEFAULT := Pool("default", [], [], 1)],
          map[], map[], map[], map[], {}, [])
  }

  datatype Action =
    | NewConn(c: ConnId)
    | NewFid(f: FidId)
    | SelectPool(f: FidId, name: string, newId: PoolId)
    | CloneFid(f: FidId, g: FidId)
    | DestroyFid(f: FidId)
    | Receive(c: ConnId, r: ReqId, tag: nat, kind: Kind, fid: Option<FidId>)
    | Enqueue(c: ConnId)
    | FlushReq(c: ConnId)
    | AnswerFlush(c: ConnId)
    | Take(p: PoolId)
    | Release(r: ReqId, eintr: bool)
    | Respond(r: ReqId)
    | Unlink(r: ReqId)
    | FinishFlush(r: ReqId)
    | FinishFree(r: ReqId)
    | CloseConn(c: ConnId)
    | DestroyConn(c: ConnId)
    | FreePool(p: PoolId)
    | DestroyServer

  // ---- the steps ----

  function AddRefs(conns: map<ConnId, Conn>, c: ConnId, n: int): map<ConnId, Conn> {
    if c in conns then conns[c := conns[c].(refs := conns[c].refs + n)] else conns
  }

  function Log(s: State, e: Event): State {
    s.(log := s.log + [e])
  }

  /** np_req_unref of a request whose count is one: free it, and its flushreq with it. */
  function Unref(s: State, r: ReqId): State
    requires r in s.reqs
    decreases s.reqs.Keys
  {
    var q := s.reqs[r];
    var s1 := Log(s.(reqs := s.reqs - {r}, conns := AddRefs(s.conns, q.conn, -1)), Freed(r));
    if q.flushreq.Some? && q.flushreq.value in s1.reqs then
      assert s1.reqs.Keys == s.reqs.Keys - {r};
      Unref(s1, q.flushreq.value)
    else s1
  }

  function SetPool(s: State, p: PoolId, pool: Pool): State {
    s.(pools := s.pools[p := pool])
  }

  function SetReq(s: State, r: ReqId, q: Req): State {
    s.(reqs := s.reqs[r := q])
  }

  /** The pool np_tpool_select settles on, when the list already has it. */
  function PoolNamed(s: State, ps: seq<PoolId>, name: string): (r: Option<PoolId>)
    ensures r.Some? ==> r.value in ps && r.value in s.pools && s.pools[r.value].name == name
  {
    if ps == [] then None
    else if ps[0] in s.pools && s.pools[ps[0]].name == name then Some(ps[0])
    else PoolNamed(s, ps[1..], name)
  }

  predicate WantsDefault(s: State, name: string) {
    s.single || name == "" || name[0] != '/'
  }

  function DoSelectPool(s: State, f: FidId, name: string, newId: PoolId): State
    requires f in s.fids && s.order != []
  {
    var known := if WantsDefault(s, name) then Some(s.order[0]) else PoolNamed(s, s.order, name);
    var s1 := if known.Some? then s
              else s.(order := [s.order[0], newId] + s.order[1..],
                      pools := s.pools[newId := Pool(name, [], [], 0)]);
    var p := if known.Some? then known.value else newId;
    AssignPool(s1, f, Some(p))
  }

  /** fid->tpool := p, with the reference that goes with it. */
  function AssignPool(s: State, f: FidId, p: Option<PoolId>): State
    requires f in s.fids
  {
    s.(fids := s.fids[f := Fid(p)], pools := AddPoolRefs(s.pools, p, 1))
  }

  function AddPoolRefs(pools: map<PoolId, Pool>, p: Option<PoolId>, n: int): map<PoolId, Pool> {
    if p.Some? && p.value in pools
    then pools[p.value := pools[p.value].(refs := pools[p.value].refs + n)] else pools
  }

  /** np_req_alloc: the request takes a reference on its connection. */
  function DoReceive(s: State, c: ConnId, r: ReqId, tag: nat, kind: Kind, fid: Option<FidId>): State
    requires c in s.conns
  {
    var conn := s.conns[c];
    Log(s.(reqs := s.reqs[r := Req(c, tag, kind, Normal, None, fid, Held(false))],
           conns := s.conns[c := conn.(refs := conn.refs + 1, held := Some(r))],
           origin := s.origin[r := Origin(c, tag, kind)]),
        Got(r))
  }

  /** np_srv_add_req's choice: the fid's pool, else the default one. */
  function PoolOf(s: State, q: Req): (p: PoolId) {
    if q.fid.Some? && q.fid.value in s.fids && s.fids[q.fid.value].tpool.Some?
    then s.fids[q.fid.value].tpool.value else DEFAULT
  }

  function DoEnqueue(s: State, c: ConnId): State
    requires c in s.conns && s.conns[c].held.Some? && s.conns[c].held.value in s.reqs
  {
    var r := s.conns[c].held.value;
    var p := PoolOf(s, s.reqs[r]);
    var s1 := SetReq(s.(conns := s.conns[c := s.conns[c].(held := None)]), r, s.reqs[r].(at := Queued(p)));
    if p in s.pools then SetPool(s1, p, s.pools[p].(queue := s.pools[p].queue + [r])) else s1
  }

  predicate Matches(s: State, r: ReqId, c: ConnId, tag: nat) {
    r in s.reqs && s.reqs[r].conn == c && s.reqs[r].tag == tag
  }

  /** The first request in `q` that Tflush of `tag` on `c` names. */
  function FirstMatch(s: State, q: seq<ReqId>, c: ConnId, tag: nat): (r: Option<ReqId>)
    ensures r.Some? ==> r.value in q && Matches(s, r.value, c, tag)
    ensures r.None? ==> forall x :: x in q ==> !Matches(s, x, c, tag)
  {
    if q == [] then None
    else if Matches(s, q[0], c, tag) then Some(q[0])
    else FirstMatch(s, q[1..], c, tag)
  }

  datatype Found = Nowhere | InQueue(p: PoolId, r: ReqId) | InWork(p: PoolId, r: ReqId)

  /** np_flush's search: the listed pools in order, each one's queue before its work list. */
  function Search(s: State, ps: seq<PoolId>, c: ConnId, tag: nat): (f: Found)
    ensures f.InQueue? ==> f.p in ps && f.p in s.pools && f.r in s.pools[f.p].queue && Matches(s, f.r, c, tag)
    ensures f.InWork? ==> f.p in ps && f.p in s.pools && f.r in s.pools[f.p].work && Matches(s, f.r, c, tag)
    ensures f.Nowhere? ==> forall p, x :: p in ps && p in s.pools && (x in s.pools[p].queue || x in s.pools[p].work)
                                  ==> !Matches(s, x, c, tag)
  {
    if ps == [] then Nowhere
    else if ps[0] !in s.pools then Search(s, ps[1..], c, tag)
    else
      var q := FirstMatch(s, s.pools[ps[0]].queue, c, tag);
      var w := FirstMatch(s, s.pools[ps[0]].work, c, tag);
      if q.Some? then InQueue(ps[0], q.value)
      else if w.Some? then InWork(ps[0], w.value)
      else Search(s, ps[1..], c, tag)
  }

  /** np_srv_remove_req: take `r` out of the queue of `p`. */
  function RemoveQueued(s: State, p: PoolId, r: ReqId): State
    requires p in s.pools && r in s.reqs
  {
    SetReq(SetPool(s, p, s.pools[p].(queue := Without(s.pools[p].queue, r))),
           r, s.reqs[r].(at := Loose))
  }

  /** Take `r` out of the queue of `p` and free it. */
  function Dequeue(s: State, p: PoolId, r: ReqId): State
    requires p in s.pools && r in s.reqs
  {
    Unref(Log(RemoveQueued(s, p, r), Dropped(r)), r)
  }

  function DoFlush(s: State, c: ConnId): State
    requires c in s.conns && s.conns[c].held.Some? && s.conns[c].held.value in s.reqs
    requires s.reqs[s.conns[c].held.value].kind.Flush?
  {
    var f := s.conns[c].held.value;
    match Search(s, s.order, c, s.reqs[f].kind.oldtag)
    case Nowhere => Log(SetReq(s, f, s.reqs[f].(at := Held(true))), NotFound(f))
    case InQueue(p, r) => Log(Dequeue(SetReq(s, f, s.reqs[f].(at := Held(true))), p, r), Early(f, r))
    case InWork(p, r) => DoFlushLate(s, c, f, r)
  }

  /** The flush takes over `r`; one that was attached before it will never be answered. */
  function DoFlushLate(s: State, c: ConnId, f: ReqId, r: ReqId): State
    requires r in s.reqs
  {
    var prior := s.reqs[r].flushreq;
    var s1 := AttachFlush(Detach(s, r, s.reqs[r].at), c, f, r);
    if prior.Some? && prior.value in s1.reqs
    then Unref(Log(s1, Superseded(prior.value, f, r)), prior.value) else s1
  }

  /** Clear the flushreq of `r`, which is then at `at`; the flush is in the caller's hands. */
  function Detach(s: State, r: ReqId, at: Loc): State
    requires r in s.reqs
  {
    var q := s.reqs[r];
    var s1 := SetReq(s, r, q.(flushreq := None, at := at));
    if q.flushreq.Some? && q.flushreq.value in s1.reqs
    then SetReq(s1, q.flushreq.value, s1.reqs[q.flushreq.value].(at := Loose))
    else s1
  }

  function AttachFlush(s: State, c: ConnId, f: ReqId, r: ReqId): State {
    if f in s.reqs && r in s.reqs && c in s.conns then
      Log(s.(reqs := s.reqs[r := s.reqs[r].(flushreq := Some(f))][f := s.reqs[f].(at := Attached(r))],
             conns := s.conns[c := s.conns[c].(held := None)]),
          Late(f, r))
    else s
  }

  /** np_req_respond: only a request in REQ_NORMAL is sent. */
  function SendFlush(s: State, f: ReqId): State
    requires f in s.reqs
  {
    if s.reqs[f].state.Normal? then Log(s, Rflush(f)) else s
  }

  /** The reader's request becomes the thread's to free. */
  function LetGo(s: State, c: ConnId): State
    requires c in s.conns && s.conns[c].held.Some? && s.conns[c].held.value in s.reqs
  {
    var f := s.conns[c].held.value;
    SetReq(s.(conns := s.conns[c := s.conns[c].(held := None)]), f, s.reqs[f].(at := Loose))
  }

  function DoAnswer(s: State, c: ConnId): State
    requires c in s.conns && s.conns[c].held.Some? && s.conns[c].held.value in s.reqs
  {
    var f := s.conns[c].held.value;
    Unref(SendFlush(LetGo(s, c), f), f)
  }

  function DoTake(s: State, p: PoolId): State
    requires p in s.pools && s.pools[p].queue != [] && s.pools[p].queue[0] in s.reqs
  {
    var pool := s.pools[p];
    var r := pool.queue[0];
    SetReq(SetPool(s, p, pool.(queue := pool.queue[1..], work := [r] + pool.work)),
           r, s.reqs[r].(at := Working(p, Processing)))
  }

  /** The first half of np_postprocess_request: the EINTR mark, then the fid goes. */
  function DoRelease(s: State, r: ReqId, eintr: bool): State
    requires r in s.reqs && s.reqs[r].at.Working?
  {
    var q := s.reqs[r];
    SetReq(s, r, q.(fid := None, state := if eintr then NoReply else q.state, at := q.at.(stage := Released)))
  }

  function DoRespond(s: State, r: ReqId): State
    requires r in s.reqs && s.reqs[r].at.Working?
  {
    var q := s.reqs[r];
    Log(SetReq(s, r, q.(at := q.at.(stage := Replied))),
        if q.state.Normal? then Replies(r) else Suppressed(r))
  }

  function DoUnlink(s: State, r: ReqId): State
    requires r in s.reqs && s.reqs[r].at.Working? && s.reqs[r].at.pool in s.pools
  {
    var p := s.reqs[r].at.pool;
    SetReq(SetPool(s, p, s.pools[p].(work := Without(s.pools[p].work, r))),
           r, s.reqs[r].(at := Finishing(false)))
  }

  /** np_postprocess_flush: answer and free the attached flush. */
  function DoFinishFlush(s: State, r: ReqId): State
    requires r in s.reqs
  {
    var q := s.reqs[r];
    var s1 := Detach(s, r, Finishing(true));
    if q.flushreq.Some? && q.flushreq.value in s1.reqs then
      Unref(SendFlush(s1, q.flushreq.value), q.flushreq.value)
    else s1
  }

  /** np_conn_flush on one queue: every request of `c` leaves it and is freed. */
  function DrainQueue(s: State, p: PoolId, pending: seq<ReqId>, c: ConnId): State
    decreases |pending|
  {
    if pending == [] then s
    else if p in s.pools && pending[0] in s.reqs && s.reqs[pending[0]].conn == c then
      DrainQueue(Dequeue(s, p, pending[0]), p, pending[1..], c)
    else DrainQueue(s, p, pending[1..], c)
  }

  /** np_conn_flush on one work list: requests of `c` must not reply any more. */
  function Silence(s: State, p: PoolId, c: ConnId): State
    requires p in s.pools
  {
    s.(reqs := map r | r in s.reqs ::
         if r in s.pools[p].work && s.reqs[r].conn == c then s.reqs[r].(state := NoReply) else s.reqs[r])
  }

  function ClosePools(s: State, ps: seq<PoolId>, c: ConnId): State
    decreases |ps|
  {
    if ps == [] then s
    else if ps[0] !in s.pools then ClosePools(s, ps[1..], c)
    else
      var s1 := DrainQueue(s, ps[0], s.pools[ps[0]].queue, c);
      ClosePools(if ps[0] in s1.pools then Silence(s1, ps[0], c) else s1, ps[1..], c)
  }

  function DoClose(s: State, c: ConnId): State {
    var s1 := ClosePools(s, s.order, c);
    if c in s1.conns then Log(s1.(conns := s1.conns[c := s1.conns[c].(closing := true)]), Closed(c)) else s1
  }

  /** The pools np_tpool_cleanup keeps in the list. */
  function Kept(s: State, ps: seq<PoolId>): (r: seq<PoolId>)
  {
    if ps == [] then []
    else if ps[0] in s.pools && s.pools[ps[0]].refs == 0 then Kept(s, ps[1..])
    else [ps[0]] + Kept(s, ps[1..])
  }

  function Cleanup(s: State): State {
    s.(order := Kept(s, s.order))
  }

  ghost predicate Enabled(s: State, a: Action) {
    match a
    case NewConn(c) => s.up && c !in s.conns && c !in s.oldConns
    case NewFid(f) => s.up && f !in s.fids
    case SelectPool(f, name, newId) =>
      s.up && f in s.fids && s.fids[f].tpool.None? && s.order != [] && newId !in s.pools
    case CloneFid(f, g) => f in s.fids && g in s.fids && f != g && s.fids[g].tpool.None?
    case DestroyFid(f) => f in s.fids && forall r :: r in s.reqs ==> s.reqs[r].fid != Some(f)
    case Receive(c, r, tag, kind, fid) =>
      && c in s.conns && !s.conns[c].closing && s.conns[c].held.None? && r !in s.origin
      && (fid.Some? ==> fid.value in s.fids) && (kind.Flush? ==> fid.None?)
    case Enqueue(c) =>
      c in s.conns && s.conns[c].held.Some? && s.conns[c].held.value in s.reqs
      && s.reqs[s.conns[c].held.value].kind.Ordinary?
    case FlushReq(c) =>
      c in s.conns && s.conns[c].held.Some? && s.conns[c].held.value in s.reqs
      && s.reqs[s.conns[c].held.value].kind.Flush? && s.reqs[s.conns[c].held.value].at == Held(false)
    case AnswerFlush(c) =>
      c in s.conns && s.conns[c].held.Some? && s.conns[c].held.value in s.reqs
      && s.reqs[s.conns[c].held.value].at == Held(true)
    case Take(p) => p in s.pools && s.pools[p].queue != [] && s.pools[p].queue[0] in s.reqs
    case Release(r, eintr) => r in s.reqs && s.reqs[r].at.Working? && s.reqs[r].at.stage.Processing?
    case Respond(r) => r in s.reqs && s.reqs[r].at.Working? && s.reqs[r].at.stage.Released?
    case Unlink(r) => r in s.reqs && s.reqs[r].at.Working? && s.reqs[r].at.stage.Replied?
                      && s.reqs[r].at.pool in s.pools
    case FinishFlush(r) => r in s.reqs && s.reqs[r].at == Finishing(false)
    case FinishFree(r) => r in s.reqs && s.reqs[r].at == Finishing(true)
    case CloseConn(c) => c in s.conns && !s.conns[c].closing && s.conns[c].held.None?
    case DestroyConn(c) => c in s.conns && s.conns[c].closing && s.conns[c].refs == 0
    case FreePool(p) => p in s.pools && p !in s.order && s.pools[p].work == []
    case DestroyServer => s.up && s.conns == map[] && s.order != [] && DEFAULT in s.pools
  }

  ghost function Next(s: State, a: Action): State
    requires Enabled(s, a)
  {
    match a
    case NewConn(c) => s.(conns := s.conns[c := Conn(0, false, None)])
    case NewFid(f) => s.(fids := s.fids[f := Fid(None)])
    case SelectPool(f, name, newId) => DoSelectPool(s, f, name, newId)
    case CloneFid(f, g) => AssignPool(s, g, s.fids[f].tpool)
    case DestroyFid(f) => s.(fids := s.fids - {f}, pools := AddPoolRefs(s.pools, s.fids[f].tpool, -1))
    case Receive(c, r, tag, kind, fid) => DoReceive(s, c, r, tag, kind, fid)
    case Enqueue(c) => DoEnqueue(s, c)
    case FlushReq(c) => DoFlush(s, c)
    case AnswerFlush(c) => DoAnswer(s, c)
    case Take(p) => DoTake(s, p)
    case Release(r, eintr) => DoRelease(s, r, eintr)
    case Respond(r) => DoRespond(s, r)
    case Unlink(r) => DoUnlink(s, r)
    case FinishFlush(r) => DoFinishFlush(s, r)
    case FinishFree(r) => Unref(s, r)
    case CloseConn(c) => DoClose(s, c)
    case DestroyConn(c) =>
      Log(Cleanup(s.(conns := s.conns - {c}, oldConns := s.oldConns + {c})), Destroyed(c))
    case FreePool(p) => s.(pools := s.pools - {p})
    case DestroyServer =>
      Cleanup(s.(up := false, pools := AddPoolRefs(s.pools, Some(DEFAULT), -1)))
  }

  /** The states a run goes through. */
  ghost predicate Run(ss: seq<State>, acts: seq<Action>) {
    && |ss| == |acts| + 1
    && (exists single :: ss[0] == Init(single))
    && forall i :: 0 <= i < |acts| ==> Enabled(ss[i], acts[i]) && ss[i + 1] == Next(ss[i], acts[i])
  }
}
