/**
  The two request lists of a thread pool as the C code keeps them: a queue with a first and a
  last pointer and a work list with a head pointer, both linked through the same next and prev
  fields of the request.  Each operation is proved to be the update of the pool that the steps
  of `Lifecycle` make.
*/
module ReqLists {
  import opened Common
  import opened DoubleLinks
  import L = Lifecycle
  import Inv = LifecycleInv

  datatype Req = Req(id: L.ReqId, conn: L.ConnId, tag: nat)

  /** A request; the mark is its state. */
  type Npreq = Node<Req, L.ReplyState>

  ghost function Ids(nodes: seq<Npreq>): (ids: seq<L.ReqId>)
    ensures |ids| == |nodes| && forall k :: 0 <= k < |nodes| ==> ids[k] == nodes[k].key.id
  {
    seq(|nodes|, k requires 0 <= k < |nodes| => nodes[k].key.id)
  }

  /** Different nodes carry different requests. */
  ghost predicate Unique(nodes: seq<Npreq>) {
    Separate(Ids(nodes))
  }

  lemma UniqueSeparate(nodes: seq<Npreq>)
    requires Unique(nodes)
    ensures Separate(nodes)
  {
    forall i, j ensures PairApart(nodes, i, j) { assert PairApart(Ids(nodes), i, j); }
  }

  lemma UniqueDistinct(nodes: seq<Npreq>)
    requires Unique(nodes)
    ensures Distinct(Ids(nodes))
  {
    forall i, j | 0 <= i < j < |nodes| ensures Ids(nodes)[i] != Ids(nodes)[j] { assert PairApart(Ids(nodes), i, j); }
  }

  /** Taking out a node is taking out its id. */
  lemma TakeIds(nodes: seq<Npreq>, k: nat, rest: seq<Npreq>)
    requires Unique(nodes) && k < |nodes| && rest == nodes[..k] + nodes[k + 1..]
    ensures Ids(rest) == Without(Ids(nodes), nodes[k].key.id)
    ensures Unique(rest)
  {
    WithoutAt(Ids(nodes), k);
    assert Ids(rest) == Ids(nodes)[..k] + Ids(nodes)[k + 1..];
    forall i, j ensures PairApart(Ids(rest), i, j) {
      assert PairApart(Ids(nodes), i, j) && PairApart(Ids(nodes), i, j + 1) && PairApart(Ids(nodes), i + 1, j + 1);
    }
  }

  lemma TakeMembers(nodes: seq<Npreq>, k: nat, rest: seq<Npreq>)
    requires Separate(nodes) && k < |nodes| && rest == nodes[..k] + nodes[k + 1..]
    ensures rest == Without(nodes, nodes[k]) && nodes[k] !in rest
    ensures (forall n :: n in rest ==> n in nodes) && (forall n :: n in nodes && n != nodes[k] ==> n in rest)
  {
    WithoutAt(nodes, k);
    TakeSeparate(nodes, k);
    OtherMembers(nodes, k, rest);
  }

  lemma OtherMembers(nodes: seq<Npreq>, k: nat, rest: seq<Npreq>)
    requires k < |nodes| && rest == nodes[..k] + nodes[k + 1..]
    ensures (forall n :: n in rest ==> n in nodes) && (forall n :: n in nodes && n != nodes[k] ==> n in rest)
  {
    forall n | n in nodes && n != nodes[k] ensures n in rest {
      var i :| 0 <= i < |nodes| && nodes[i] == n;
      assert n == rest[if i < k then i else i - 1];
    }
  }

  lemma TakeEnds(nodes: seq<Npreq>, k: nat, rest: seq<Npreq>)
    requires Separate(nodes) && k < |nodes| && rest == nodes[..k] + nodes[k + 1..]
    ensures At(rest, 0) == if nodes[k] == nodes[0] then At(nodes, k + 1) else nodes[0]
    ensures At(rest, |rest| - 1) == if nodes[k] == nodes[|nodes| - 1] then At(nodes, k - 1) else nodes[|nodes| - 1]
    ensures k == 0 <==> nodes[k] == nodes[0]
  {
    Differ(nodes, 0, k);
    Differ(nodes, |nodes| - 1, k);
  }

  /** `rest` is the list without `req`; `next` and `prev` are the neighbours of `req`. */
  ghost predicate RestOf(nodes: seq<Npreq>, req: Npreq, next: Node?<Req, L.ReplyState>, prev: Node?<Req, L.ReplyState>, rest: seq<Npreq>)
    requires nodes != []
  {
    && Unique(rest) && Ids(rest) == Without(Ids(nodes), req.key.id) && rest == Without(nodes, req)
    && req !in rest && (forall n :: n in rest ==> n in nodes) && (forall n :: n in nodes && n != req ==> n in rest)
    && At(rest, 0) == (if req == nodes[0] then next else nodes[0])
    && At(rest, |rest| - 1) == (if req == nodes[|nodes| - 1] then prev else nodes[|nodes| - 1])
    && (prev == null <==> req == nodes[0])
  }

  lemma TakeOne(nodes: seq<Npreq>, k: nat, rest: seq<Npreq>)
    requires Unique(nodes) && k < |nodes| && rest == nodes[..k] + nodes[k + 1..]
    ensures Separate(nodes) && RestOf(nodes, nodes[k], At(nodes, k + 1), At(nodes, k - 1), rest)
  {
    UniqueSeparate(nodes);
    TakeMembers(nodes, k, rest);
    TakeIds(nodes, k, rest);
    TakeEnds(nodes, k, rest);
  }

  /** A request leaves its list; its own pointers stay as they were. */
  method Unhook(req: Npreq, ghost nodes: seq<Npreq>) returns (ghost rest: seq<Npreq>)
    requires req in nodes && Unique(nodes) && Linked(nodes)
    modifies nodes
    ensures Linked(rest) && RestOf(nodes, req, req.next, req.prev, rest)
    ensures req.next == old(req.next) && req.prev == old(req.prev) && forall n :: n in nodes ==> n.mark == old(n.mark)
  {
    ghost var k :| 0 <= k < |nodes| && nodes[k] == req;
    rest := nodes[..k] + nodes[k + 1..];
    TakeOne(nodes, k, rest);
    Bypass(req, nodes, k, rest);
  }

  lemma AddIds(nodes: seq<Npreq>, f: Npreq)
    requires Unique(nodes) && f.key.id !in Ids(nodes)
    ensures Ids(nodes + [f]) == Ids(nodes) + [f.key.id] && Unique(nodes + [f])
    ensures Ids([f] + nodes) == [f.key.id] + Ids(nodes) && Unique([f] + nodes)
    ensures f !in nodes
  {
    forall i, j ensures PairApart(Ids(nodes + [f]), i, j) { assert PairApart(Ids(nodes), i, j); }
    forall i, j ensures PairApart(Ids([f] + nodes), i, j) { assert PairApart(Ids(nodes), i - 1, j - 1); }
  }

  // ---- searching and closing ----

  /** The requests of the state are those of the nodes. */
  ghost predicate Describes(s: L.State, nodes: seq<Npreq>) {
    forall n :: n in nodes ==> n.key.id in s.reqs && s.reqs[n.key.id].conn == n.key.conn && s.reqs[n.key.id].tag == n.key.tag
  }

  /** The first request that Tflush of `tag` on `c` names. */
  ghost function First(nodes: seq<Npreq>, c: L.ConnId, tag: nat): (r: Node?<Req, L.ReplyState>) {
    if nodes == [] then null
    else if nodes[0].key.conn == c && nodes[0].key.tag == tag then nodes[0]
    else First(nodes[1..], c, tag)
  }

  /** The reader of `c` is about to queue `r`, whose fid has the pool `p`; the default pool if there is none. */
  ghost predicate Enqueues(s: L.State, c: L.ConnId, p: L.PoolId, r: L.ReqId) {
    && L.Enabled(s, L.Enqueue(c)) && s.conns[c].held == Some(r)
    && var f := s.reqs[r].fid;
       p == if f.Some? && f.value in s.fids && s.fids[f.value].tpool.Some? then s.fids[f.value].tpool.value else L.DEFAULT
  }

  lemma EnqueuesAt(s: L.State, c: L.ConnId, p: L.PoolId, r: L.ReqId)
    requires Enqueues(s, c, p, r) && p in s.pools
    ensures var t := L.Next(s, L.Enqueue(c));
            p in t.pools && t.pools[p] == s.pools[p].(queue := s.pools[p].queue + [r]) && t.reqs[r].at == L.Queued(p)
  {
  }

  /** The search through the nodes is the search of the server's step. */
  lemma {:induction false} FirstIsMatch(s: L.State, nodes: seq<Npreq>, c: L.ConnId, tag: nat)
    requires Describes(s, nodes)
    ensures var r := First(nodes, c, tag);
            L.FirstMatch(s, Ids(nodes), c, tag) == if r == null then None else Some(r.key.id)
  {
    if nodes != [] {
      FirstIsMatch(s, nodes[1..], c, tag);
      assert Ids(nodes)[1..] == Ids(nodes[1..]);
    }
  }

  /** A loop of np_flush. */
  method Find(head: Node?<Req, L.ReplyState>, c: L.ConnId, tag: nat, ghost nodes: seq<Npreq>) returns (r: Node?<Req, L.ReplyState>)
    requires Linked(nodes) && head == At(nodes, 0)
    ensures r == First(nodes, c, tag)
  {
    r := head;
    ghost var k := 0;
    assert nodes[0..] == nodes;
    while r != null
      invariant k <= |nodes| && r == At(nodes, k) && First(nodes, c, tag) == First(nodes[k..], c, tag)
      decreases |nodes| - k
    {
      if r.key.conn == c && r.key.tag == tag {
        return;
      }
      assert NextOk(nodes, k);
      assert nodes[k..][1..] == nodes[k + 1..];
      r := r.next;
      k := k + 1;
    }
  }

  /** The requests that are not of connection `c`. */
  ghost function Others(nodes: seq<Npreq>, c: L.ConnId): (r: seq<Npreq>) {
    if nodes == [] then []
    else if nodes[0].key.conn == c then Others(nodes[1..], c)
    else [nodes[0]] + Others(nodes[1..], c)
  }

  lemma {:induction false} OthersStep(nodes: seq<Npreq>, k: nat, c: L.ConnId)
    requires k < |nodes|
    ensures Others(nodes[..k + 1], c) == Others(nodes[..k], c) + if nodes[k].key.conn == c then [] else [nodes[k]]
  {
    if k == 0 {
      assert nodes[..1] == [nodes[0]] && nodes[..0] == [] && [nodes[0]][1..] == [];
    } else {
      assert nodes[..k + 1][1..] == nodes[1..][..k] && nodes[..k][1..] == nodes[1..][..k - 1];
      OthersStep(nodes[1..], k - 1, c);
    }
  }

  lemma {:induction false} OthersMembers(nodes: seq<Npreq>, c: L.ConnId)
    ensures forall n :: n in Others(nodes, c) ==> n in nodes
  {
    if nodes != [] {
      OthersMembers(nodes[1..], c);
    }
  }

  lemma OthersBefore(nodes: seq<Npreq>, k: nat, c: L.ConnId)
    requires Separate(nodes) && k < |nodes|
    ensures nodes[k] !in Others(nodes[..k], c)
  {
    OthersMembers(nodes[..k], c);
    forall i | 0 <= i < k ensures nodes[..k][i] != nodes[k] { Differ(nodes, i, k); }
  }

  /** The queue once the first `k` of its requests have been looked at. */
  ghost predicate Drained(queue: seq<Npreq>, was: seq<Npreq>, k: nat, c: L.ConnId) {
    k <= |was| && queue == Others(was[..k], c) + was[k..] && forall n :: n in queue ==> n in was
  }

  lemma NothingDrained(was: seq<Npreq>, c: L.ConnId)
    ensures Drained(was, was, 0, c)
  {
    assert was[..0] == [] && was[0..] == was;
  }

  lemma AllDrained(queue: seq<Npreq>, was: seq<Npreq>, k: nat, c: L.ConnId)
    requires Drained(queue, was, k, c) && k == |was|
    ensures queue == Others(was, c)
  {
    assert was[..k] == was && was[k..] == [];
  }

  lemma DrainStep(queue: seq<Npreq>, was: seq<Npreq>, k: nat, c: L.ConnId) returns (at: nat)
    requires Separate(was) && k < |was| && Drained(queue, was, k, c)
    ensures at < |queue| && queue[at] == was[k] && was[k] in queue && At(queue, at + 1) == At(was, k + 1)
    ensures was[k].key.conn != c ==> Drained(queue, was, k + 1, c)
    ensures was[k].key.conn == c ==> Drained(Without(queue, was[k]), was, k + 1, c)
  {
    var done, later := Others(was[..k], c), was[k + 1..];
    at := |done|;
    assert queue == done + ([was[k]] + later);
    OthersStep(was, k, c);
    if was[k].key.conn == c {
      OthersBefore(was, k, c);
      WithoutAfter(done, was[k], later);
    }
  }

  lemma {:induction false} WithoutAfter<T>(done: seq<T>, x: T, later: seq<T>)
    requires x !in done
    ensures Without(done + ([x] + later), x) == done + later
  {
    var tail := [x] + later;
    if done == [] {
      assert done + tail == tail && done + later == later;
    } else {
      assert (done + tail)[1..] == done[1..] + tail && (done + later) == [done[0]] + (done[1..] + later);
      WithoutAfter(done[1..], x, later);
    }
  }

  /** What the server's step leaves in the queue are the others, in order. */
  lemma {:induction false} DrainFilters(s: L.State, p: L.PoolId, done: seq<L.ReqId>, pending: seq<Npreq>, c: L.ConnId)
    requires Inv.Inv(s) && p in s.pools && s.pools[p].queue == done + Ids(pending)
    requires Describes(s, pending)
    ensures var t := L.DrainQueue(s, p, Ids(pending), c);
            p in t.pools && t.pools[p].queue == done + Ids(Others(pending, c))
    decreases |pending|
  {
    if pending != [] {
      var f, later := pending[0], pending[1..];
      IdsHead(pending, f, later);
      if f.key.conn == c {
        DropOne(s, p, done, f.key.id, later, c);
        DrainFilters(L.Dequeue(s, p, f.key.id), p, done, later, c);
      } else {
        Assoc(done, [f.key.id], Ids(later));
        DrainFilters(s, p, done + [f.key.id], later, c);
        IdsHead([f] + Others(later, c), f, Others(later, c));
        Assoc(done, [f.key.id], Ids(Others(later, c)));
      }
    }
  }

  lemma IdsHead(nodes: seq<Npreq>, f: Npreq, later: seq<Npreq>)
    requires nodes == [f] + later
    ensures Ids(nodes) == [f.key.id] + Ids(later) && Ids(nodes)[1..] == Ids(later)
  {
  }

  lemma DropOne(s: L.State, p: L.PoolId, done: seq<L.ReqId>, id: L.ReqId, later: seq<Npreq>, c: L.ConnId)
    requires Inv.Inv(s) && p in s.pools && s.pools[p].queue == done + ([id] + Ids(later))
    requires id in s.reqs && s.reqs[id].conn == c && Describes(s, later)
    ensures var t := L.Dequeue(s, p, id);
            Inv.Inv(t) && p in t.pools && t.pools[p].queue == done + Ids(later) && Describes(t, later)
  {
    assert Inv.PoolOk(s, p);
    NotTwice(done, id, Ids(later));
    assert id in s.pools[p].queue by { assert s.pools[p].queue[|done|] == id; }
    Inv.DequeueKeeps(s, p, id);
    Inv.DequeueFrame(s, p, id, c);
    WithoutAfter(done, id, Ids(later));
    forall n | n in later ensures n.key.id != id {
      var k :| 0 <= k < |later| && later[k] == n;
      assert Ids(later)[k] == n.key.id;
    }
  }

  lemma NotTwice<T>(done: seq<T>, x: T, later: seq<T>)
    requires Distinct(done + ([x] + later))
    ensures x !in done && x !in later
  {
    var q := done + ([x] + later);
    assert forall i :: 0 <= i < |done| ==> q[i] == done[i];
    assert forall i :: 0 <= i < |later| ==> q[|done| + 1 + i] == later[i];
    assert q[|done|] == x;
  }

  class Nptpool {
    var name: string
    var refs: int
    var reqsFirst: Node?<Req, L.ReplyState>
    var reqsLast: Node?<Req, L.ReplyState>
    var workreqs: Node?<Req, L.ReplyState>
    ghost var queue: seq<Npreq>
    ghost var work: seq<Npreq>

    ghost predicate QueueOk()
      reads this, queue
    {
      Unique(queue) && Linked(queue) && reqsFirst == At(queue, 0) && reqsLast == At(queue, |queue| - 1)
    }

    ghost predicate WorkOk()
      reads this, work
    {
      Unique(work) && Linked(work) && workreqs == At(work, 0)
    }

    /** No request is in both lists, which use the same link fields. */
    ghost predicate Apart()
      reads this
    {
      (forall n :: n in queue ==> n !in work) && forall x :: x in Ids(queue) ==> x !in Ids(work)
    }

    ghost predicate Valid()
      reads this, queue, work
    {
      QueueOk() && WorkOk() && Apart()
    }

    /** The pool as a step of the server sees it. */
    ghost function Abs(): L.Pool
      reads this
    {
      L.Pool(name, Ids(queue), Ids(work), refs)
    }

    constructor (n: string)
      ensures Valid() && Abs() == L.Pool(n, [], [], 0)
    {
      name, refs := n, 0;
      reqsFirst, reqsLast, workreqs := null, null, null;
      queue, work := [], [];
    }

    /** np_srv_add_req, once the pool is chosen: the pool is then as the Enqueue action leaves it.  It does not
        write the next field: the queue stays a list exactly if that is null, as np_req_alloc leaves it. */
    method AddReq(req: Npreq, ghost s: L.State, ghost c: L.ConnId, ghost p: L.PoolId)
      requires Valid() && req !in work && req.key.id !in Ids(queue) && req.key.id !in Ids(work)
      modifies this, queue, req
      ensures queue == old(queue) + [req] && work == old(work) && req.mark == old(req.mark)
      ensures Valid() <==> old(req.next) == null
      ensures Abs() == old(Abs()).(queue := old(Abs()).queue + [req.key.id])
      ensures Enqueues(s, c, p, req.key.id) && p in s.pools && s.pools[p] == old(Abs()) ==>
                p in L.Next(s, L.Enqueue(c)).pools && L.Next(s, L.Enqueue(c)).pools[p] == Abs()
    {
      if Enqueues(s, c, p, req.key.id) && p in s.pools { EnqueuesAt(s, c, p, req.key.id); }
      LinkLast(req);
    }

    method LinkLast(req: Npreq)
      requires Valid() && req !in work && req.key.id !in Ids(queue) && req.key.id !in Ids(work)
      modifies this, queue, req
      ensures queue == old(queue) + [req] && work == old(work) && req.mark == old(req.mark)
      ensures Valid() <==> old(req.next) == null
      ensures Abs() == old(Abs()).(queue := old(Abs()).queue + [req.key.id])
    {
      AddIds(queue, req);
      UniqueSeparate(queue);
      LinkBack(req, reqsLast, queue);
      forall i ensures NextOk(work, i) && PrevOk(work, i) {
        assert old(NextOk(work, i) && PrevOk(work, i));
        if 0 <= i < |work| { assert work[i] in work; }
      }
      reqsLast := req;
      if reqsFirst == null {
        reqsFirst := req;
      }
      queue := queue + [req];
    }

    /** What np_srv_remove_req does to the queue. */
    method TakeOut(req: Npreq)
      requires QueueOk() && req in queue
      modifies this`reqsFirst, this`reqsLast, this`queue, queue
      ensures QueueOk() && Ids(queue) == Without(old(Ids(queue)), req.key.id) && queue == Without(old(queue), req)
      ensures req !in queue && (forall n :: n in queue ==> n in old(queue)) && (forall n :: n in old(queue) && n != req ==> n in queue)
      ensures req.next == old(req.next) && req.prev == old(req.prev) && forall n :: n in old(queue) ==> n.mark == old(n.mark)
    {
      ghost var rest := Unhook(req, queue);
      if req == reqsFirst {
        reqsFirst := req.next;
      }
      if req == reqsLast {
        reqsLast := req.prev;
      }
      queue := rest;
    }

    /** np_srv_remove_req: the request keeps its next and prev. */
    method RemoveReq(req: Npreq)
      requires Valid() && req in queue
      modifies this, queue
      ensures Valid() && work == old(work) && queue == Without(old(queue), req)
      ensures req !in queue && req.key.id !in Ids(queue) && req.key.id !in Ids(work)
      ensures req.next == old(req.next) && req.prev == old(req.prev)
      ensures Abs() == old(Abs()).(queue := Without(old(Abs()).queue, req.key.id))
      ensures (forall n :: n in queue ==> n in old(queue)) && (forall n :: n in old(queue) && n != req ==> n in queue)
      ensures forall n :: n in old(queue) ==> n.mark == old(n.mark)
    {
      ghost var k :| 0 <= k < |queue| && queue[k] == req;
      assert Ids(queue)[k] == req.key.id;
      UniqueDistinct(queue);
      WithoutMembers(Ids(queue), req.key.id);
      TakeOut(req);
      forall i ensures NextOk(work, i) && PrevOk(work, i) {
        assert old(NextOk(work, i) && PrevOk(work, i));
        if 0 <= i < |work| { assert work[i] in work; }
      }
    }

    /** np_srv_add_workreq: whatever next and prev were. */
    method AddWorkreq(req: Npreq)
      requires Valid() && req !in queue && req.key.id !in Ids(queue) && req.key.id !in Ids(work)
      modifies this, work, req
      ensures Valid() && queue == old(queue) && work == [req] + old(work) && req.mark == old(req.mark)
      ensures Abs() == old(Abs()).(work := [req.key.id] + old(Abs()).work)
    {
      AddIds(work, req);
      UniqueSeparate(work);
      LinkFront(req, workreqs, work);
      forall i ensures NextOk(queue, i) && PrevOk(queue, i) {
        assert old(NextOk(queue, i) && PrevOk(queue, i));
        if 0 <= i < |queue| { assert queue[i] in queue; }
      }
      workreqs := req;
      work := [req] + work;
    }

    /** What np_srv_remove_workreq does to the work list. */
    method TakeOutWork(req: Npreq)
      requires WorkOk() && req in work
      modifies this`workreqs, this`work, work
      ensures WorkOk() && Ids(work) == Without(old(Ids(work)), req.key.id)
      ensures req !in work && (forall n :: n in work ==> n in old(work))
      ensures forall n :: n in old(work) ==> n.mark == old(n.mark)
    {
      ghost var rest := Unhook(req, work);
      if req.prev == null {
        workreqs := req.next;
      }
      work := rest;
    }

    /** np_srv_remove_workreq. */
    method RemoveWorkreq(req: Npreq, ghost s: L.State, ghost p: L.PoolId)
      requires Valid() && req in work
      modifies this, work
      ensures Valid() && queue == old(queue) && req !in work
      ensures Abs() == old(Abs()).(work := Without(old(Abs()).work, req.key.id))
      ensures p in s.pools && s.pools[p] == old(Abs()) && L.Enabled(s, L.Unlink(req.key.id)) && s.reqs[req.key.id].at.pool == p ==>
                p in L.Next(s, L.Unlink(req.key.id)).pools && L.Next(s, L.Unlink(req.key.id)).pools[p] == Abs()
      ensures forall n :: n in old(work) ==> n.mark == old(n.mark)
    {
      UniqueDistinct(work);
      WithoutMembers(Ids(work), req.key.id);
      TakeOutWork(req);
      forall i ensures NextOk(queue, i) && PrevOk(queue, i) {
        assert old(NextOk(queue, i) && PrevOk(queue, i));
        if 0 <= i < |queue| { assert queue[i] in queue; }
      }
    }

    /** What a worker does under the lock: the first queued request goes to the head of the work list,
        its old next and prev overwritten. */
    method Take(ghost s: L.State, ghost p: L.PoolId) returns (req: Node?<Req, L.ReplyState>)
      requires Valid()
      modifies this, queue, work
      ensures Valid() && (req == null <==> old(queue) == [])
      ensures req != null ==> req == old(queue[0]) && work == [req] + old(work)
      ensures req != null ==> Abs() == old(Abs()).(queue := old(Abs()).queue[1..], work := [req.key.id] + old(Abs()).work)
      ensures p in s.pools && s.pools[p] == old(Abs()) && L.Enabled(s, L.Take(p)) ==>
                req != null && p in L.Next(s, L.Take(p)).pools && L.Next(s, L.Take(p)).pools[p] == Abs()
    {
      req := reqsFirst;
      if req == null {
        return;
      }
      assert Ids(queue)[0] == req.key.id;
      RemoveReq(req);
      AddWorkreq(req);
    }

    /** np_conn_flush on this pool, the queue: the next request is read before the current one is unlinked. */
    method Drain(c: L.ConnId)
      requires Valid()
      modifies this, queue
      ensures Valid() && work == old(work) && queue == Others(old(queue), c)
      ensures forall n :: n in old(queue) ==> n.mark == old(n.mark)
    {
      var creq := reqsFirst;
      ghost var was, k := queue, 0;
      UniqueSeparate(was);
      NothingDrained(was, c);
      while creq != null
        invariant creq == At(was, k) && was == old(queue) && Drained(queue, was, k, c)
        invariant Valid() && work == old(work)
        invariant forall n :: n in was ==> n.mark == old(n.mark)
        decreases |was| - k
      {
        creq := Step(creq, c, was, k);
        k := k + 1;
      }
      AllDrained(queue, was, k, c);
    }

    /** One turn of that loop. */
    method Step(creq: Npreq, c: L.ConnId, ghost was: seq<Npreq>, ghost k: nat) returns (nextreq: Node?<Req, L.ReplyState>)
      requires Valid() && Separate(was) && k < |was| && creq == was[k] && Drained(queue, was, k, c)
      modifies this, was
      ensures Valid() && work == old(work) && nextreq == At(was, k + 1) && Drained(queue, was, k + 1, c)
      ensures forall n :: n in was ==> n.mark == old(n.mark)
    {
      ghost var at := DrainStep(queue, was, k, c);
      assert NextOk(queue, at);
      nextreq := creq.next;
      if creq.key.conn == c {
        assert forall i :: 0 <= i < |queue| ==> queue[i] in was;
        RemoveReq(creq);
      }
    }

    /** np_conn_flush on this pool, the work list: the requests of `c` must not reply, nothing else changes. */
    method Silence(c: L.ConnId)
      requires Valid()
      modifies work
      ensures Valid()
      ensures forall n :: n in work ==> n.mark == if n.key.conn == c then L.NoReply else old(n.mark)
    {
      UniqueSeparate(work);
      var creq := workreqs;
      ghost var k := 0;
      while creq != null
        invariant k <= |work| && creq == At(work, k) && WorkOk()
        invariant forall i :: 0 <= i < k ==> work[i].mark == if work[i].key.conn == c then L.NoReply else old(work[i].mark)
        invariant forall i :: k <= i < |work| ==> work[i].mark == old(work[i].mark)
        invariant forall n :: n in work ==> n.next == old(n.next) && n.prev == old(n.prev)
        decreases |work| - k
      {
        assert NextOk(work, k);
        if creq.key.conn == c {
          creq.mark := L.NoReply;
        }
        forall i ensures NextOk(work, i) && PrevOk(work, i) { assert old(NextOk(work, i) && PrevOk(work, i)); }
        forall i | 0 <= i < |work| && i != k ensures work[i] != creq { Differ(work, i, k); }
        creq := creq.next;
        k := k + 1;
      }
      forall i ensures NextOk(queue, i) && PrevOk(queue, i) {
        assert old(NextOk(queue, i) && PrevOk(queue, i));
        if 0 <= i < |queue| { assert queue[i] in queue; }
      }
    }
  }
}
