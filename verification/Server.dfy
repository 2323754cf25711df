/**
  The server object and those of its critical sections that search or run over several pools.
  Each does, loop by loop, what the C code does under `srv->lock`, and is proved to be one step
  of `Lifecycle`.  What the code does to the lists of one pool is in `ReqLists`.
*/
module Server {
  import opened Common
  import L = Lifecycle
  import Inv = LifecycleInv

  class Server {
    var up: bool
    var single: bool
    var order: seq<L.PoolId>
    var pools: map<L.PoolId, L.Pool>
    var reqs: map<L.ReqId, L.Req>
    var conns: map<L.ConnId, L.Conn>
    var fids: map<L.FidId, L.Fid>
    ghost var origin: map<L.ReqId, L.Origin>
    ghost var oldConns: set<L.ConnId>
    ghost var log: seq<L.Event>

    ghost function Abs(): L.State
      reads this
    {
      L.State(up, single, order, pools, reqs, conns, fids, origin, oldConns, log)
    }

    ghost predicate Valid()
      reads this
    {
      Inv.Inv(Abs())
    }

    constructor (singlePool: bool)
      ensures Valid() && Abs() == L.Init(singlePool)
    {
      up, single := true, singlePool;
      order, pools := [L.DEFAULT], map[L.DEFAULT := L.Pool("default", [], [], 1)];
      reqs, conns, fids := map[], map[], map[];
      origin, oldConns, log := map[], {}, [];
      new;
      Inv.InitInv(singlePool);
    }

    /** np_req_unref, for a request whose only reference is dropped. */
    method Unref(r: L.ReqId)
      requires r in reqs
      modifies this
      ensures Abs() == L.Unref(old(Abs()), r)
      decreases reqs.Keys
    {
      var q := reqs[r];
      reqs := reqs - {r};
      if q.conn in conns {
        conns := conns[q.conn := conns[q.conn].(refs := conns[q.conn].refs - 1)];
      }
      log := log + [L.Freed(r)];
      if q.flushreq.Some? && q.flushreq.value in reqs {
        assert reqs.Keys == old(reqs.Keys) - {r};
        Unref(q.flushreq.value);
      }
    }

    /** The loops of np_flush: the pool list, each pool's queue before its work list. */
    method Find(c: L.ConnId, tag: nat) returns (found: L.Found)
      requires forall p :: p in order ==> p in pools
      ensures found == L.Search(Abs(), order, c, tag)
    {
      var i := 0;
      assert order[0..] == order;
      while i < |order|
        invariant i <= |order| && L.Search(Abs(), order, c, tag) == L.Search(Abs(), order[i..], c, tag)
      {
        var p := order[i];
        var queued := FindFirst(pools[p].queue, c, tag);
        if queued.Some? {
          return L.InQueue(p, queued.value);
        }
        var working := FindFirst(pools[p].work, c, tag);
        if working.Some? {
          return L.InWork(p, working.value);
        }
        assert order[i..][1..] == order[i + 1..];
        i := i + 1;
      }
      found := L.Nowhere;
    }

    /** np_flush; the result says whether the caller answers at once. */
    method Flush(c: L.ConnId) returns (answer: bool)
      requires Valid() && L.Enabled(Abs(), L.FlushReq(c))
      modifies this
      ensures Valid() && Abs() == L.Next(old(Abs()), L.FlushReq(c))
      ensures answer <==> !L.Search(old(Abs()), old(order), c, old(reqs[conns[c].held.value].kind.oldtag)).InWork?
    {
      var f := conns[c].held.value;
      Inv.FlushReqKeeps(Abs(), c);
      var found := Find(c, reqs[f].kind.oldtag);
      match found {
        case Nowhere =>
          Ready(f);
          log := log + [L.NotFound(f)];
          answer := true;
        case InQueue(p, r) =>
          Ready(f);
          Dequeue(p, r);
          log := log + [L.Early(f, r)];
          answer := true;
        case InWork(p, r) =>
          assert Inv.At(Abs(), r);
          AttachFlush(c, f, r);
          answer := false;
      }
    }

    /** The reader goes on with its flush in hand. */
    method Ready(f: L.ReqId)
      requires f in reqs
      modifies this
      ensures Abs() == L.SetReq(old(Abs()), f, old(reqs[f]).(at := L.Held(true)))
    {
      reqs := reqs[f := reqs[f].(at := L.Held(true))];
    }

    /** The inner loops of np_flush. */
    method FindFirst(q: seq<L.ReqId>, c: L.ConnId, tag: nat) returns (r: Option<L.ReqId>)
      ensures r == L.FirstMatch(Abs(), q, c, tag)
    {
      var k := 0;
      assert q[0..] == q;
      while k < |q|
        invariant k <= |q| && L.FirstMatch(Abs(), q, c, tag) == L.FirstMatch(Abs(), q[k..], c, tag)
      {
        if q[k] in reqs && reqs[q[k]].conn == c && reqs[q[k]].tag == tag {
          return Some(q[k]);
        }
        assert q[k..][1..] == q[k + 1..];
        k := k + 1;
      }
      r := None;
    }

    /** np_srv_remove_req, then np_req_unref. */
    method Dequeue(p: L.PoolId, r: L.ReqId)
      requires p in pools && r in reqs
      modifies this
      ensures Abs() == L.Dequeue(old(Abs()), p, r)
    {
      pools := pools[p := pools[p].(queue := Without(pools[p].queue, r))];
      reqs := reqs[r := reqs[r].(at := L.Loose)];
      log := log + [L.Dropped(r)];
      Unref(r);
    }

    /** The late branch of np_flush. */
    method AttachFlush(c: L.ConnId, f: L.ReqId, r: L.ReqId)
      requires Valid() && c in conns && conns[c].held == Some(f) && f in reqs && r in reqs && reqs[r].at.Working?
      modifies this
      ensures Abs() == L.DoFlushLate(old(Abs()), c, f, r)
    {
      var prior := reqs[r].flushreq;
      assert Inv.At(Abs(), f) && Inv.ReqOk(Abs(), r);
      if prior.Some? {
        assert Inv.At(Abs(), prior.value);
      }
      TakePrior(r);
      HandOver(c, f, r);
      if prior.Some? {
        log := log + [L.Superseded(prior.value, f, r)];
        Unref(prior.value);
      }
    }

    /** The flush in the reader's hands goes to `r`. */
    method HandOver(c: L.ConnId, f: L.ReqId, r: L.ReqId)
      requires c in conns && f in reqs && r in reqs
      modifies this
      ensures Abs() == L.AttachFlush(old(Abs()), c, f, r)
    {
      reqs := reqs[r := reqs[r].(flushreq := Some(f))][f := reqs[f].(at := L.Attached(r))];
      conns := conns[c := conns[c].(held := None)];
      log := log + [L.Late(f, r)];
    }

    /** `r` gives up the flush attached to it. */
    method TakePrior(r: L.ReqId)
      requires r in reqs && (reqs[r].flushreq.Some? ==> reqs[r].flushreq.value in reqs)
      modifies this
      ensures Abs() == L.Detach(old(Abs()), r, old(reqs[r].at))
    {
      var prior := reqs[r].flushreq;
      reqs := reqs[r := reqs[r].(flushreq := None)];
      if prior.Some? {
        reqs := reqs[prior.value := reqs[prior.value].(at := L.Loose)];
      }
    }

    /** np_conn_flush: every listed pool, its queue and then its work list. */
    method ConnFlush(c: L.ConnId)
      requires Valid() && L.Enabled(Abs(), L.CloseConn(c))
      modifies this
      ensures Valid() && Abs() == L.Next(old(Abs()), L.CloseConn(c))
    {
      Inv.CloseConnKeeps(Abs(), c);
      ClosePools(order, c);
      if c in conns {
        conns := conns[c := conns[c].(closing := true)];
        log := log + [L.Closed(c)];
      }
    }

    method ClosePools(ps: seq<L.PoolId>, c: L.ConnId)
      modifies this
      ensures Abs() == L.ClosePools(old(Abs()), ps, c)
    {
      var i := 0;
      assert ps[0..] == ps;
      while i < |ps|
        invariant i <= |ps| && L.ClosePools(old(Abs()), ps, c) == L.ClosePools(Abs(), ps[i..], c)
      {
        var p := ps[i];
        assert ps[i..][1..] == ps[i + 1..];
        if p in pools {
          DrainQueue(p, c);
          if p in pools {
            Silence(p, c);
          }
        }
        i := i + 1;
      }
    }

    method DrainQueue(p: L.PoolId, c: L.ConnId)
      requires p in pools
      modifies this
      ensures Abs() == L.DrainQueue(old(Abs()), p, old(pools[p].queue), c)
    {
      var pending := pools[p].queue;
      var i := 0;
      assert pending[0..] == pending;
      while i < |pending|
        invariant i <= |pending|
        invariant L.DrainQueue(old(Abs()), p, pending, c) == L.DrainQueue(Abs(), p, pending[i..], c)
      {
        var r := pending[i];
        assert pending[i..][1..] == pending[i + 1..];
        if p in pools && r in reqs && reqs[r].conn == c {
          Dequeue(p, r);
        }
        i := i + 1;
      }
    }

    method Silence(p: L.PoolId, c: L.ConnId)
      requires p in pools
      modifies this`reqs
      ensures Abs() == L.Silence(old(Abs()), p, c)
    {
      var work := pools[p].work;
      var i := 0;
      while i < |work|
        invariant i <= |work|
        invariant reqs == map r | r in old(reqs) ::
                            if r in work[..i] && old(reqs)[r].conn == c then old(reqs)[r].(state := L.NoReply) else old(reqs)[r]
      {
        var r := work[i];
        assert work[..i + 1] == work[..i] + [r];
        if r in reqs && reqs[r].conn == c {
          reqs := reqs[r := reqs[r].(state := L.NoReply)];
        }
        i := i + 1;
      }
      assert work[..i] == work;
    }

    /** np_conn_destroy, then np_tpool_cleanup. */
    method DestroyConn(c: L.ConnId)
      requires Valid() && L.Enabled(Abs(), L.DestroyConn(c))
      modifies this
      ensures Valid() && Abs() == L.Next(old(Abs()), L.DestroyConn(c))
    {
      Inv.DestroyConnKeeps(Abs(), c);
      conns := conns - {c};
      oldConns := oldConns + {c};
      CleanupPools();
      log := log + [L.Destroyed(c)];
    }

    /** The unlinking loop of np_tpool_cleanup. */
    method CleanupPools()
      modifies this`order
      ensures Abs() == L.Cleanup(old(Abs()))
    {
      var kept: seq<L.PoolId> := [];
      var i := 0;
      assert order[0..] == order;
      while i < |order|
        invariant i <= |order| && order == old(order)
        invariant L.Kept(old(Abs()), order) == kept + L.Kept(old(Abs()), order[i..])
      {
        var p := order[i];
        assert order[i..][1..] == order[i + 1..];
        if !(p in pools && pools[p].refs == 0) {
          kept := kept + [p];
        }
        i := i + 1;
      }
      order := kept;
    }

    /** np_tpool_select: the default pool, the one of that name, or a new one after the default. */
    method SelectPool(f: L.FidId, name: string, newId: L.PoolId)
      requires Valid() && L.Enabled(Abs(), L.SelectPool(f, name, newId))
      modifies this
      ensures Valid() && Abs() == L.Next(old(Abs()), L.SelectPool(f, name, newId))
    {
      Inv.SelectPoolKeeps(Abs(), f, name, newId);
      var tp := None;
      if single || name == "" || name[0] != '/' {
        tp := Some(order[0]);
      } else {
        tp := FindPool(name);
      }
      if tp.None? {
        pools := pools[newId := L.Pool(name, [], [], 0)];
        order := [order[0], newId] + order[1..];
        tp := Some(newId);
      }
      AssignPool(f, tp.value);
    }

    /** np_tpool_incref, and the fid's pointer to it. */
    method AssignPool(f: L.FidId, p: L.PoolId)
      requires p in pools && f in fids
      modifies this
      ensures Abs() == L.AssignPool(old(Abs()), f, Some(p))
    {
      pools := pools[p := pools[p].(refs := pools[p].refs + 1)];
      fids := fids[f := L.Fid(Some(p))];
    }

    method FindPool(name: string) returns (tp: Option<L.PoolId>)
      ensures tp == L.PoolNamed(Abs(), order, name)
    {
      var i := 0;
      assert order[0..] == order;
      while i < |order|
        invariant i <= |order| && L.PoolNamed(Abs(), order, name) == L.PoolNamed(Abs(), order[i..], name)
      {
        if order[i] in pools && pools[order[i]].name == name {
          return Some(order[i]);
        }
        assert order[i..][1..] == order[i + 1..];
        i := i + 1;
      }
      tp := None;
    }
  }
}
