/**
  One bucket of the fid table as the doubly linked list it is, with the pointer surgery of
  fidpool.c proved to be the sequence operations the fid table is modelled with.
*/
module FidBucket {
  import opened Common
  import opened DoubleLinks
  import F = Fids

  /** A fid by its number; the mark says that it is a zombie. */
  type FidNode = Node<nat, bool>

  /** And with node `k` in front of the head. */
  lemma FrontLinks(was: seq<FidNode>, k: nat)
    requires 0 < k < |was| && LinkedBut(was, k - 1, k, 0, k, k + 1)
    requires was[k - 1].next == At(was, k + 1) && was[k].next == was[0] && was[k].prev == null && was[0].prev == was[k]
    requires k + 1 < |was| ==> was[k + 1].prev == was[k - 1]
    ensures Linked([was[k]] + (was[..k] + was[k + 1..]))
  {
    var t := [was[k]] + (was[..k] + was[k + 1..]);
    forall i ensures NextOk(t, i) {
      if 0 < i < k { assert NextOk(was, i - 1); } else if i > k { assert NextOk(was, i); }
    }
    forall i ensures PrevOk(t, i) {
      if 1 < i <= k { assert PrevOk(was, i - 1); } else if i > k + 1 { assert PrevOk(was, i); }
    }
  }

  class Bucket {
    var head: Node?<nat, bool>
    ghost var nodes: seq<FidNode>

    ghost predicate Valid()
      reads this, nodes
    {
      Separate(nodes) && head == At(nodes, 0) && Linked(nodes)
    }

    constructor ()
      ensures Valid() && nodes == []
    {
      head, nodes := null, [];
    }

    /** _link_fid. */
    method Link(f: FidNode)
      requires Valid() && f !in nodes
      modifies this, nodes, f
      ensures Valid() && nodes == [f] + old(nodes)
      ensures f.mark == old(f.mark) && forall n :: n in old(nodes) ==> n.mark == old(n.mark)
    {
      PushSeparate(nodes, f);
      LinkFront(f, head, nodes);
      head := f;
      nodes := [f] + nodes;
    }

    /** _unlink_fid. */
    method Unlink(f: FidNode)
      requires Valid() && f in nodes
      modifies this, nodes
      ensures Valid() && nodes == Without(old(nodes), f) && f.next == null && f.prev == null
      ensures forall n :: n in old(nodes) ==> n.mark == old(n.mark)
    {
      ghost var k :| 0 <= k < |nodes| && nodes[k] == f;
      WithoutAt(nodes, k);
      TakeSeparate(nodes, k);
      Bypass(f, nodes, k, nodes[..k] + nodes[k + 1..]);
      if f.prev == null {
        head := f.next;
      }
      f.prev, f.next := null, null;
      nodes := nodes[..k] + nodes[k + 1..];
    }

    /** _optimize_fid: only for a fid that is not at the head. */
    method Optimize(f: FidNode)
      requires Valid() && f in nodes && f != head
      modifies this, nodes
      ensures Valid() && nodes == [f] + Without(old(nodes), f)
      ensures forall n :: n in old(nodes) ==> n.mark == old(n.mark)
    {
      ghost var k :| 0 <= k < |nodes| && nodes[k] == f;
      assert NextOk(nodes, k) && PrevOk(nodes, k);
      WithoutAt(nodes, k);
      TakeSeparate(nodes, k);
      PushSeparate(nodes[..k] + nodes[k + 1..], f);
      Around(k);
      if f.next != null {
        f.next.prev := f.prev;
      }
      f.prev.next := f.next;
      f.prev := null;
      f.next := head;
      head.prev := f;
      head := f;
      OthersFront(k);
      FrontLinks(nodes, k);
      nodes := [f] + (nodes[..k] + nodes[k + 1..]);
    }

    /** The nodes whose pointers _optimize_fid turns are not the same one. */
    lemma Around(k: nat)
      requires Separate(nodes) && 0 < k < |nodes|
      ensures nodes[k] != nodes[k - 1] && nodes[k] != nodes[0]
      ensures k + 1 < |nodes| ==> nodes[k + 1] != nodes[k] && nodes[k + 1] != nodes[k - 1] && nodes[k + 1] != nodes[0]
    {
      Differ(nodes, k, k - 1);
      Differ(nodes, k, 0);
      if k + 1 < |nodes| {
        Differ(nodes, k + 1, k);
        Differ(nodes, k + 1, k - 1);
        Differ(nodes, k + 1, 0);
      }
    }

    twostate lemma OthersFront(k: nat)
      requires old(Valid()) && nodes == old(nodes) && 0 < k < |nodes|
      requires forall n {:trigger n.next} :: n in nodes && n != nodes[k - 1] && n != nodes[k] ==> n.next == old(n.next)
      requires forall n {:trigger n.prev} ::
        n in nodes && n != nodes[k] && n != At(nodes, k + 1) && n != nodes[0] ==> n.prev == old(n.prev)
      ensures LinkedBut(nodes, k - 1, k, 0, k, k + 1)
    {
      forall i | i != k - 1 && i != k ensures NextOk(nodes, i) {
        assert old(NextOk(nodes, i));
        if 0 <= i < |nodes| {
          Differ(nodes, i, k);
          Differ(nodes, i, k - 1);
        }
      }
      forall i | i != 0 && i != k && i != k + 1 ensures PrevOk(nodes, i) {
        assert old(PrevOk(nodes, i));
        if 0 <= i < |nodes| {
          Differ(nodes, i, k);
          Differ(nodes, i, 0);
          if k + 1 < |nodes| { Differ(nodes, i, k + 1); }
        }
      }
    }

    /** What _lookup_fid is looking for: the first fid of that number that is not a zombie. */
    static ghost function First(q: seq<FidNode>, num: nat): (r: Option<FidNode>)
      reads q
      ensures r.Some? ==> r.value in q
    {
      if q == [] then None
      else if q[0].key == num && !q[0].mark then Some(q[0])
      else First(q[1..], num)
    }

    /** _lookup_fid: the fid, moved to the head, or null. */
    method Lookup(num: nat) returns (f: Node?<nat, bool>)
      requires Valid()
      modifies this, nodes
      ensures Valid()
      ensures var r := old(First(nodes, num));
              if r.None? then f == null && nodes == old(nodes)
              else f == r.value && nodes == [r.value] + Without(old(nodes), r.value)
      ensures forall n :: n in old(nodes) ==> n.mark == old(n.mark)
    {
      f := head;
      ghost var k := 0;
      assert nodes[0..] == nodes;
      while f != null
        invariant k <= |nodes| && f == (if k < |nodes| then nodes[k] else null)
        invariant Valid() && nodes == old(nodes) && head == old(head)
        invariant forall n :: n in nodes ==> n.mark == old(n.mark)
        invariant old(First(nodes, num)) == old(First(nodes[k..], num))
        decreases |nodes| - k
      {
        if f.key == num && !f.mark {
          if f != head {
            Optimize(f);
          } else {
            assert nodes == [f] + nodes[1..];
          }
          return;
        }
        assert NextOk(nodes, k);
        assert nodes[k..][1..] == nodes[k + 1..];
        f := f.next;
        k := k + 1;
      }
    }
  }

  // ---- the bucket and the table ----

  /** The nodes are those of the fids of a bucket. */
  ghost predicate Describes(t: F.Table, ids: seq<F.Id>, nodes: seq<FidNode>)
    reads nodes
  {
    |ids| == |nodes| &&
    forall k :: 0 <= k < |ids| ==> ids[k] in t.live && t.live[ids[k]].num == nodes[k].key && t.live[ids[k]].zombie == nodes[k].mark
  }

  lemma {:induction false} FirstIsFound(t: F.Table, ids: seq<F.Id>, nodes: seq<FidNode>, num: nat) returns (k: nat)
    requires Describes(t, ids, nodes)
    ensures k <= |nodes|
    ensures if k == |nodes| then Bucket.First(nodes, num).None? && F.Find(t, ids, num).None?
            else Bucket.First(nodes, num) == Some(nodes[k]) && F.Find(t, ids, num) == Some(ids[k])
  {
    if nodes == [] {
      k := 0;
    } else if nodes[0].key == num && !nodes[0].mark {
      k := 0;
    } else {
      k := FirstIsFound(t, ids[1..], nodes[1..], num);
      k := k + 1;
    }
  }

  lemma {:induction false} WithoutIndex<T>(q: seq<T>, k: nat)
    requires k < |q| && Distinct(q)
    ensures Without(q, q[k]) == q[..k] + q[k + 1..]
  {
    if k > 0 {
      WithoutIndex(q[1..], k - 1);
    }
  }

  lemma MovedDescribes(t: F.Table, ids: seq<F.Id>, nodes: seq<FidNode>, k: nat)
    requires Describes(t, ids, nodes) && k < |nodes|
    ensures Describes(t, [ids[k]] + (ids[..k] + ids[k + 1..]), [nodes[k]] + (nodes[..k] + nodes[k + 1..]))
  {
  }

  lemma MovedNodes(nodes: seq<FidNode>, k: nat)
    requires Separate(nodes) && k < |nodes|
    ensures Without(nodes, nodes[k]) == nodes[..k] + nodes[k + 1..]
  {
    forall i, j | 0 <= i < j < |nodes| ensures nodes[i] != nodes[j] { assert PairApart(nodes, i, j); }
    WithoutIndex(nodes, k);
  }

  /** What _lookup_fid does to the nodes is what the table has it do: the fid found goes to the head, the rest keeps its order. */
  lemma LookupIsTouch(t: F.Table, ids: seq<F.Id>, nodes: seq<FidNode>, num: nat)
    requires |t.buckets| == F.HTABLE_SIZE && ids == t.buckets[F.Hash(num)] && Distinct(ids) && Separate(nodes)
    requires Describes(t, ids, nodes)
    ensures var r, u := Bucket.First(nodes, num), F.Touch(t, num);
            && (r.None? <==> F.Lookup(t, num).None?) && |u.buckets| == F.HTABLE_SIZE
            && Describes(t, u.buckets[F.Hash(num)], if r.None? then nodes else [r.value] + Without(nodes, r.value))
  {
    var k := FirstIsFound(t, ids, nodes, num);
    if k < |nodes| {
      WithoutIndex(ids, k);
      MovedNodes(nodes, k);
      MovedDescribes(t, ids, nodes, k);
      TouchIs(t, num, ids[k]);
    }
  }

  lemma TouchIs(t: F.Table, num: nat, id: F.Id)
    requires |t.buckets| == F.HTABLE_SIZE && F.Lookup(t, num) == Some(id)
    ensures F.Touch(t, num).buckets == t.buckets[F.Hash(num) := [id] + Without(t.buckets[F.Hash(num)], id)]
  {
  }
}
