/**
  Doubly linked lists as the C code keeps them: nodes with a next and a prev pointer, and the
  sequence of nodes they stand for.
*/
module DoubleLinks {
  import opened Common

  /** What a node is of is fixed; its mark is not. */
  class Node<K, M> {
    const key: K
    var mark: M
    var next: Node?<K, M>
    var prev: Node?<K, M>

    constructor (k: K, m: M)
      ensures key == k && mark == m && next == null && prev == null
    {
      key, mark, next, prev := k, m, null, null;
    }
  }

  lemma {:induction false} WithoutAt<T>(q: seq<T>, k: nat)
    requires Separate(q) && k < |q|
    ensures Without(q, q[k]) == q[..k] + q[k + 1..]
  {
    if k > 0 {
      assert PairApart(q, 0, k);
      forall i, j ensures PairApart(q[1..], i, j) { assert PairApart(q, i + 1, j + 1); }
      WithoutAt(q[1..], k - 1);
      assert q[1..][k - 1] == q[k];
      assert q[1..][..k - 1] == q[1..k] && q[1..][k..] == q[k + 1..];
    }
  }

  ghost function At<K, M>(nodes: seq<Node<K, M>>, i: int): Node?<K, M> {
    if 0 <= i < |nodes| then nodes[i] else null
  }

  ghost predicate NextOk<K, M>(nodes: seq<Node<K, M>>, i: int)
    reads nodes
  {
    0 <= i < |nodes| ==> nodes[i].next == At(nodes, i + 1)
  }

  ghost predicate PrevOk<K, M>(nodes: seq<Node<K, M>>, i: int)
    reads nodes
  {
    0 <= i < |nodes| ==> nodes[i].prev == At(nodes, i - 1)
  }

  ghost predicate Linked<K, M>(nodes: seq<Node<K, M>>)
    reads nodes
  {
    && (forall i {:trigger NextOk(nodes, i)} :: NextOk(nodes, i))
    && (forall i {:trigger PrevOk(nodes, i)} :: PrevOk(nodes, i))
  }

  /** Linked but for the next pointers of nodes a and b, and the prev pointers of nodes c, d and e. */
  ghost predicate LinkedBut<K, M>(nodes: seq<Node<K, M>>, a: int, b: int, c: int, d: int, e: int)
    reads nodes
  {
    && (forall i {:trigger NextOk(nodes, i)} :: i != a && i != b ==> NextOk(nodes, i))
    && (forall i {:trigger PrevOk(nodes, i)} :: i != c && i != d && i != e ==> PrevOk(nodes, i))
  }

  lemma Differ<K, M>(nodes: seq<Node<K, M>>, i: int, j: int)
    requires Separate(nodes) && 0 <= i < |nodes| && 0 <= j < |nodes|
    ensures nodes[i] == nodes[j] <==> i == j
  {
    assert PairApart(nodes, i, j) && PairApart(nodes, j, i);
  }

  lemma PushSeparate<K, M>(nodes: seq<Node<K, M>>, f: Node<K, M>)
    requires Separate(nodes) && f !in nodes
    ensures Separate([f] + nodes)
  {
    forall i, j ensures PairApart([f] + nodes, i, j) { assert PairApart(nodes, i - 1, j - 1); }
  }

  lemma PushLinks<K, M>(was: seq<Node<K, M>>, f: Node<K, M>)
    requires LinkedBut(was, -1, -1, 0, 0, 0) && f.next == At(was, 0) && f.prev == null
    requires was != [] ==> was[0].prev == f
    ensures Linked([f] + was)
  {
    forall i ensures NextOk([f] + was, i) { assert NextOk(was, i - 1); }
    forall i ensures PrevOk([f] + was, i) {
      if i > 1 { assert PrevOk(was, i - 1); }
    }
  }

  lemma TakeSeparate<K, M>(nodes: seq<Node<K, M>>, k: nat)
    requires Separate(nodes) && k < |nodes|
    ensures Separate(nodes[..k] + nodes[k + 1..]) && nodes[k] !in nodes[..k] + nodes[k + 1..]
  {
    var t := nodes[..k] + nodes[k + 1..];
    forall i, j ensures PairApart(t, i, j) {
      assert PairApart(nodes, i, j) && PairApart(nodes, i, j + 1) && PairApart(nodes, i + 1, j + 1);
    }
    forall i | 0 <= i < |t| ensures t[i] != nodes[k] { Differ(nodes, if i < k then i else i + 1, k); }
  }

  /** With the pointers on both sides of node `k` turned past it, the rest is linked. */
  lemma TakeLinks<K, M>(was: seq<Node<K, M>>, k: nat)
    requires k < |was| && LinkedBut(was, k - 1, k, k, k + 1, k + 1)
    requires k > 0 ==> was[k - 1].next == At(was, k + 1)
    requires k + 1 < |was| ==> was[k + 1].prev == At(was, k - 1)
    ensures Linked(was[..k] + was[k + 1..])
  {
    var t := was[..k] + was[k + 1..];
    forall i ensures NextOk(t, i) {
      if i + 1 < k { assert NextOk(was, i); } else if i >= k { assert NextOk(was, i + 1); }
    }
    forall i ensures PrevOk(t, i) {
      if i < k { assert PrevOk(was, i); } else if i > k { assert PrevOk(was, i + 1); }
    }
  }

  /** A node after the last one. */
  lemma AppendLinks<K, M>(was: seq<Node<K, M>>, f: Node<K, M>)
    requires LinkedBut(was, |was| - 1, |was| - 1, -1, -1, -1) && f.prev == At(was, |was| - 1)
    requires was != [] ==> was[|was| - 1].next == f
    ensures Linked(was + [f]) <==> f.next == null
  {
    var t := was + [f];
    assert NextOk(t, |was|) <==> f.next == null;
    if f.next == null {
      forall i ensures NextOk(t, i) {
        if i < |was| - 1 { assert NextOk(was, i); }
      }
      forall i ensures PrevOk(t, i) { assert PrevOk(was, i); }
    }
  }

  /** Node `f` is left out of the list; its own pointers still say where it was. */
  method Bypass<K, M>(f: Node<K, M>, ghost nodes: seq<Node<K, M>>, ghost k: nat, ghost rest: seq<Node<K, M>>)
    requires k < |nodes| && nodes[k] == f && Separate(nodes) && Linked(nodes)
    requires rest == nodes[..k] + nodes[k + 1..]
    modifies nodes
    ensures Linked(rest)
    ensures f.next == old(f.next) == At(nodes, k + 1) && f.prev == old(f.prev) == At(nodes, k - 1)
    ensures forall n :: n in nodes ==> n.mark == old(n.mark)
  {
    assert NextOk(nodes, k) && PrevOk(nodes, k);
    if k > 0 { Differ(nodes, k - 1, k); }
    if k + 1 < |nodes| { Differ(nodes, k + 1, k); }
    if f.prev != null {
      f.prev.next := f.next;
    }
    if f.next != null {
      f.next.prev := f.prev;
    }
    forall i | i != k - 1 && i != k ensures NextOk(nodes, i) {
      assert old(NextOk(nodes, i));
      if 0 <= i < |nodes| {
        Differ(nodes, i, k);
        if k > 0 { Differ(nodes, i, k - 1); }
      }
    }
    forall i | i != k && i != k + 1 ensures PrevOk(nodes, i) {
      assert old(PrevOk(nodes, i));
      if 0 <= i < |nodes| {
        Differ(nodes, i, k);
        if k + 1 < |nodes| { Differ(nodes, i, k + 1); }
      }
    }
    TakeLinks(nodes, k);
  }

  /** `f` in front of the head; what its own pointers were does not matter. */
  method LinkFront<K, M>(f: Node<K, M>, head: Node?<K, M>, ghost nodes: seq<Node<K, M>>)
    requires Separate(nodes) && Linked(nodes) && head == At(nodes, 0) && f !in nodes
    modifies nodes, f
    ensures Linked([f] + nodes) && f.mark == old(f.mark) && forall n :: n in nodes ==> n.mark == old(n.mark)
  {
    if head != null {
      head.prev := f;
    }
    f.next := head;
    f.prev := null;
    forall i ensures NextOk(nodes, i) { assert old(NextOk(nodes, i)); }
    forall i | i != 0 ensures PrevOk(nodes, i) {
      assert old(PrevOk(nodes, i));
      if 0 < i < |nodes| { Differ(nodes, 0, i); }
    }
    PushLinks(nodes, f);
  }

  /** `f` after the last node.  Its next field is not written: the nodes are a list exactly if it is null. */
  method LinkBack<K, M>(f: Node<K, M>, last: Node?<K, M>, ghost nodes: seq<Node<K, M>>)
    requires Separate(nodes) && Linked(nodes) && last == At(nodes, |nodes| - 1) && f !in nodes
    modifies nodes, f
    ensures Linked(nodes + [f]) <==> old(f.next) == null
    ensures f.mark == old(f.mark) && forall n :: n in nodes ==> n.mark == old(n.mark)
  {
    f.prev := last;
    if last != null {
      last.next := f;
    }
    forall i | i != |nodes| - 1 ensures NextOk(nodes, i) {
      assert old(NextOk(nodes, i));
      if 0 <= i < |nodes| { Differ(nodes, i, |nodes| - 1); }
    }
    forall i ensures PrevOk(nodes, i) { assert old(PrevOk(nodes, i)); }
    AppendLinks(nodes, f);
  }
}
