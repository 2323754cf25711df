/**
  The singly linked list with iterators, in memory.  The address of a next pointer is modelled
  by the node that holds it; null stands for the address of the list's head.
*/
module List {
  import opened Common
  import opened ListCursor
  import opened ListOrder

  class Node {
    const data: nat
    var next: Node?

    constructor (data: nat, next: Node?)
      ensures this.data == data && this.next == next
    {
      this.data := data;
      this.next := next;
    }
  }

  class Iter {
    var pos: Node?
    var prev: Node?
    ghost var at: Cursor

    constructor (pos: Node?)
      ensures this.pos == pos && prev == null && at == Cursor(0, 0)
    {
      this.pos := pos;
      prev := null;
      at := Cursor(0, 0);
    }
  }

  ghost function At(nodes: seq<Node>, i: nat): Node? {
    if i < |nodes| then nodes[i] else null
  }

  /** The node whose next pointer addresses item `i`. */
  ghost function Slot(nodes: seq<Node>, i: nat): Node?
    requires i <= |nodes|
  {
    if i == 0 then null else nodes[i - 1]
  }

  ghost predicate LinkOk(nodes: seq<Node>, i: int)
    reads nodes
  {
    0 <= i < |nodes| ==> nodes[i].next == At(nodes, i + 1)
  }

  ghost predicate Links(nodes: seq<Node>)
    reads nodes
  {
    forall i {:trigger LinkOk(nodes, i)} :: LinkOk(nodes, i)
  }

  /** The same but for the pointer in slot `j`. */
  ghost predicate LinksBut(nodes: seq<Node>, j: nat)
    reads nodes
  {
    forall i {:trigger LinkOk(nodes, i)} :: i + 1 != j ==> LinkOk(nodes, i)
  }

  ghost predicate IterAt(nodes: seq<Node>, pos: Node?, prev: Node?, c: Cursor) {
    CursorOk(c, |nodes|) && prev == Slot(nodes, c.k) && pos == At(nodes, c.k + c.d)
  }

  lemma SlotsDiffer(nodes: seq<Node>, i: nat, j: nat)
    requires Separate(nodes) && i <= |nodes| && j <= |nodes|
    ensures Slot(nodes, i) == Slot(nodes, j) <==> i == j
    ensures At(nodes, i) == At(nodes, j) <==> i == j
  {
    assert PairApart(nodes, i - 1, j - 1) && PairApart(nodes, j - 1, i - 1);
    assert PairApart(nodes, i, j) && PairApart(nodes, j, i);
  }

  /** The adjustment list_node_create makes to an iterator. */
  lemma CreateAdjusts(nodes: seq<Node>, j: nat, p: Node, pos: Node?, prev: Node?, c: Cursor)
    requires Separate(nodes) && j <= |nodes| && IterAt(nodes, pos, prev, c)
    ensures IterAt(PutAt(nodes, j, p),
                   if prev != Slot(nodes, j) && pos == At(nodes, j) then p else pos,
                   if prev == Slot(nodes, j) then p else prev, Created(c, j))
  {
    SlotsDiffer(nodes, c.k, j);
    SlotsDiffer(nodes, c.k + c.d, j);
  }

  /** And that of list_node_destroy. */
  lemma DestroyAdjusts(nodes: seq<Node>, j: nat, pos: Node?, prev: Node?, c: Cursor)
    requires Separate(nodes) && j < |nodes| && IterAt(nodes, pos, prev, c)
    ensures IterAt(TakeAt(nodes, j),
                   if pos == nodes[j] then At(nodes, j + 1) else pos,
                   if pos == nodes[j] || prev == nodes[j] then Slot(nodes, j) else prev, Destroyed(c, j))
  {
    SlotsDiffer(nodes, c.k, j + 1);
    SlotsDiffer(nodes, c.k + c.d, j);
  }

  /** And that of list_next. */
  lemma NextAdjusts(nodes: seq<Node>, pos: Node?, prev: Node?, c: Cursor)
    requires Separate(nodes) && IterAt(nodes, pos, prev, c)
    ensures At(nodes, c.k) != pos <==> c.d == 1
    ensures pos != null <==> c.k + c.d < |nodes|
    ensures IterAt(nodes,
                   if pos != null then At(nodes, c.k + c.d + 1) else null,
                   if c.d == 1 then At(nodes, c.k) else prev, Advanced(c, |nodes|))
  {
    SlotsDiffer(nodes, c.k, c.k + c.d);
  }

  lemma PutSeparate(nodes: seq<Node>, j: nat, p: Node)
    requires Separate(nodes) && j <= |nodes| && p !in nodes
    ensures Separate(PutAt(nodes, j, p))
  {
    forall a, b ensures PairApart(PutAt(nodes, j, p), a, b) {
      assert PairApart(nodes, a, b) && PairApart(nodes, a, b - 1) && PairApart(nodes, a - 1, b - 1);
    }
  }

  /** With the links around slot `j` in place, the longer list is linked throughout. */
  lemma PutLinks(was: seq<Node>, j: nat, p: Node)
    requires j <= |was| && p.next == At(was, j) && LinksBut(was, j)
    requires j > 0 ==> was[j - 1].next == p
    ensures Links(PutAt(was, j, p))
  {
    forall i ensures LinkOk(PutAt(was, j, p), i) {
      if i + 1 < j {
        assert LinkOk(was, i);
      } else if i > j {
        assert LinkOk(was, i - 1);
      }
    }
  }

  lemma TakeSeparate(nodes: seq<Node>, j: nat)
    requires Separate(nodes) && j < |nodes|
    ensures Separate(TakeAt(nodes, j))
  {
    forall a, b ensures PairApart(TakeAt(nodes, j), a, b) {
      assert PairApart(nodes, a, b) && PairApart(nodes, a, b + 1) && PairApart(nodes, a + 1, b + 1);
    }
  }

  lemma TakeLinks(was: seq<Node>, j: nat)
    requires j < |was| && LinksBut(was, j)
    requires j > 0 ==> was[j - 1].next == At(was, j + 1)
    ensures Links(TakeAt(was, j))
  {
    forall i ensures LinkOk(TakeAt(was, j), i) {
      if i + 1 < j {
        assert LinkOk(was, i);
      } else if i >= j {
        assert LinkOk(was, i + 1);
      }
    }
  }

  /** Where the slots of list_sort's two pointers have gone. */
  lemma MovedSlots(was: seq<Node>, m: nat, q: nat)
    requires q < m < |was|
    ensures var t := Move(was, m, q);
      && t[m] == was[m - 1]
      && Slot(t, m) == if q == m - 1 then At(t, m - 1) else Slot(was, m - 1)
  {
  }

  function Key(n: Node): nat {
    n.data
  }

  /** With the three pointers of list_sort turned, the list with the node moved is linked throughout. */
  lemma MoveLinks(was: seq<Node>, m: nat, q: nat)
    requires q < m < |was| && was[m].next == was[q] && was[m - 1].next == At(was, m + 1)
    requires q > 0 ==> was[q - 1].next == was[m]
    requires forall i {:trigger LinkOk(was, i)} :: i != q - 1 && i != m - 1 && i != m ==> LinkOk(was, i)
    ensures Links(Move(was, m, q))
  {
    var t := Move(was, m, q);
    forall i ensures LinkOk(t, i) {
      if i < q - 1 || m < i {
        assert LinkOk(was, i);
      } else if q < i < m {
        assert LinkOk(was, i - 1);
      }
    }
  }

  lemma MoveSeparate(nodes: seq<Node>, m: nat, q: nat)
    requires Separate(nodes) && q <= m < |nodes|
    ensures Separate(Move(nodes, m, q))
  {
    TakeSeparate(nodes, m);
    var t := TakeAt(nodes, m);
    forall i | 0 <= i < |t| ensures t[i] != nodes[m] {
      SlotsDiffer(nodes, (if i < m then i else i + 1) + 1, m + 1);
    }
    PutSeparate(t, q, nodes[m]);
    assert PutAt(t, q, nodes[m]) == Move(nodes, m, q);
  }

  class List {
    var head: Node?
    var tail: Node?
    var count: int
    var iters: seq<Iter>
    ghost var nodes: seq<Node>

    ghost predicate Chain()
      reads this, nodes
    {
      Separate(nodes) && head == At(nodes, 0) && Links(nodes)
    }

    ghost predicate Linked()
      reads this, nodes
    {
      Chain() && tail == Slot(nodes, |nodes|) && count == |nodes|
    }

    ghost predicate ItersAt(ns: seq<Node>)
      reads this, iters
    {
      Distinct(iters) && forall i :: i in iters ==> IterAt(ns, i.pos, i.prev, i.at)
    }

    ghost predicate Valid()
      reads this, nodes, iters
    {
      Linked() && ItersAt(nodes)
    }

    constructor ()
      ensures Valid() && nodes == [] && iters == []
    {
      head, tail, count, iters, nodes := null, null, 0, [], [];
    }

    /** *pp */
    function Deref(pp: Node?): Node?
      reads this, pp
    {
      if pp == null then head else pp.next
    }

    lemma SlotHolds(j: nat)
      requires Chain() && j <= |nodes|
      ensures Deref(Slot(nodes, j)) == At(nodes, j)
    {
      assert LinkOk(nodes, j - 1);
    }

    /** *pp = v */
    method Store(pp: Node?, v: Node?, ghost j: nat)
      requires Separate(nodes) && j <= |nodes| && pp == Slot(nodes, j) && LinksBut(nodes, j)
      modifies this`head, pp
      ensures Deref(pp) == v && (pp != null ==> head == old(head)) && LinksBut(nodes, j)
    {
      if pp == null {
        head := v;
      } else {
        pp.next := v;
      }
      forall i | i + 1 != j ensures LinkOk(nodes, i) {
        assert old(LinkOk(nodes, i));
        if 0 <= i < |nodes| {
          SlotsDiffer(nodes, i + 1, j);
        }
      }
    }

    /** A new node goes in between. */
    method LinkAt(pp: Node?, x: nat, ghost j: nat) returns (p: Node)
      requires Linked() && j <= |nodes| && pp == Slot(nodes, j)
      modifies this`head, this`tail, this`count, this`nodes, pp
      ensures Linked() && fresh(p) && p.data == x && p.next == old(At(nodes, j))
      ensures nodes == PutAt(old(nodes), j, p)
    {
      SlotHolds(j);
      p := new Node(x, Deref(pp));
      if p.next == null {
        tail := p;
      }
      Store(pp, p, j);
      count := count + 1;
      PutSeparate(nodes, j, p);
      PutLinks(nodes, j, p);
      nodes := PutAt(nodes, j, p);
    }

    /** Every iterator is told of the new node. */
    method TellCreated(pp: Node?, p: Node, ghost was: seq<Node>, ghost j: nat)
      requires Separate(was) && j <= |was| && pp == Slot(was, j) && p.next == At(was, j) && ItersAt(was)
      modifies iters
      ensures ItersAt(PutAt(was, j, p)) && forall i :: i in iters ==> i.at == Created(old(i.at), j)
    {
      ghost var now := PutAt(was, j, p);
      for n := 0 to |iters|
        invariant forall m :: 0 <= m < n ==>
          IterAt(now, iters[m].pos, iters[m].prev, iters[m].at) && iters[m].at == Created(old(iters[m].at), j)
        invariant forall m :: n <= m < |iters| ==> unchanged(iters[m])
      {
        var i := iters[n];
        assert IterAt(was, i.pos, i.prev, i.at);
        CreateAdjusts(was, j, p, i.pos, i.prev, i.at);
        if i.prev == pp {
          i.prev := p;
        } else if i.pos == p.next {
          i.pos := p;
        }
        i.at := Created(i.at, j);
      }
    }

    /** list_node_create */
    method NodeCreate(pp: Node?, x: nat, ghost j: nat) returns (p: Node)
      requires Valid() && j <= |nodes| && pp == Slot(nodes, j)
      modifies this`head, this`tail, this`count, this`nodes, nodes, iters
      ensures Valid() && fresh(p) && p.data == x && nodes == PutAt(old(nodes), j, p)
      ensures forall i :: i in iters ==> i.at == Created(old(i.at), j)
    {
      ghost var was := nodes;
      p := LinkAt(pp, x, j);
      TellCreated(pp, p, was, j);
    }

    method UnlinkAt(pp: Node?, p: Node, ghost j: nat)
      requires Linked() && j < |nodes| && pp == Slot(nodes, j) && p == nodes[j]
      modifies this`head, this`tail, this`count, this`nodes, pp
      ensures Linked() && p.next == old(At(nodes, j + 1)) && nodes == TakeAt(old(nodes), j)
    {
      assert LinkOk(nodes, j);
      if p.next == null {
        tail := pp;
      }
      SlotsDiffer(nodes, j, j + 1);
      Store(pp, p.next, j);
      count := count - 1;
      TakeSeparate(nodes, j);
      TakeLinks(nodes, j);
      nodes := TakeAt(nodes, j);
    }

    method TellDestroyed(pp: Node?, p: Node, ghost was: seq<Node>, ghost j: nat)
      requires Separate(was) && j < |was| && pp == Slot(was, j) && p == was[j] && p.next == At(was, j + 1) && ItersAt(was)
      modifies iters
      ensures ItersAt(TakeAt(was, j)) && forall i :: i in iters ==> i.at == Destroyed(old(i.at), j)
    {
      for n := 0 to |iters|
        invariant forall m :: 0 <= m < n ==>
          IterAt(TakeAt(was, j), iters[m].pos, iters[m].prev, iters[m].at) && iters[m].at == Destroyed(old(iters[m].at), j)
        invariant forall m :: n <= m < |iters| ==> unchanged(iters[m])
      {
        assert forall m :: 0 <= m < |iters| && m != n ==> iters[m] != iters[n];
        TellOne(iters[n], pp, p, was, j);
      }
    }

    /** The adjustment of one iterator. */
    static method TellOne(i: Iter, pp: Node?, p: Node, ghost was: seq<Node>, ghost j: nat)
      requires Separate(was) && j < |was| && pp == Slot(was, j) && p == was[j] && p.next == At(was, j + 1)
      requires IterAt(was, i.pos, i.prev, i.at)
      modifies i
      ensures IterAt(TakeAt(was, j), i.pos, i.prev, i.at) && i.at == Destroyed(old(i.at), j)
    {
      DestroyAdjusts(was, j, i.pos, i.prev, i.at);
      if i.pos == p {
        i.pos, i.prev := p.next, pp;
      } else if i.prev == p {
        i.prev := pp;
      }
      i.at := Destroyed(i.at, j);
    }

    /** list_node_destroy */
    method NodeDestroy(pp: Node?, ghost j: nat) returns (v: Option<nat>)
      requires Valid() && j <= |nodes| && pp == Slot(nodes, j)
      modifies this`head, this`tail, this`count, this`nodes, nodes, iters
      ensures Valid()
      ensures j == |old(nodes)| ==> v == None && nodes == old(nodes) && forall i :: i in iters ==> i.at == old(i.at)
      ensures j < |old(nodes)| ==> v == Some(old(nodes)[j].data) && nodes == TakeAt(old(nodes), j)
      ensures j < |old(nodes)| ==> forall i :: i in iters ==> i.at == Destroyed(old(i.at), j)
    {
      SlotHolds(j);
      var p := Deref(pp);
      if p == null {
        return None;
      }
      ghost var was := nodes;
      UnlinkAt(pp, p, j);
      TellDestroyed(pp, p, was, j);
      v := Some(p.data);
    }

    // ---- the list ----

    /** list_append and list_enqueue */
    method Append(x: nat) returns (p: Node)
      requires Valid()
      modifies this`head, this`tail, this`count, this`nodes, nodes, iters
      ensures Valid() && p.data == x && nodes == old(nodes) + [p]
      ensures forall i :: i in iters ==> i.at == Created(old(i.at), |old(nodes)|)
    {
      p := NodeCreate(tail, x, |nodes|);
    }

    /** list_prepend and list_push */
    method Push(x: nat) returns (p: Node)
      requires Valid()
      modifies this`head, this`tail, this`count, this`nodes, nodes, iters
      ensures Valid() && p.data == x && nodes == [p] + old(nodes)
      ensures forall i :: i in iters ==> i.at == Created(old(i.at), 0)
    {
      p := NodeCreate(null, x, 0);
    }

    /** list_pop and list_dequeue */
    method Pop() returns (v: Option<nat>)
      requires Valid()
      modifies this`head, this`tail, this`count, this`nodes, nodes, iters
      ensures Valid()
      ensures old(nodes) == [] ==> v == None && nodes == []
      ensures old(nodes) != [] ==> v == Some(old(nodes)[0].data) && nodes == old(nodes)[1..]
      ensures old(nodes) != [] ==> forall i :: i in iters ==> i.at == Destroyed(old(i.at), 0)
    {
      v := NodeDestroy(null, 0);
    }

    // ---- iterators ----

    method IteratorCreate() returns (i: Iter)
      requires Valid()
      modifies this`iters
      ensures Valid() && fresh(i) && iters == [i] + old(iters) && i.at == Cursor(0, 0)
    {
      i := new Iter(head);
      iters := [i] + iters;
    }

    method IteratorReset(i: Iter)
      requires Valid() && i in iters
      modifies i
      ensures Valid() && i.at == Cursor(0, 0)
    {
      i.pos, i.prev := head, null;
      i.at := Cursor(0, 0);
    }

    /** list_next */
    method Next(i: Iter) returns (v: Option<nat>)
      requires Valid() && i in iters
      modifies i
      ensures Valid() && i.at == Advanced(old(i.at), |nodes|)
      ensures v == if old(i.at.k + i.at.d) < |nodes| then Some(nodes[old(i.at.k + i.at.d)].data) else None
    {
      SlotHolds(i.at.k);
      assert LinkOk(nodes, i.at.k + i.at.d);
      NextAdjusts(nodes, i.pos, i.prev, i.at);
      var p := i.pos;
      if p != null {
        i.pos := p.next;
      }
      if Deref(i.prev) != p {
        i.prev := Deref(i.prev);
      }
      i.at := Advanced(i.at, |nodes|);
      v := if p != null then Some(p.data) else None;
    }

    /** list_insert: before the node last returned */
    method Insert(i: Iter, x: nat) returns (p: Node)
      requires Valid() && i in iters
      modifies this`head, this`tail, this`count, this`nodes, nodes, iters
      ensures Valid() && p.data == x && nodes == PutAt(old(nodes), old(i.at.k), p)
      ensures forall m :: m in iters ==> m.at == Created(old(m.at), old(i.at.k))
    {
      p := NodeCreate(i.prev, x, i.at.k);
    }

    /** list_remove: the node last returned, once */
    method Remove(i: Iter) returns (v: Option<nat>)
      requires Valid() && i in iters
      modifies this`head, this`tail, this`count, this`nodes, nodes, iters
      ensures Valid()
      ensures old(i.at.d) == 0 ==> v == None && nodes == old(nodes) && forall m :: m in iters ==> m.at == old(m.at)
      ensures old(i.at.d) == 1 ==> v == Some(old(nodes)[old(i.at.k)].data) && nodes == TakeAt(old(nodes), old(i.at.k))
      ensures old(i.at.d) == 1 ==> forall m :: m in iters ==> m.at == Destroyed(old(m.at), old(i.at.k))
    {
      SlotHolds(i.at.k);
      SlotsDiffer(nodes, i.at.k, i.at.k + i.at.d);
      v := None;
      if Deref(i.prev) != i.pos {
        v := NodeDestroy(i.prev, i.at.k);
      }
    }

    // ---- list_sort ----

    /** The inner loop: the first slot whose node is greater than `p`. */
    method FindPlace(p: Node, f: Cmp, ghost m: nat) returns (ppPos: Node?, ghost q: nat)
      requires Chain() && 0 < m < |nodes| && p == nodes[m] && Less(f, p.data, nodes[m - 1].data)
      ensures q < m && ppPos == Slot(nodes, q) && Place(nodes, Key, f, m, q)
    {
      ppPos, q := null, 0;
      SlotHolds(0);
      while f(p.data, Deref(ppPos).data) >= 0
        invariant q < m && ppPos == Slot(nodes, q) && Deref(ppPos) == nodes[q]
        invariant forall i :: 0 <= i < q ==> !Less(f, p.data, nodes[i].data)
        decreases m - q
      {
        ppPos := Deref(ppPos);
        q := q + 1;
        SlotHolds(q);
      }
    }

    /** Node `m` is unlinked and linked in slot `q`. */
    method MoveNode(pp: Node, ppPos: Node?, ghost m: nat, ghost q: nat)
      requires Chain() && q < m < |nodes| && pp == nodes[m - 1] && ppPos == Slot(nodes, q)
      modifies this`head, this`nodes, nodes
      ensures Chain() && nodes == Move(old(nodes), m, q)
    {
      SlotHolds(q);
      assert LinkOk(nodes, m - 1) && LinkOk(nodes, m);
      SlotsDiffer(nodes, q, m);
      SlotsDiffer(nodes, q, m + 1);
      SlotsDiffer(nodes, m, m + 1);
      var p := pp.next;
      var pTmp := p.next;
      p.next := Deref(ppPos);
      if ppPos == null {
        head := p;
      } else {
        ppPos.next := p;
      }
      pp.next := pTmp;
      forall i | i != q - 1 && i != m - 1 && i != m ensures LinkOk(nodes, i) {
        assert old(LinkOk(nodes, i));
        if 0 <= i < |nodes| {
          SlotsDiffer(nodes, i + 1, q);
          SlotsDiffer(nodes, i + 1, m);
          SlotsDiffer(nodes, i + 1, m + 1);
        }
      }
      MoveLinks(nodes, m, q);
      MoveSeparate(nodes, m, q);
      nodes := Move(nodes, m, q);
    }

    /** What holds of the nodes while the first `m` are sorted. */
    ghost predicate Sorting(was: seq<Node>, f: Cmp, m: nat)
      reads this, nodes
    {
      && Chain() && m <= |nodes| == |was| && SortedTo(nodes, Key, f, m) && StableOf(was, nodes, Key, f)
      && multiset(nodes) == multiset(was)
    }

    /** Node `m` goes back to its place among those before it. */
    method MoveBack(pp: Node, p: Node, f: Cmp, ghost m: nat, ghost was: seq<Node>) returns (ppPos: Node?, ghost q: nat)
      requires Ordered(f) && Sorting(was, f, m) && 0 < m < |nodes| && pp == nodes[m - 1] && p == nodes[m]
      requires Less(f, p.data, pp.data)
      modifies this`head, this`nodes, nodes
      ensures q < m && nodes == Move(old(nodes), m, q) && ppPos == Slot(old(nodes), q) && Sorting(was, f, m + 1)
    {
      ppPos, q := FindPlace(p, f, m);
      MoveSorts(nodes, Key, f, m, q);
      MoveStable(was, nodes, Key, f, m, q);
      MovePermutes(nodes, m, q);
      MoveNode(pp, ppPos, m, q);
    }

    /** The outer loop's body. */
    method SortStep(ppPrev: Node?, pp: Node, f: Cmp, ghost m: nat, ghost was: seq<Node>) returns (ppPrev': Node?, pp': Node)
      requires Ordered(f) && Sorting(was, f, m) && 0 < m < |nodes| && ppPrev == Slot(nodes, m - 1) && pp == nodes[m - 1]
      modifies this`head, this`nodes, nodes
      ensures Sorting(was, f, m + 1) && ppPrev' == Slot(nodes, m) && pp' == nodes[m]
    {
      assert LinkOk(nodes, m - 1);
      SlotHolds(m - 1);
      var p := pp.next;
      if f(p.data, Deref(ppPrev).data) < 0 {
        ghost var before := nodes;
        var ppPos, q := MoveBack(pp, p, f, m, was);
        SlotsDiffer(before, m - 1, q);
        MovedSlots(before, m, q);
        SlotHolds(m - 1);
        ppPrev', pp' := if ppPrev == ppPos then Deref(ppPrev) else ppPrev, pp;
      } else {
        StayPut(nodes, f, m);
        ppPrev', pp' := pp, p;
      }
    }

    /** list_sort; every iterator starts over. */
    method Sort(f: Cmp)
      requires Valid() && Ordered(f)
      modifies this`head, this`tail, this`nodes, nodes, iters
      ensures Valid() && SortedTo(nodes, Key, f, |nodes|) && StableOf(old(nodes), nodes, Key, f)
      ensures multiset(nodes) == multiset(old(nodes))
      ensures |nodes| > 1 ==> forall i :: i in iters ==> i.at == Cursor(0, 0)
    {
      if count > 1 {
        ghost var was := nodes;
        SlotHolds(0);
        var ppPrev, pp: Node := null, head;
        ghost var m := 1;
        SlotHolds(1);
        while pp.next != null
          invariant Sorting(was, f, m) && 0 < m <= |nodes|
          invariant ppPrev == Slot(nodes, m - 1) && pp == nodes[m - 1] && pp.next == At(nodes, m)
          invariant forall i :: 0 <= i < |nodes| ==> nodes[i] in old(nodes)
          invariant iters == old(iters) && count == old(count)
          decreases |nodes| - m
        {
          ppPrev, pp := SortStep(ppPrev, pp, f, m, was);
          m := m + 1;
          SlotHolds(m);
          SameMembers(nodes, was);
        }
        tail := pp;
        ResetAll();
      }
    }

    method ResetAll()
      requires Linked() && Distinct(iters)
      modifies iters
      ensures ItersAt(nodes) && forall i :: i in iters ==> i.at == Cursor(0, 0)
    {
      for n := 0 to |iters|
        invariant forall m :: 0 <= m < n ==> IterAt(nodes, iters[m].pos, iters[m].prev, iters[m].at) && iters[m].at == Cursor(0, 0)
      {
        var i := iters[n];
        i.pos, i.prev := head, null;
        i.at := Cursor(0, 0);
      }
    }
  }

  /** A node not less than the last sorted one is in its place. */
  lemma StayPut(nodes: seq<Node>, f: Cmp, m: nat)
    requires Ordered(f) && 0 < m < |nodes| && SortedTo(nodes, Key, f, m) && !Less(f, nodes[m].data, nodes[m - 1].data)
    ensures SortedTo(nodes, Key, f, m + 1)
  {
    forall i, j | j < m + 1 ensures Pair(nodes, Key, f, i, j) {
      if j < m {
        assert Pair(nodes, Key, f, i, j);
      } else if j == m && 0 <= i < m - 1 {
        assert Pair(nodes, Key, f, i, m - 1);
      }
    }
  }

  lemma SameMembers(a: seq<Node>, b: seq<Node>)
    requires multiset(a) == multiset(b)
    ensures forall n :: n in a ==> n in b
  {
    forall n | n in a ensures n in b {
      assert n in multiset(a);
    }
  }
}
