/** The client's allocator of tags and fid numbers: a bitmap that is searched, grown and cleared in place. */
module IdPool {
  import opened Common

  /** The last entry of each of the 32 rows of the table m2id. */
  function LastInRow(r: bv8): nat {
    match r
    case 0 => 3 case 1 => 4 case 2 => 3 case 3 => 5 case 4 => 3 case 5 => 4 case 6 => 3 case 7 => 6
    case 8 => 3 case 9 => 4 case 10 => 3 case 11 => 5 case 12 => 3 case 13 => 4 case 14 => 3 case 15 => 7
    case 16 => 3 case 17 => 4 case 18 => 3 case 19 => 5 case 20 => 3 case 21 => 4 case 22 => 3 case 23 => 6
    case 24 => 3 case 25 => 4 case 26 => 3 case 27 => 5 case 28 => 3 case 29 => 4 case 30 => 3 case _ => 0
  }

  /** The table m2id, by rows of eight; they differ only in their last entry. */
  function M2id(b: bv8): nat {
    match b & 7
    case 0 => 0 case 1 => 1 case 2 => 0 case 3 => 2 case 4 => 0 case 5 => 1 case 6 => 0 case _ => LastInRow(b >> 3)
  }

  /** 1 << k */
  function Mask(k: nat): bv8 {
    match k
    case 0 => 1 case 1 => 2 case 2 => 4 case 3 => 8 case 4 => 16 case 5 => 32 case 6 => 64 case _ => 128
  }

  predicate Bit(b: bv8, k: nat) {
    b & Mask(k) != 0
  }

  /** The table gives the lowest clear bit of every byte that has one. */
  lemma LowestClear(b: bv8, k: nat)
    requires b != 0xFF
    ensures M2id(b) < 8 && !Bit(b, M2id(b)) && (k < M2id(b) ==> Bit(b, k))
  {
  }

  lemma SetBit(b: bv8, k: nat, j: nat)
    requires k < 8 && j < 8
    ensures Bit(b | Mask(k), j) <==> j == k || Bit(b, j)
  {
  }

  lemma ClearBit(b: bv8, k: nat, j: nat)
    requires k < 8 && j < 8
    ensures Bit(b & !Mask(k), j) <==> j != k && Bit(b, j)
  {
  }

  lemma FullByte(j: nat)
    ensures Bit(0xFF, j) && !Bit(0, j)
  {
  }

  // ---- the ids a bitmap stands for ----

  predicate Taken(bits: seq<bv8>, id: nat) {
    id / 8 < |bits| && Bit(bits[id / 8], id % 8)
  }

  ghost function Ids(bits: seq<bv8>): set<nat> {
    set id: nat | id < 8 * |bits| && Taken(bits, id)
  }

  /** A byte whose bit `k` alone changes adds an id or takes it away. */
  lemma BitAdds(bits: seq<bv8>, more: seq<bv8>, i: nat, k: nat)
    requires i < |bits| && k < 8 && |more| == |bits| && (forall j :: 0 <= j < |bits| && j != i ==> more[j] == bits[j])
    requires forall j: nat :: j < 8 ==> (Bit(more[i], j) <==> j == k || Bit(bits[i], j))
    ensures Ids(more) == Ids(bits) + {8 * i + k}
  {
    forall id: nat | id < 8 * |bits| ensures Taken(more, id) <==> id == 8 * i + k || Taken(bits, id) {
    }
  }

  lemma BitTakes(bits: seq<bv8>, fewer: seq<bv8>, i: nat, k: nat)
    requires i < |bits| && k < 8 && |fewer| == |bits| && (forall j :: 0 <= j < |bits| && j != i ==> fewer[j] == bits[j])
    requires forall j: nat :: j < 8 ==> (Bit(fewer[i], j) <==> j != k && Bit(bits[i], j))
    ensures Ids(fewer) == Ids(bits) - {8 * i + k}
  {
    forall id: nat | id < 8 * |bits| ensures Taken(fewer, id) <==> id != 8 * i + k && Taken(bits, id) {
    }
  }

  /** Zero bytes hold no id. */
  lemma GrowthKeepsIds(bits: seq<bv8>, more: seq<bv8>)
    requires forall i :: 0 <= i < |more| ==> more[i] == 0
    ensures Ids(bits + more) == Ids(bits)
  {
    forall id: nat | id < 8 * |bits + more| ensures Taken(bits + more, id) <==> id < 8 * |bits| && Taken(bits, id) {
      FullByte(id % 8);
    }
  }

  ghost predicate FullBelow(bits: seq<bv8>, i: nat) {
    forall id: nat {:trigger Taken(bits, id)} :: id < 8 * i ==> Taken(bits, id)
  }

  lemma FullByteTaken(bits: seq<bv8>, i: nat)
    requires i < |bits| && bits[i] == 0xFF && FullBelow(bits, i)
    ensures FullBelow(bits, i + 1)
  {
    forall id: nat | id < 8 * (i + 1) ensures Taken(bits, id) {
      FullByte(id % 8);
    }
  }

  /** The id in the first byte that is not full is the smallest one free. */
  lemma FirstFree(bits: seq<bv8>, i: nat)
    requires i < |bits| && bits[i] != 0xFF && FullBelow(bits, i)
    ensures M2id(bits[i]) < 8
    ensures !Taken(bits, 8 * i + M2id(bits[i]))
    ensures forall j: nat :: j < 8 * i + M2id(bits[i]) ==> j in Ids(bits)
  {
    LowestClear(bits[i], 0);
    forall j: nat | j < 8 * i + M2id(bits[i]) ensures j in Ids(bits) {
      LowestClear(bits[i], j % 8);
    }
  }

  // ---- how far the bitmap grows ----

  /** The number of ids there can ever be. */
  function Limit(maxid: nat): nat {
    if maxid <= 256 then 256 else if maxid % 256 == 0 then maxid else (maxid / 8 + 1) * 8
  }

  predicate SizeOk(maxid: nat, msize: nat) {
    msize >= 32 && 8 * msize <= Limit(maxid) && (8 * msize == Limit(maxid) || msize % 32 == 0)
  }

  function Grown(maxid: nat, msize: nat): nat {
    if (msize + 32) * 8 > maxid then maxid / 8 + 1 else msize + 32
  }

  lemma GrowthBounded(maxid: nat, msize: nat)
    requires SizeOk(maxid, msize)
    ensures msize * 8 < maxid ==> SizeOk(maxid, Grown(maxid, msize)) && Grown(maxid, msize) > msize
    ensures msize * 8 >= maxid ==> 8 * msize == Limit(maxid)
  {
    var a, q := msize / 32, maxid / 8;
    assert maxid <= Limit(maxid) && 8 * q <= maxid < 8 * (q + 1);
    if msize % 32 == 0 {
      assert 8 * msize == 256 * a;
      Multiples(a, maxid - 256 * a);
    }
  }

  lemma Multiples(a: nat, d: int)
    ensures (256 * a) % 256 == 0 && (0 < d < 256 ==> (256 * a + d) % 256 == d)
  {
  }

  /** No id exceeds `maxid` for exactly these values of it. */
  lemma IdsWithinMaxid(maxid: nat)
    ensures Limit(maxid) <= maxid + 1 <==> maxid >= 255 && (maxid % 8 == 7 || maxid % 256 == 0)
  {
  }

  class Npcpool {
    const maxid: nat
    var bits: array<bv8>

    ghost predicate Valid()
      reads this, bits
    {
      SizeOk(maxid, bits.Length)
    }

    /** The ids handed out and not yet returned. */
    ghost function Outstanding(): set<nat>
      reads this, bits
    {
      Ids(bits[..])
    }

    /** npc_create_pool */
    constructor (maxid: nat)
      ensures Valid() && this.maxid == maxid && fresh(bits) && Outstanding() == {}
    {
      this.maxid := maxid;
      bits := new bv8[32](_ => 0);
      new;
      GrowthKeepsIds([], bits[..]);
      assert [] + bits[..] == bits[..];
    }

    method FirstNotFull() returns (i: nat)
      ensures i <= bits.Length && FullBelow(bits[..], i)
      ensures i < bits.Length ==> bits[i] != 0xFF
    {
      i := 0;
      while i < bits.Length && bits[i] == 0xFF
        invariant 0 <= i <= bits.Length && FullBelow(bits[..], i)
      {
        FullByteTaken(bits[..], i);
        i := i + 1;
      }
    }

    /** realloc and memset */
    method Grow(n: nat)
      requires n >= bits.Length
      modifies this
      ensures fresh(bits) && bits.Length == n
      ensures bits[..old(bits.Length)] == old(bits[..]) && forall j :: old(bits.Length) <= j < n ==> bits[j] == 0
      ensures Outstanding() == old(Outstanding())
    {
      var pt := new bv8[n](_ => 0);
      for i := 0 to bits.Length
        modifies pt
        invariant pt[..i] == bits[..i] && forall j :: i <= j < n ==> pt[j] == 0
      {
        pt[i] := bits[i];
      }
      GrowthKeepsIds(bits[..], pt[bits.Length..]);
      assert pt[..] == bits[..] + pt[bits.Length..];
      bits := pt;
    }

    method MarkBit(i: nat, k: nat)
      requires i < bits.Length && k < 8
      modifies bits
      ensures Outstanding() == old(Outstanding()) + {8 * i + k}
    {
      ghost var was := bits[..];
      var b := bits[i] | Mask(k);
      forall j: nat | j < 8 ensures Bit(b, j) <==> j == k || Bit(was[i], j) { SetBit(was[i], k, j); }
      bits[i] := b;
      BitAdds(was, bits[..], i, k);
    }

    /** The lowest free id of the first byte that has one. */
    method TakeIn(i: nat) returns (id: nat)
      requires i < bits.Length && bits[i] != 0xFF && FullBelow(bits[..], i)
      modifies bits
      ensures id < 8 * bits.Length && id !in old(Outstanding()) && Outstanding() == old(Outstanding()) + {id}
      ensures forall j: nat :: j < id ==> j in old(Outstanding())
    {
      FirstFree(bits[..], i);
      id := M2id(bits[i]);
      MarkBit(i, id);
      id := id + i * 8;
    }

    method ClearBitOf(i: nat, k: nat)
      requires i < bits.Length && k < 8
      modifies bits
      ensures Outstanding() == old(Outstanding()) - {8 * i + k}
    {
      ghost var was := bits[..];
      var b := bits[i] & !Mask(k);
      forall j: nat | j < 8 ensures Bit(b, j) <==> j != k && Bit(was[i], j) { ClearBit(was[i], k, j); }
      bits[i] := b;
      BitTakes(was, bits[..], i, k);
    }

    /**
      npc_get_id: the smallest id that is not outstanding.  Without one the caller waits; that
      is None here, and with memory to be had it means that every possible id is outstanding.
    */
    method GetId(mem: bool) returns (r: Option<nat>)
      requires Valid()
      modifies this, bits
      ensures Valid() && (bits == old(bits) || fresh(bits))
      ensures r.Some? ==> r.value !in old(Outstanding()) && Outstanding() == old(Outstanding()) + {r.value}
      ensures r.Some? ==> r.value < Limit(maxid) && forall j: nat :: j < r.value ==> j in old(Outstanding())
      ensures r.None? ==> Outstanding() == old(Outstanding()) && bits == old(bits)
      ensures r.None? ==> forall j: nat :: j < 8 * bits.Length ==> j in Outstanding()
      ensures r.None? && mem ==> 8 * bits.Length == Limit(maxid)
    {
      var i := FirstNotFull();
      GrowthBounded(maxid, bits.Length);
      if i >= bits.Length && bits.Length * 8 < maxid && mem {
        var n := bits.Length + 32;
        if n * 8 > maxid {
          n := maxid / 8 + 1;
        }
        ghost var was := bits[..];
        Grow(n);
        FullCarries(was, bits[..], i);
      }
      if i >= bits.Length {
        return None;
      }
      var id := TakeIn(i);
      r := Some(id);
    }

    /** npc_put_id; the id must be one the bitmap has room for. */
    method PutId(id: nat)
      requires Valid() && id < 8 * bits.Length
      modifies bits
      ensures Valid() && Outstanding() == old(Outstanding()) - {id}
    {
      ClearBitOf(id / 8, id % 8);
    }
  }

  lemma FullCarries(bits: seq<bv8>, longer: seq<bv8>, i: nat)
    requires i <= |bits| <= |longer| && longer[..|bits|] == bits && FullBelow(bits, i)
    ensures FullBelow(longer, i)
  {
    forall id: nat | id < 8 * i ensures Taken(longer, id) {
      assert Taken(bits, id);
      assert longer[id / 8] == longer[..|bits|][id / 8];
    }
  }
}
