/**
  The fid table of a connection and the references to its fids.

  `held` registers every reference: the pointer of a request, the second fid a handler has looked
  up, the fid a walk has just made, and the reference a client has until it clunks.  The counts
  are kept by the code alone; that they agree with the register is what is proved.  The last
  np_fid_decref and the unlinking that follows are one step.
*/
module Fids {
  import opened Common

  type Id = nat
  type ReqId = nat

  const HTABLE_SIZE: nat := 64

  datatype Fid = Fid(num: nat, refs: int, zombie: bool)

  datatype Holder =
    | ByReq(r: ReqId)       // req->fid
    | ByTemp(r: ReqId)      // afid of Tattach, dfid of Trename, and the like
    | ByNew(r: ReqId)       // newfid of Twalk, attrfid of Txattrwalk
    | ByClient(id: Id)

  datatype Table = Table(
    live: map<Id, Fid>,
    buckets: seq<seq<Id>>,
    held: map<Holder, Id>,
    created: set<Id>,
    log: seq<Id>)           // destroyed fids, in order

  /** np_fidpool_create. */
  function Empty(): Table {
    Table(map[], seq(HTABLE_SIZE, i => []), map[], {}, [])
  }

  function Hash(num: nat): (h: nat)
    ensures h < HTABLE_SIZE
  {
    num % HTABLE_SIZE
  }

  // ---- the operations of fidpool.c ----

  predicate Matches(t: Table, id: Id, num: nat) {
    id in t.live && t.live[id].num == num && !t.live[id].zombie
  }

  /** The loop of _lookup_fid. */
  function Find(t: Table, bucket: seq<Id>, num: nat): (r: Option<Id>)
    ensures r.Some? ==> r.value in bucket && Matches(t, r.value, num)
    ensures r.None? ==> forall id :: id in bucket ==> !Matches(t, id, num)
  {
    if bucket == [] then None
    else if Matches(t, bucket[0], num) then Some(bucket[0])
    else Find(t, bucket[1..], num)
  }

  function Lookup(t: Table, num: nat): (r: Option<Id>) {
    if |t.buckets| == HTABLE_SIZE then Find(t, t.buckets[Hash(num)], num) else None
  }

  function SetBucket(t: Table, h: nat, b: seq<Id>): Table {
    if h < |t.buckets| then t.(buckets := t.buckets[h := b]) else t
  }

  /** _lookup_fid moves what it finds to the head of its bucket. */
  function Touch(t: Table, num: nat): Table {
    var f := Lookup(t, num);
    if f.None? then t
    else SetBucket(t, Hash(num), [f.value] + Without(t.buckets[Hash(num)], f.value))
  }

  function Incref(t: Table, id: Id): Table
    requires id in t.live
  {
    t.(live := t.live[id := t.live[id].(refs := t.live[id].refs + 1)])
  }

  /** np_fid_decref: the last reference unlinks and destroys. */
  function Decref(t: Table, id: Id): Table
    requires id in t.live
  {
    var f := t.live[id];
    if f.refs == 1 && Hash(f.num) < |t.buckets| then
      SetBucket(t, Hash(f.num), Without(t.buckets[Hash(f.num)], id)).(live := t.live - {id}, log := t.log + [id])
    else t.(live := t.live[id := f.(refs := f.refs - 1)])
  }

  /** Marks a fid, so that its number can be used again. */
  function Bury(t: Table, id: Id): Table
    requires id in t.live
  {
    t.(live := t.live[id := t.live[id].(zombie := true)])
  }

  /** _create_fid, np_fid_incref and _link_fid. */
  function Link(t: Table, num: nat, id: Id): Table {
    var b := if Hash(num) < |t.buckets| then t.buckets[Hash(num)] else [];
    SetBucket(t, Hash(num), [id] + b).(live := t.live[id := Fid(num, 1, false)], created := t.created + {id})
  }

  /** np_fid_find for a pointer `h`. */
  function FindFid(t: Table, num: nat, h: Holder): Table {
    var f := Lookup(t, num);
    var t1 := Touch(t, num);
    if f.Some? && f.value in t1.live then Incref(t1, f.value).(held := t1.held[h := f.value]) else t1
  }

  /** Whether np_fid_create succeeds. */
  predicate CanCreate(t: Table, num: nat, loose: bool) {
    loose || Lookup(t, num).None?
  }

  /** np_fid_create for a pointer `h`. */
  function CreateFid(t: Table, num: nat, loose: bool, id: Id, h: Holder): Table {
    var f := Lookup(t, num);
    var t1 := Touch(t, num);
    if !CanCreate(t, num, loose) then t1
    else
      var t2 := if f.Some? && f.value in t1.live then Bury(t1, f.value) else t1;
      Link(t2, num, id).(held := t2.held[h := id])
  }

  /** np_fid_decref of the pointer `h`. */
  function Release(t: Table, h: Holder): Table {
    if h in t.held && t.held[h] in t.live then Decref(t.(held := t.held - {h}), t.held[h])
    else t.(held := t.held - {h})
  }

  /** np_fid_incref for a new pointer `h` to the fid of `from`. */
  function Share(t: Table, from: Holder, h: Holder): Table {
    if from in t.held && t.held[from] in t.live then
      Incref(t, t.held[from]).(held := t.held[h := t.held[from]])
    else t
  }

  /** A reference changes hands; no count changes. */
  function Pass(t: Table, from: Holder, to: Holder): Table {
    if from in t.held then t.(held := (t.held - {from})[to := t.held[from]]) else t
  }

  /** newfid->flags = fid->flags, as far as the table sees it. */
  function CopyFlags(t: Table, from: Id, to: Id): Table {
    if from in t.live && to in t.live
    then t.(live := t.live[to := t.live[to].(zombie := t.live[from].zombie)]) else t
  }

  /** np_fid_decref_bynum: drops a reference without saying whose. */
  function DecrefByNum(t: Table, num: nat): Table {
    var f := Lookup(t, num);
    var t1 := Touch(t, num);
    if f.Some? && f.value in t1.live then Decref(t1, f.value) else t1
  }

  // ---- what every operation keeps ----

  ghost function Holders(held: map<Holder, Id>, id: Id): set<Holder> {
    set h | h in held && held[h] == id
  }

  /** The count of a fid is the number of its holders, and it has one. */
  ghost predicate Counted(t: Table, id: Id) {
    && (id in t.live ==> t.live[id].refs == |Holders(t.held, id)| > 0 && id in t.created)
    && (id in t.log <==> id in t.created && id !in t.live)
  }

  ghost predicate HolderOk(t: Table, h: Holder) {
    h in t.held ==> t.held[h] in t.live && (h.ByClient? ==> t.held[h] == h.id)
  }

  /** A bucket lists the live fids that hash to it, each once. */
  ghost predicate BucketOk(t: Table, h: nat) {
    h < |t.buckets| ==>
      && Distinct(t.buckets[h])
      && forall id :: id in t.buckets[h] <==> id in t.live && Hash(t.live[id].num) == h
  }

  /** At most one fid of a number is not a zombie. */
  ghost predicate Single(t: Table, id: Id) {
    forall k :: k in t.live && id in t.live && t.live[k].num == t.live[id].num && !t.live[k].zombie && !t.live[id].zombie
                ==> k == id
  }

  ghost predicate TableOk(t: Table) {
    && |t.buckets| == HTABLE_SIZE && Distinct(t.log)
    && (forall id {:trigger Counted(t, id)} :: Counted(t, id))
    && (forall h {:trigger HolderOk(t, h)} :: HolderOk(t, h))
    && (forall h: nat {:trigger BucketOk(t, h)} :: BucketOk(t, h))
    && (forall id {:trigger Single(t, id)} :: Single(t, id))
  }

  /** Looking up a number finds the one fid of that number that is not a zombie, whatever the
      order of the bucket. */
  lemma LookupFinds(t: Table, num: nat, id: Id)
    requires TableOk(t)
    ensures Lookup(t, num) == Some(id) <==> Matches(t, id, num)
  {
    assert BucketOk(t, Hash(num));
    var f := Lookup(t, num);
    if Matches(t, id, num) && f.Some? {
      assert Single(t, id) && Matches(t, f.value, num);
    }
  }

  /** No fid is new, and none changes its number or becomes a zombie. */
  ghost predicate Frame(t: Table, u: Table) {
    && u.created == t.created
    && (forall id :: id in u.live ==>
          id in t.live && u.live[id].num == t.live[id].num && u.live[id].zombie == t.live[id].zombie)
    && (forall id, n :: Matches(u, id, n) ==> Matches(t, id, n))
  }

  lemma EmptyOk()
    ensures TableOk(Empty())
  {
  }

  lemma TouchKeeps(t: Table, num: nat)
    requires TableOk(t)
    ensures TableOk(Touch(t, num))
    ensures Touch(t, num) == t.(buckets := Touch(t, num).buckets)
    ensures forall n :: Lookup(Touch(t, num), n) == Lookup(t, n)
  {
    var u := Touch(t, num);
    var f := Lookup(t, num);
    if f.Some? {
      assert BucketOk(t, Hash(num));
      WithoutMembers(t.buckets[Hash(num)], f.value);
      forall id ensures Counted(u, id) { assert Counted(t, id); }
      forall h ensures HolderOk(u, h) { assert HolderOk(t, h); }
      forall h: nat ensures BucketOk(u, h) { assert BucketOk(t, h); }
      forall id ensures Single(u, id) { assert Single(t, id); }
    }
    forall n ensures Lookup(u, n) == Lookup(t, n) {
      if Lookup(u, n).Some? {
        LookupFinds(u, n, Lookup(u, n).value);
        LookupFinds(t, n, Lookup(u, n).value);
      }
      if Lookup(t, n).Some? {
        LookupFinds(u, n, Lookup(t, n).value);
        LookupFinds(t, n, Lookup(t, n).value);
      }
    }
  }

  lemma IncrefKeeps(t: Table, id: Id, h: Holder)
    requires TableOk(t) && id in t.live && h !in t.held && (h.ByClient? ==> h.id == id)
    ensures TableOk(Incref(t, id).(held := t.held[h := id]))
  {
    var u := Incref(t, id).(held := t.held[h := id]);
    forall x ensures Counted(u, x) {
      assert Counted(t, x);
      assert Holders(u.held, x) == Holders(t.held, x) + if x == id then {h} else {};
    }
    forall g ensures HolderOk(u, g) { assert HolderOk(t, g); }
    forall b: nat ensures BucketOk(u, b) { assert BucketOk(t, b); }
    forall x ensures Single(u, x) { assert Single(t, x); }
  }

  lemma FindKeeps(t: Table, num: nat, h: Holder)
    requires TableOk(t) && h !in t.held && !h.ByClient?
    ensures TableOk(FindFid(t, num, h))
    ensures FindFid(t, num, h).live.Keys == t.live.Keys && Frame(t, FindFid(t, num, h))
    ensures Lookup(t, num).Some? ==> Matches(t, Lookup(t, num).value, num)
    ensures FindFid(t, num, h).held == if Lookup(t, num).Some? then t.held[h := Lookup(t, num).value] else t.held
  {
    TouchKeeps(t, num);
    if Lookup(t, num).Some? {
      IncrefKeeps(Touch(t, num), Lookup(t, num).value, h);
    }
  }

  lemma ShareKeeps(t: Table, from: Holder, h: Holder)
    requires TableOk(t) && from in t.held && h !in t.held && (h.ByClient? ==> h.id == t.held[from])
    ensures t.held[from] in t.live && TableOk(Share(t, from, h))
    ensures Frame(t, Share(t, from, h)) && Share(t, from, h).live.Keys == t.live.Keys
    ensures Share(t, from, h).held == t.held[h := t.held[from]]
  {
    assert HolderOk(t, from);
    IncrefKeeps(t, t.held[from], h);
  }

  lemma ReleaseKeeps(t: Table, h: Holder)
    requires TableOk(t) && h in t.held
    ensures TableOk(Release(t, h)) && Frame(t, Release(t, h)) && Release(t, h).held == t.held - {h}
    ensures t.held[h] in t.live
    ensures t.held[h] in Release(t, h).live <==> Holders(t.held, t.held[h]) != {h}
  {
    var id := t.held[h];
    assert HolderOk(t, h) && Counted(t, id);
    assert h in Holders(t.held, id) && Holders(t.held - {h}, id) == Holders(t.held, id) - {h};
    if t.live[id].refs == 1 {
      assert Holders(t.held, id) == {h} by {
        assert |Holders(t.held, id) - {h}| == 0;
      }
      DestroyKeeps(t, h);
    } else {
      LessKeeps(t, h);
      assert Holders(t.held, id) != {h};
    }
  }

  lemma LessKeeps(t: Table, h: Holder)
    requires TableOk(t) && h in t.held && t.held[h] in t.live && t.live[t.held[h]].refs != 1
    ensures TableOk(Release(t, h))
  {
    var id, u := t.held[h], Release(t, h);
    forall x ensures Counted(u, x) {
      assert Counted(t, x);
      assert Holders(u.held, x) == Holders(t.held, x) - if x == id then {h} else {};
    }
    forall g ensures HolderOk(u, g) { assert HolderOk(t, g); }
    forall b: nat ensures BucketOk(u, b) { assert BucketOk(t, b); }
    forall x ensures Single(u, x) { assert Single(t, x); }
  }

  lemma DestroyKeeps(t: Table, h: Holder)
    requires TableOk(t) && h in t.held && t.held[h] in t.live && Holders(t.held, t.held[h]) == {h}
    requires t.live[t.held[h]].refs == 1
    ensures TableOk(Release(t, h))
  {
    var id, u := t.held[h], Release(t, h);
    assert Counted(t, id) && BucketOk(t, Hash(t.live[id].num));
    WithoutMembers(t.buckets[Hash(t.live[id].num)], id);
    forall x ensures Counted(u, x) {
      assert Counted(t, x);
      assert x != id ==> Holders(u.held, x) == Holders(t.held, x);
    }
    forall g ensures HolderOk(u, g) {
      assert HolderOk(t, g);
      assert g in u.held && u.held[g] == id ==> g in Holders(t.held, id);
    }
    forall b: nat ensures BucketOk(u, b) { assert BucketOk(t, b); }
    forall x ensures Single(u, x) { assert Single(t, x); }
  }

  lemma PassKeeps(t: Table, from: Holder, to: Holder)
    requires TableOk(t) && from in t.held && to !in t.held && (to.ByClient? ==> to.id == t.held[from])
    ensures TableOk(Pass(t, from, to)) && Frame(t, Pass(t, from, to))
  {
    var id, u := t.held[from], Pass(t, from, to);
    forall x ensures Counted(u, x) {
      assert Counted(t, x);
      if x == id {
        assert Holders(u.held, x) == Holders(t.held, x) - {from} + {to};
        assert from in Holders(t.held, x) && to !in Holders(t.held, x);
      } else {
        assert Holders(u.held, x) == Holders(t.held, x);
      }
    }
    forall g ensures HolderOk(u, g) { assert HolderOk(t, g) && HolderOk(t, from); }
    forall b: nat ensures BucketOk(u, b) { assert BucketOk(t, b); }
    forall x ensures Single(u, x) { assert Single(t, x); }
  }

  /** Flags may change as long as no second fid of a number comes back to life. */
  lemma ZombieKeeps(t: Table, id: Id, zombie: bool)
    requires TableOk(t) && id in t.live
    requires zombie || !t.live[id].zombie || forall k :: k in t.live ==> !Matches(t, k, t.live[id].num)
    ensures TableOk(t.(live := t.live[id := t.live[id].(zombie := zombie)]))
  {
    var u := t.(live := t.live[id := t.live[id].(zombie := zombie)]);
    forall x ensures Counted(u, x) { assert Counted(t, x); }
    forall g ensures HolderOk(u, g) { assert HolderOk(t, g); }
    forall b: nat ensures BucketOk(u, b) { assert BucketOk(t, b); }
    forall x ensures Single(u, x) {
      assert Single(t, x);
      assert forall k :: k in u.live && k != id && Matches(u, k, t.live[id].num) ==> Matches(t, k, t.live[id].num);
    }
  }

  lemma LinkKeeps(t: Table, num: nat, id: Id, h: Holder)
    requires TableOk(t) && id !in t.created && h !in t.held && !h.ByClient?
    requires forall k :: k in t.live ==> !Matches(t, k, num)
    ensures TableOk(Link(t, num, id).(held := t.held[h := id]))
  {
    var u := Link(t, num, id).(held := t.held[h := id]);
    assert Counted(t, id);
    assert Holders(u.held, id) == {h} by {
      forall g | g in t.held ensures t.held[g] != id { assert HolderOk(t, g); }
    }
    forall x ensures Counted(u, x) {
      assert Counted(t, x);
      assert x != id ==> Holders(u.held, x) == Holders(t.held, x);
    }
    forall g ensures HolderOk(u, g) { assert HolderOk(t, g); }
    forall b: nat ensures BucketOk(u, b) { assert BucketOk(t, b); }
    forall x ensures Single(u, x) {
      assert Single(t, x);
      assert x in t.live ==> !Matches(t, x, num);
    }
  }

  lemma CreateKeeps(t: Table, num: nat, loose: bool, id: Id, h: Holder)
    requires TableOk(t) && id !in t.created && h !in t.held && !h.ByClient?
    ensures TableOk(CreateFid(t, num, loose, id, h))
    ensures CreateFid(t, num, loose, id, h).held == if CanCreate(t, num, loose) then t.held[h := id] else t.held
    ensures CreateFid(t, num, loose, id, h).live.Keys == t.live.Keys + if CanCreate(t, num, loose) then {id} else {}
    ensures CanCreate(t, num, loose) ==> Matches(CreateFid(t, num, loose, id, h), id, num)
    ensures CreateFid(t, num, loose, id, h).created == t.created + if CanCreate(t, num, loose) then {id} else {}
    ensures forall x, n :: Matches(CreateFid(t, num, loose, id, h), x, n) ==>
              Matches(t, x, n) || (x == id && n == num && CanCreate(t, num, loose))
    ensures forall x :: x in t.live ==>
              var f := CreateFid(t, num, loose, id, h).live[x];
              f.num == t.live[x].num && (t.live[x].zombie ==> f.zombie) && (f.num != num ==> f.zombie == t.live[x].zombie)
  {
    TouchKeeps(t, num);
    var f, t1 := Lookup(t, num), Touch(t, num);
    if CanCreate(t, num, loose) {
      var t2 := t1;
      if f.Some? {
        t2 := Bury(t1, f.value);
        ZombieKeeps(t1, f.value, true);
      }
      forall k | k in t2.live ensures !Matches(t2, k, num) {
        LookupFinds(t, num, k);
        LookupFinds(t, num, if f.Some? then f.value else k);
      }
      LinkKeeps(t2, num, id, h);
      assert Counted(t, id);
    }
  }

  /** np_fid_create refuses a number that leads to a fid, unless the server is told to be loose, and then no
      fid changes; else it makes the fid, and a fid of that number becomes a zombie. */
  lemma CreateExactly(t: Table, num: nat, loose: bool, id: Id, h: Holder)
    requires TableOk(t) && id !in t.created && h !in t.held && !h.ByClient?
    ensures var u := CreateFid(t, num, loose, id, h);
            if !loose && exists k :: Matches(t, k, num) then
              u.live == t.live && u.held == t.held && u.created == t.created && u.log == t.log
            else
              && u.held == t.held[h := id] && u.created == t.created + {id} && u.log == t.log
              && u.live.Keys == t.live.Keys + {id} && u.live[id] == Fid(num, 1, false)
              && forall x :: x in t.live ==> u.live[x] == t.live[x].(zombie := t.live[x].zombie || Matches(t, x, num))
  {
    TouchKeeps(t, num);
    assert Counted(t, id);
    var f := Lookup(t, num);
    if f.Some? {
      LookupFinds(t, num, f.value);
      forall x | x in t.live && x != f.value ensures !Matches(t, x, num) { LookupFinds(t, num, x); }
    } else {
      forall x ensures !Matches(t, x, num) { LookupFinds(t, num, x); }
    }
  }
}
