/**
 Where a Dash segment may keep a key, and how a home bucket accounts for its items in the stash.

 A segment is 64 regular buckets followed by 4 stash buckets. A key lives in its home bucket, in
 the bucket after it (marked probing), or in the stash, where the home bucket tracks it by a
 pointer or by its overflow counter.
 */
module Placement {
  import opened Common
  import opened Collect
  import opened Buckets

  const NUM_BUCKETS := 64
  const TOTAL_BUCKETS := 68

  function HomeOf(h: u64): (b: nat)
    ensures b < 64
  {
    ((h / 256) % 64) as nat
  }

  function FpOf(h: u64): byte { (h % 256) as byte }

  function NextOf(b: nat): (n: nat)
    requires b < 64
    ensures n < 64 && n != b
  {
    if b < 63 then b + 1 else 0
  }

  predicate Shape<K, V>(sv: seq<View<K, V>>) {
    |sv| == 68 && forall b :: 0 <= b < 68 ==> |sv[b].slots| == 12 && |sv[b].ptrs| == 4
  }

  predicate TakenAt<K, V>(sv: seq<View<K, V>>, b: int, s: int)
    requires Shape(sv)
  {
    0 <= b < 68 && 0 <= s < 12 && sv[b].slots[s].Taken?
  }

  /** Whether a key hashing to `h` may sit in bucket `b` under that ownership mark. */
  predicate MayHold(h: u64, b: nat, probing: bool) {
    if b >= 64 then !probing
    else if probing then b == NextOf(HomeOf(h))
    else b == HomeOf(h)
  }

  ghost predicate Placed<K(!new), V(!new)>(sv: seq<View<K, V>>, hash: K -> u64)
    requires Shape(sv)
  {
    forall b, s :: TakenAt(sv, b, s) ==>
      var t := sv[b].slots[s]; t.fp == FpOf(hash(t.key)) && MayHold(hash(t.key), b, t.probing)
  }

  // ---- Contents ----

  ghost function SlotItems<K, V>(s: Slot<K, V>): multiset<(K, V)> {
    if s.Taken? then multiset{(s.key, s.value)} else multiset{}
  }

  ghost function BucketItems<K, V>(v: View<K, V>): multiset<(K, V)> { FlatMap(SlotItems<K, V>, v.slots) }

  /** Everything a segment stores. */
  ghost function Items<K, V>(sv: seq<View<K, V>>): multiset<(K, V)> { FlatMap(BucketItems<K, V>, sv) }

  lemma BucketItemsMember<K, V>(v: View<K, V>, e: (K, V))
    ensures e in BucketItems(v) <==>
            exists s :: 0 <= s < |v.slots| && v.slots[s].Taken? && (v.slots[s].key, v.slots[s].value) == e
  {
    hide FlatMap;
    FlatMapMember(SlotItems<K, V>, v.slots, e);
    assert forall s :: 0 <= s < |v.slots| ==>
      (e in SlotItems(v.slots[s]) <==> v.slots[s].Taken? && (v.slots[s].key, v.slots[s].value) == e);
  }

  lemma ItemsMember<K, V>(sv: seq<View<K, V>>, e: (K, V))
    requires Shape(sv)
    ensures e in Items(sv) <==>
            exists b, s :: TakenAt(sv, b, s) && (sv[b].slots[s].key, sv[b].slots[s].value) == e
  {
    hide FlatMap, BucketItems;
    FlatMapMember(BucketItems<K, V>, sv, e);
    if e in Items(sv) {
      var b :| 0 <= b < |sv| && e in BucketItems(sv[b]);
      BucketItemsMember(sv[b], e);
      var s :| 0 <= s < 12 && sv[b].slots[s].Taken? && (sv[b].slots[s].key, sv[b].slots[s].value) == e;
      assert TakenAt(sv, b, s);
    }
    if exists b, s :: TakenAt(sv, b, s) && (sv[b].slots[s].key, sv[b].slots[s].value) == e {
      var b, s :| TakenAt(sv, b, s) && (sv[b].slots[s].key, sv[b].slots[s].value) == e;
      BucketItemsMember(sv[b], e);
    }
  }

  function WithSlot<K, V>(sv: seq<View<K, V>>, b: nat, s: nat, x: Slot<K, V>): seq<View<K, V>>
    requires Shape(sv) && b < 68 && s < 12
  {
    sv[b := sv[b].(slots := sv[b].slots[s := x])]
  }

  lemma ItemsWithSlot<K, V>(sv: seq<View<K, V>>, b: nat, s: nat, x: Slot<K, V>)
    requires Shape(sv) && b < 68 && s < 12
    ensures Items(WithSlot(sv, b, s, x)) + SlotItems(sv[b].slots[s]) == Items(sv) + SlotItems(x)
  {
    hide FlatMap, SlotItems;
    var v' := sv[b].(slots := sv[b].slots[s := x]);
    FlatMapUpdate(BucketItems<K, V>, sv, b, v');
    FlatMapUpdate(SlotItems<K, V>, sv[b].slots, s, x);
    Exchange(Items(WithSlot(sv, b, s, x)), Items(sv), BucketItems(sv[b]), BucketItems(v'),
             SlotItems(sv[b].slots[s]), SlotItems(x));
  }

  lemma Exchange<T>(a: multiset<T>, b: multiset<T>, p: multiset<T>, q: multiset<T>, x: multiset<T>, y: multiset<T>)
    requires a + p == b + q && q + x == p + y
    ensures a + x == b + y
  {
    forall t ensures (a + x)[t] == (b + y)[t] {
      assert (a + p)[t] == (b + q)[t] && (q + x)[t] == (p + y)[t];
    }
  }

  lemma ItemsSameSlots<K, V>(sv: seq<View<K, V>>, b: nat, v: View<K, V>)
    requires b < |sv| && v.slots == sv[b].slots
    ensures Items(sv[b := v]) == Items(sv)
  {
    hide FlatMap;
    FlatMapUpdate(BucketItems<K, V>, sv, b, v);
    Cancel(Items(sv[b := v]), Items(sv), BucketItems(v));
  }

  // ---- Stash accounting ----

  /** The (fingerprint, stash bucket) pair of a stash item that belongs to `home`. */
  ghost function SlotTags<K, V>(s: Slot<K, V>, stash: nat, hash: K -> u64, home: nat): multiset<(byte, nat)> {
    if s.Taken? && HomeOf(hash(s.key)) == home then multiset{(s.fp, stash)} else multiset{}
  }

  ghost function BucketTags<K, V>(v: View<K, V>, stash: nat, hash: K -> u64, home: nat): multiset<(byte, nat)> {
    FlatMap((s: Slot<K, V>) => SlotTags(s, stash, hash, home), v.slots)
  }

  ghost function StashTags<K, V>(sv: seq<View<K, V>>, hash: K -> u64, home: nat): multiset<(byte, nat)>
    requires Shape(sv)
  {
    BucketTags(sv[64], 0, hash, home) + BucketTags(sv[65], 1, hash, home)
    + BucketTags(sv[66], 2, hash, home) + BucketTags(sv[67], 3, hash, home)
  }

  ghost function PtrTag(p: Option<Ptr>): multiset<(byte, nat)> {
    if p.Some? then multiset{(p.value.fp, p.value.stash)} else multiset{}
  }

  ghost function PtrTags(ptrs: seq<Option<Ptr>>): multiset<(byte, nat)> { FlatMap(PtrTag, ptrs) }

  /** What always holds between a home bucket and the tags of its stash items. */
  ghost predicate TrackedBy<K, V>(v: View<K, V>, tags: multiset<(byte, nat)>) {
    && PtrTags(v.ptrs) <= tags
    && |PtrTags(v.ptrs)| + v.overflow <= |tags|
    && (v.hasStash <==> |PtrTags(v.ptrs)| + v.overflow > 0)
    && forall i :: 0 <= i < |v.ptrs| && v.ptrs[i].Some? ==> !v.ptrs[i].value.probing
  }

  /** No stash item has been lost track of. */
  ghost predicate CompleteFor<K, V>(v: View<K, V>, tags: multiset<(byte, nat)>) {
    |PtrTags(v.ptrs)| + v.overflow == |tags|
  }

  /** A lookup that starts at this home bucket reaches a stash item with tag `t`. */
  ghost predicate Reaches<K, V>(v: View<K, V>, t: (byte, nat)) {
    v.hasStash && (v.overflow > 0 || t in PtrTags(v.ptrs))
  }

  lemma CompleteReaches<K, V>(v: View<K, V>, tags: multiset<(byte, nat)>, t: (byte, nat))
    requires TrackedBy(v, tags) && CompleteFor(v, tags) && t in tags
    ensures Reaches(v, t)
  {
    if v.overflow == 0 {
      assert |tags - PtrTags(v.ptrs)| == 0;
      assert tags == PtrTags(v.ptrs) + (tags - PtrTags(v.ptrs));
    }
  }

  lemma {:induction false} PtrTagsIdle(ptrs: seq<Option<Ptr>>)
    ensures |PtrTags(ptrs)| == 0 <==> AllIdle(ptrs)
  {
    if ptrs != [] {
      PtrTagsIdle(ptrs[1..]);
      assert AllIdle(ptrs) ==> AllIdle(ptrs[1..]) && ptrs[0].None?;
      if ptrs[0].None? && AllIdle(ptrs[1..]) {
        assert forall i :: 0 < i < |ptrs| ==> ptrs[i] == ptrs[1..][i - 1];
      }
    }
  }

  lemma PtrTagsMember(ptrs: seq<Option<Ptr>>, fp: byte, stash: nat)
    ensures (fp, stash) in PtrTags(ptrs) <==> exists i :: 0 <= i < |ptrs| && Matches(ptrs[i], fp, stash)
    ensures (fp, stash) in PtrTags(ptrs) <==> FirstMatch(ptrs, fp, stash) < |ptrs|
  {
    FlatMapMember(PtrTag, ptrs, (fp, stash));
    if i :| 0 <= i < |ptrs| && Matches(ptrs[i], fp, stash) {
      assert (fp, stash) in PtrTag(ptrs[i]);
    }
    if i :| 0 <= i < |ptrs| && (fp, stash) in PtrTag(ptrs[i]) {
      assert Matches(ptrs[i], fp, stash);
    }
  }

  /** A new stash item is tracked, and nothing tracked before is lost. */
  lemma SetPtrTracks<K, V>(v: View<K, V>, tags: multiset<(byte, nat)>, p: Ptr)
    requires TrackedBy(v, tags) && !p.probing
    ensures TrackedBy(SetPtr(v, p), tags + multiset{(p.fp, p.stash)})
    ensures CompleteFor(v, tags) <==> CompleteFor(SetPtr(v, p), tags + multiset{(p.fp, p.stash)})
  {
    hide PtrTags;
    var i := FirstIdle(v.ptrs);
    if i < |v.ptrs| {
      FillIdle(v.ptrs, i, p);
    }
  }

  lemma FillIdle(ptrs: seq<Option<Ptr>>, i: nat, p: Ptr)
    requires i < |ptrs| && ptrs[i].None?
    ensures PtrTags(ptrs[i := Some(p)]) == PtrTags(ptrs) + multiset{(p.fp, p.stash)}
  {
    hide FlatMap;
    FlatMapUpdate(PtrTag, ptrs, i, Some(p));
    assert PtrTag(ptrs[i]) == multiset{};
    assert PtrTags(ptrs[i := Some(p)]) + multiset{} == PtrTags(ptrs[i := Some(p)]);
  }

  lemma ClearMatch(ptrs: seq<Option<Ptr>>, i: nat, fp: byte, stash: nat)
    requires i < |ptrs| && Matches(ptrs[i], fp, stash)
    ensures PtrTags(ptrs[i := None]) == PtrTags(ptrs) - multiset{(fp, stash)}
    ensures (fp, stash) in PtrTags(ptrs)
  {
    hide FlatMap;
    FlatMapUpdate(PtrTag, ptrs, i, None);
    assert PtrTag(ptrs[i]) == multiset{(fp, stash)};
    assert PtrTags(ptrs[i := None]) + multiset{(fp, stash)} == PtrTags(ptrs) + multiset{};
    assert PtrTags(ptrs)[(fp, stash)] == (PtrTags(ptrs) + multiset{})[(fp, stash)];
    assert PtrTags(ptrs) == PtrTags(ptrs) + multiset{};
  }

  /** What `UnsetPtr` does to the pointer multiset and the counter. */
  lemma UnsetPtrTags<K, V>(v: View<K, V>, fp: byte, stash: nat)
    ensures var v' := UnsetPtr(v, fp, stash); var t := (fp, stash);
            && (t in PtrTags(v.ptrs) ==> PtrTags(v'.ptrs) == PtrTags(v.ptrs) - multiset{t} && v'.overflow == v.overflow)
            && (t !in PtrTags(v.ptrs) ==> PtrTags(v'.ptrs) == PtrTags(v.ptrs)
                                          && v'.overflow == if v.overflow > 0 then v.overflow - 1 else 0)
    ensures var v' := UnsetPtr(v, fp, stash);
            (v.hasStash <==> |PtrTags(v.ptrs)| + v.overflow > 0) ==> (v'.hasStash <==> |PtrTags(v'.ptrs)| + v'.overflow > 0)
  {
    hide PtrTags;
    PtrTagsMember(v.ptrs, fp, stash);
    PtrTagsIdle(v.ptrs);
    var i := FirstMatch(v.ptrs, fp, stash);
    if i < |v.ptrs| {
      ClearMatch(v.ptrs, i, fp, stash);
      PtrTagsIdle(v.ptrs[i := None]);
    }
  }

  lemma UnsetPtrShape<K, V>(v: View<K, V>, fp: byte, stash: nat)
    ensures UnsetPtr(v, fp, stash).slots == v.slots && |UnsetPtr(v, fp, stash).ptrs| == |v.ptrs|
    ensures forall i :: 0 <= i < |v.ptrs| ==> UnsetPtr(v, fp, stash).ptrs[i] in [v.ptrs[i], None]
  {
  }

  lemma ForgetOwn<T(!new)>(known: multiset<T>, tags: multiset<T>, n: nat, t: T, known': multiset<T>, n': nat)
    requires known <= tags && |known| + n <= |tags| && t in tags
    requires t in known ==> known' == known - multiset{t} && n' == n
    requires t !in known ==> known' == known && n' == if n > 0 then n - 1 else 0
    ensures known' <= tags - multiset{t}
    ensures |known'| + n' <= |tags - multiset{t}|
    ensures |known| + n == |tags| ==> |known'| + n' == |tags - multiset{t}|
  {
    if t !in known {
      assert known <= tags - multiset{t};
      SubsetSize(known, tags - multiset{t});
    }
  }

  /** The home bucket of a removed stash item stays tracked, and complete if it was. */
  lemma UnsetOwn<K, V>(v: View<K, V>, tags: multiset<(byte, nat)>, fp: byte, stash: nat)
    requires TrackedBy(v, tags) && (fp, stash) in tags
    ensures TrackedBy(UnsetPtr(v, fp, stash), tags - multiset{(fp, stash)})
    ensures CompleteFor(v, tags) ==> CompleteFor(UnsetPtr(v, fp, stash), tags - multiset{(fp, stash)})
  {
    hide PtrTags, UnsetPtr;
    var v' := UnsetPtr(v, fp, stash);
    UnsetPtrTags(v, fp, stash);
    UnsetPtrShape(v, fp, stash);
    ForgetOwn(PtrTags(v.ptrs), tags, v.overflow, (fp, stash), PtrTags(v'.ptrs), v'.overflow);
  }

  /** The bucket after it is also asked to forget the tag: harmless for the accounting only when it knows neither. */
  lemma UnsetNext<K, V>(v: View<K, V>, tags: multiset<(byte, nat)>, fp: byte, stash: nat)
    requires TrackedBy(v, tags)
    ensures TrackedBy(UnsetPtr(v, fp, stash), tags)
    ensures CompleteFor(v, tags) ==>
              (CompleteFor(UnsetPtr(v, fp, stash), tags) <==> (fp, stash) !in PtrTags(v.ptrs) && v.overflow == 0)
  {
    hide PtrTags, UnsetPtr;
    UnsetPtrTags(v, fp, stash);
    UnsetPtrShape(v, fp, stash);
  }

  /** Exactly when a complete bucket, asked to forget a tag that is not its own, still reaches all its items. */
  ghost predicate Harmless<K, V>(v: View<K, V>, tags: multiset<(byte, nat)>, t: (byte, nat)) {
    var known := PtrTags(v.ptrs);
    if t in known then v.overflow > 0 || known[t] >= 2
    else v.overflow != 1 || forall u :: u in tags ==> u in known
  }

  lemma ForgetExact<T(!new)>(known: multiset<T>, tags: multiset<T>, n: nat, t: T, known': multiset<T>, n': nat)
    requires known <= tags && |known| + n == |tags|
    requires t in known ==> known' == known - multiset{t} && n' == n
    requires t !in known ==> known' == known && n' == if n > 0 then n - 1 else 0
    ensures (forall u :: u in tags ==> n' > 0 || u in known') <==>
            if t in known then n > 0 || known[t] >= 2 else n != 1 || forall u :: u in tags ==> u in known
  {
    if n == 0 {
      SubsetSize(known, tags);
    }
    if t in known && n == 0 && known[t] < 2 {
      assert t !in known';
    }
  }

  lemma UnsetNextReaches<K, V>(v: View<K, V>, tags: multiset<(byte, nat)>, t: (byte, nat))
    requires TrackedBy(v, tags) && CompleteFor(v, tags)
    ensures (forall u :: u in tags ==> Reaches(UnsetPtr(v, t.0, t.1), u)) <==> Harmless(v, tags, t)
  {
    hide PtrTags, UnsetPtr;
    var v' := UnsetPtr(v, t.0, t.1);
    UnsetPtrTags(v, t.0, t.1);
    ForgetExact(PtrTags(v.ptrs), tags, v.overflow, t, PtrTags(v'.ptrs), v'.overflow);
    forall u ensures Reaches(v', u) <==> v'.overflow > 0 || u in PtrTags(v'.ptrs) {
    }
  }

  // ---- Stash tags of a whole segment ----

  /** Changing one slot of a stash bucket changes the tags of the homes it leaves and enters. */
  lemma BucketTagsUpdate<K, V>(v: View<K, V>, s: nat, x: Slot<K, V>, stash: nat, hash: K -> u64, home: nat)
    requires s < |v.slots|
    ensures BucketTags(v.(slots := v.slots[s := x]), stash, hash, home) + SlotTags(v.slots[s], stash, hash, home)
         == BucketTags(v, stash, hash, home) + SlotTags(x, stash, hash, home)
  {
    hide FlatMap;
    FlatMapUpdate((y: Slot<K, V>) => SlotTags(y, stash, hash, home), v.slots, s, x);
  }

  lemma TagsWithSlot<K, V>(sv: seq<View<K, V>>, b: nat, s: nat, x: Slot<K, V>, hash: K -> u64, home: nat)
    requires Shape(sv) && b < 68 && s < 12
    ensures Shape(WithSlot(sv, b, s, x))
    ensures b < 64 ==> StashTags(WithSlot(sv, b, s, x), hash, home) == StashTags(sv, hash, home)
    ensures b >= 64 ==>
              StashTags(WithSlot(sv, b, s, x), hash, home) + SlotTags(sv[b].slots[s], b - 64, hash, home)
              == StashTags(sv, hash, home) + SlotTags(x, b - 64, hash, home)
  {
    hide BucketTags, SlotTags;
    if b >= 64 {
      BucketTagsUpdate(sv[b], s, x, b - 64, hash, home);
      var old', new', p, q := BucketTags(sv[b], b - 64, hash, home),
        BucketTags(WithSlot(sv, b, s, x)[b], b - 64, hash, home), SlotTags(sv[b].slots[s], b - 64, hash, home),
        SlotTags(x, b - 64, hash, home);
      forall t
        ensures (StashTags(WithSlot(sv, b, s, x), hash, home) + p)[t] == (StashTags(sv, hash, home) + q)[t]
      {
        assert (new' + p)[t] == (old' + q)[t];
      }
    }
  }

  lemma TagsSameSlots<K, V>(sv: seq<View<K, V>>, b: nat, v: View<K, V>, hash: K -> u64, home: nat)
    requires Shape(sv) && b < 64 && |v.slots| == 12 && |v.ptrs| == 4
    ensures Shape(sv[b := v]) && StashTags(sv[b := v], hash, home) == StashTags(sv, hash, home)
  {
    hide BucketTags;
  }

  ghost predicate Tracked<K(!new), V(!new)>(sv: seq<View<K, V>>, hash: K -> u64)
    requires Shape(sv)
  {
    forall b :: 0 <= b < 64 ==> TrackedBy(sv[b], StashTags(sv, hash, b))
  }

  ghost predicate Complete<K(!new), V(!new)>(sv: seq<View<K, V>>, hash: K -> u64)
    requires Shape(sv)
  {
    forall b :: 0 <= b < 64 ==> CompleteFor(sv[b], StashTags(sv, hash, b))
  }

  /** What every segment satisfies in every run. */
  ghost predicate Sound<K(!new), V(!new)>(sv: seq<View<K, V>>, hash: K -> u64) {
    Shape(sv) && Placed(sv, hash) && Tracked(sv, hash)
  }

  // ---- Inserting, deleting and overwriting ----

  function InsertAt<K, V>(sv: seq<View<K, V>>, h: u64, key: K, value: V, b: nat, s: nat): seq<View<K, V>>
    requires Shape(sv) && b < 68 && s < 12
  {
    var home, fp := HomeOf(h), FpOf(h);
    var sv1 := WithSlot(sv, b, s, Taken(fp, b < 64 && b != home, key, value));
    if b >= 64 then sv1[home := SetPtr(sv1[home], Ptr(fp, b - 64, false))] else sv1
  }

  function DeleteAt<K, V>(sv: seq<View<K, V>>, h: u64, b: nat, s: nat): seq<View<K, V>>
    requires Shape(sv) && b < 68 && s < 12
  {
    var home, fp := HomeOf(h), FpOf(h);
    var sv1 := WithSlot(sv, b, s, Free);
    if b >= 64 then
      var sv2 := sv1[home := UnsetPtr(sv1[home], fp, b - 64)];
      sv2[NextOf(home) := UnsetPtr(sv2[NextOf(home)], fp, b - 64)]
    else sv1
  }

  lemma InsertShape<K, V>(sv: seq<View<K, V>>, h: u64, key: K, value: V, b: nat, s: nat)
    requires Shape(sv) && b < 68 && s < 12
    ensures var sv' := InsertAt(sv, h, key, value, b, s);
            Shape(sv') && forall c :: 0 <= c < 68 ==> sv'[c].slots == WithSlot(sv, b, s, Taken(FpOf(h), b < 64 && b != HomeOf(h), key, value))[c].slots
  {
    hide HomeOf, FpOf, FirstIdle;
  }

  lemma InsertSound<K(!new), V(!new)>(sv: seq<View<K, V>>, hash: K -> u64, key: K, value: V, b: nat, s: nat)
    requires Sound(sv, hash) && b < 68 && s < 12 && sv[b].slots[s] == Free
    requires b >= 64 || b == HomeOf(hash(key)) || b == NextOf(HomeOf(hash(key)))
    ensures var sv' := InsertAt(sv, hash(key), key, value, b, s);
            && Sound(sv', hash)
            && Items(sv') == Items(sv) + multiset{(key, value)}
            && (Complete(sv, hash) ==> Complete(sv', hash))
  {
    hide HomeOf, FpOf, InsertAt, Tracked, Complete, Items;
    var h := hash(key);
    var sv' := InsertAt(sv, h, key, value, b, s);
    var x := Taken(FpOf(h), b < 64 && b != HomeOf(h), key, value);
    var sv1 := WithSlot(sv, b, s, x);
    InsertShape(sv, h, key, value, b, s);
    InsertItems(sv, h, key, value, b, s);
    InsertTracked(sv, hash, key, value, b, s);
    forall c, r | TakenAt(sv', c, r)
      ensures var t := sv'[c].slots[r]; t.fp == FpOf(hash(t.key)) && MayHold(hash(t.key), c, t.probing)
    {
      assert sv'[c].slots == sv1[c].slots;
      if c != b || r != s {
        assert TakenAt(sv, c, r);
      }
    }
  }

  lemma InsertItems<K, V>(sv: seq<View<K, V>>, h: u64, key: K, value: V, b: nat, s: nat)
    requires Shape(sv) && b < 68 && s < 12 && sv[b].slots[s] == Free
    ensures Items(InsertAt(sv, h, key, value, b, s)) == Items(sv) + multiset{(key, value)}
  {
    hide Items;
    var x := Taken(FpOf(h), b < 64 && b != HomeOf(h), key, value);
    var sv1 := WithSlot(sv, b, s, x);
    ItemsWithSlot(sv, b, s, x);
    assert SlotItems(x) == multiset{(key, value)} && SlotItems(sv[b].slots[s]) == multiset{};
    assert Items(sv1) + multiset{} == Items(sv1);
    if b >= 64 {
      ItemsSameSlots(sv1, HomeOf(h), SetPtr(sv1[HomeOf(h)], Ptr(FpOf(h), b - 64, false)));
    }
  }

  lemma InsertTracked<K(!new), V(!new)>(sv: seq<View<K, V>>, hash: K -> u64, key: K, value: V, b: nat, s: nat)
    requires Shape(sv) && Tracked(sv, hash) && b < 68 && s < 12 && sv[b].slots[s] == Free
    ensures var sv' := InsertAt(sv, hash(key), key, value, b, s);
            Shape(sv') && Tracked(sv', hash) && (Complete(sv, hash) ==> Complete(sv', hash))
  {
    hide StashTags, TrackedBy, CompleteFor, SetPtr, HomeOf, FpOf;
    var h := hash(key);
    var home, fp := HomeOf(h), FpOf(h);
    var x := Taken(fp, b < 64 && b != home, key, value);
    var sv1, sv' := WithSlot(sv, b, s, x), InsertAt(sv, h, key, value, b, s);
    InsertShape(sv, h, key, value, b, s);
    forall c | 0 <= c < 64
      ensures TrackedBy(sv'[c], StashTags(sv', hash, c))
      ensures CompleteFor(sv[c], StashTags(sv, hash, c)) ==> CompleteFor(sv'[c], StashTags(sv', hash, c))
    {
      TagsWithSlot(sv, b, s, x, hash, c);
      var before, after := StashTags(sv, hash, c), StashTags(sv1, hash, c);
      if b < 64 {
        SlotsIrrelevant(sv[c], sv1[c], before);
      } else {
        TagsSameSlots(sv1, home, sv'[home], hash, c);
        assert SlotTags(Slot<K, V>.Free, b - 64, hash, c) == multiset{};
        assert after + multiset{} == after;
        if c == home {
          assert SlotTags(x, b - 64, hash, c) == multiset{(fp, b - 64)};
          SetPtrTracks(sv[c], before, Ptr(fp, b - 64, false));
        } else {
          assert SlotTags(x, b - 64, hash, c) == multiset{};
          assert before + multiset{} == before;
        }
      }
    }
  }

  lemma SlotsIrrelevant<K, V>(v: View<K, V>, v': View<K, V>, tags: multiset<(byte, nat)>)
    requires v'.ptrs == v.ptrs && v'.overflow == v.overflow && v'.hasStash == v.hasStash
    ensures TrackedBy(v, tags) <==> TrackedBy(v', tags)
    ensures CompleteFor(v, tags) <==> CompleteFor(v', tags)
  {
  }

  lemma DeleteShape<K, V>(sv: seq<View<K, V>>, h: u64, b: nat, s: nat)
    requires Shape(sv) && b < 68 && s < 12
    ensures var sv' := DeleteAt(sv, h, b, s);
            Shape(sv') && forall c :: 0 <= c < 68 ==> sv'[c].slots == WithSlot(sv, b, s, Free)[c].slots
  {
    hide HomeOf, FpOf, UnsetPtr;
    if b >= 64 {
      UnsetPtrShape(sv[HomeOf(h)], FpOf(h), b - 64);
      UnsetPtrShape(sv[NextOf(HomeOf(h))], FpOf(h), b - 64);
    }
  }

  lemma DeleteItems<K, V>(sv: seq<View<K, V>>, h: u64, b: nat, s: nat)
    requires Shape(sv) && TakenAt(sv, b, s)
    ensures Items(sv) == Items(DeleteAt(sv, h, b, s)) + multiset{(sv[b].slots[s].key, sv[b].slots[s].value)}
  {
    hide Items, UnsetPtr, HomeOf, FpOf;
    var sv1 := WithSlot(sv, b, s, Free);
    ItemsWithSlot(sv, b, s, Free);
    assert SlotItems(Slot<K, V>.Free) == multiset{};
    assert Items(sv) + multiset{} == Items(sv);
    if b >= 64 {
      var home, fp := HomeOf(h), FpOf(h);
      UnsetPtrShape(sv1[home], fp, b - 64);
      ItemsSameSlots(sv1, home, UnsetPtr(sv1[home], fp, b - 64));
      var sv2 := sv1[home := UnsetPtr(sv1[home], fp, b - 64)];
      UnsetPtrShape(sv2[NextOf(home)], fp, b - 64);
      ItemsSameSlots(sv2, NextOf(home), UnsetPtr(sv2[NextOf(home)], fp, b - 64));
    }
  }

  /** The bucket after the home bucket knows neither an equal pointer nor untracked items. */
  ghost predicate DeleteGuard<K, V>(sv: seq<View<K, V>>, h: u64, b: nat)
    requires Shape(sv) && b < 68
  {
    b < 64 || (var n := sv[NextOf(HomeOf(h))]; (FpOf(h), b - 64) !in PtrTags(n.ptrs) && n.overflow == 0)
  }

  /** How deleting a stash item changes the tags a home bucket answers for. */
  lemma DeleteTags<K, V>(sv: seq<View<K, V>>, hash: K -> u64, b: nat, s: nat, c: nat)
    requires Shape(sv) && TakenAt(sv, b, s) && 64 <= b && c < 64
    requires sv[b].slots[s].fp == FpOf(hash(sv[b].slots[s].key))
    ensures var h := hash(sv[b].slots[s].key); var sv' := DeleteAt(sv, h, b, s); var t := (FpOf(h), b - 64);
            && Shape(sv')
            && (c == HomeOf(h) ==> t in StashTags(sv, hash, c)
                                   && StashTags(sv', hash, c) == StashTags(sv, hash, c) - multiset{t})
            && (c != HomeOf(h) ==> StashTags(sv', hash, c) == StashTags(sv, hash, c))
  {
    hide StashTags, UnsetPtr, HomeOf, FpOf;
    var x := sv[b].slots[s];
    var h := hash(x.key);
    var home, fp := HomeOf(h), FpOf(h);
    var sv1, sv' := WithSlot(sv, b, s, Free), DeleteAt(sv, h, b, s);
    DeleteShape(sv, h, b, s);
    TagsWithSlot(sv, b, s, Free, hash, c);
    TagsSameSlots(sv1, home, sv'[home], hash, c);
    TagsSameSlots(sv1[home := sv'[home]], NextOf(home), sv'[NextOf(home)], hash, c);
    assert sv' == sv1[home := sv'[home]][NextOf(home) := sv'[NextOf(home)]];
    var before, after := StashTags(sv, hash, c), StashTags(sv1, hash, c);
    assert SlotTags(Slot<K, V>.Free, b - 64, hash, c) == multiset{};
    assert after + SlotTags(x, b - 64, hash, c) == before;
    if c == home {
      assert SlotTags(x, b - 64, hash, c) == multiset{(fp, b - 64)};
      assert (after + multiset{(fp, b - 64)})[(fp, b - 64)] > 0;
    } else {
      assert SlotTags(x, b - 64, hash, c) == multiset{};
    }
  }

  lemma DeleteTrackedAt<K(!new), V(!new)>(sv: seq<View<K, V>>, hash: K -> u64, b: nat, s: nat, c: nat)
    requires Shape(sv) && Tracked(sv, hash) && TakenAt(sv, b, s) && c < 64
    requires sv[b].slots[s].fp == FpOf(hash(sv[b].slots[s].key))
    ensures var h := hash(sv[b].slots[s].key); var sv' := DeleteAt(sv, h, b, s);
            && Shape(sv')
            && TrackedBy(sv'[c], StashTags(sv', hash, c))
            && (CompleteFor(sv[c], StashTags(sv, hash, c)) ==>
                  (CompleteFor(sv'[c], StashTags(sv', hash, c)) <==> c != NextOf(HomeOf(h)) || DeleteGuard(sv, h, b)))
  {
    hide StashTags, TrackedBy, CompleteFor, UnsetPtr, HomeOf, FpOf, PtrTags;
    var h := hash(sv[b].slots[s].key);
    var home, fp := HomeOf(h), FpOf(h);
    var sv1, sv' := WithSlot(sv, b, s, Free), DeleteAt(sv, h, b, s);
    var before := StashTags(sv, hash, c);
    if b < 64 {
      TagsWithSlot(sv, b, s, Free, hash, c);
      SlotsIrrelevant(sv[c], sv1[c], before);
    } else {
      DeleteShape(sv, h, b, s);
      DeleteTags(sv, hash, b, s, c);
      if c == home {
        UnsetOwn(sv[c], before, fp, b - 64);
      } else if c == NextOf(home) {
        UnsetNext(sv[c], before, fp, b - 64);
      }
    }
  }

  /**
   Deleting keeps everything a segment always satisfies and removes exactly the one entry. It
   keeps the accounting complete if and only if the next bucket is not made to forget anything.
   */
  lemma DeleteSound<K(!new), V(!new)>(sv: seq<View<K, V>>, hash: K -> u64, b: nat, s: nat)
    requires Sound(sv, hash) && TakenAt(sv, b, s)
    ensures var x := sv[b].slots[s]; var sv' := DeleteAt(sv, hash(x.key), b, s);
            && Sound(sv', hash)
            && Items(sv) == Items(sv') + multiset{(x.key, x.value)}
            && (Complete(sv, hash) ==> (Complete(sv', hash) <==> DeleteGuard(sv, hash(x.key), b)))
  {
    hide StashTags, TrackedBy, CompleteFor, UnsetPtr, HomeOf, FpOf, PtrTags, Items, DeleteGuard;
    var x := sv[b].slots[s];
    var h := hash(x.key);
    var sv' := DeleteAt(sv, h, b, s);
    DeleteShape(sv, h, b, s);
    DeleteItems(sv, h, b, s);
    forall c | 0 <= c < 64
      ensures TrackedBy(sv'[c], StashTags(sv', hash, c))
      ensures CompleteFor(sv[c], StashTags(sv, hash, c)) ==>
                (CompleteFor(sv'[c], StashTags(sv', hash, c)) <==> c != NextOf(HomeOf(h)) || DeleteGuard(sv, h, b))
    {
      DeleteTrackedAt(sv, hash, b, s, c);
    }
    assert Placed(sv', hash) by {
      forall c, r | TakenAt(sv', c, r)
        ensures var t := sv'[c].slots[r]; t.fp == FpOf(hash(t.key)) && MayHold(hash(t.key), c, t.probing)
      {
        assert TakenAt(sv, c, r) && sv[c].slots[r] == sv'[c].slots[r];
      }
    }
  }

  // ---- What a lookup can see ----

  /** A lookup of a key hashing to `h` inspects slot `s` of bucket `b`. */
  ghost predicate VisibleAt<K, V>(sv: seq<View<K, V>>, h: u64, b: int, s: int)
    requires Shape(sv)
  {
    var home := HomeOf(h);
    && TakenAt(sv, b, s) && sv[b].slots[s].fp == FpOf(h)
    && if b >= 64
       then Reaches(sv[home], (FpOf(h), b - 64))
       else (b == home && !sv[b].slots[s].probing) || (b == NextOf(home) && sv[b].slots[s].probing)
  }

  /** Every stored key is visible to its own lookup. */
  ghost predicate AllVisible<K(!new), V(!new)>(sv: seq<View<K, V>>, hash: K -> u64)
    requires Shape(sv)
  {
    forall b, s :: TakenAt(sv, b, s) ==> VisibleAt(sv, hash(sv[b].slots[s].key), b, s)
  }

  lemma BucketTagsMember<K(!new), V(!new)>(v: View<K, V>, stash: nat, hash: K -> u64, home: nat, t: (byte, nat))
    ensures t in BucketTags(v, stash, hash, home) <==>
            exists s :: 0 <= s < |v.slots| && v.slots[s].Taken? && HomeOf(hash(v.slots[s].key)) == home
                        && t == (v.slots[s].fp, stash)
  {
    hide FlatMap, HomeOf;
    FlatMapMember((y: Slot<K, V>) => SlotTags(y, stash, hash, home), v.slots, t);
    assert forall s :: 0 <= s < |v.slots| ==>
      (t in SlotTags(v.slots[s], stash, hash, home) <==>
         v.slots[s].Taken? && HomeOf(hash(v.slots[s].key)) == home && t == (v.slots[s].fp, stash));
  }

  /** Slot `s` of stash bucket `t.1` holds an item of `home` with fingerprint `t.0`. */
  ghost predicate StashHolds<K, V>(sv: seq<View<K, V>>, hash: K -> u64, home: nat, t: (byte, nat), s: int)
    requires Shape(sv)
  {
    var b := t.1 + 64;
    TakenAt(sv, b, s) && HomeOf(hash(sv[b].slots[s].key)) == home && t.0 == sv[b].slots[s].fp
  }

  lemma StashTagsMember<K(!new), V(!new)>(sv: seq<View<K, V>>, hash: K -> u64, home: nat, t: (byte, nat))
    requires Shape(sv)
    ensures t in StashTags(sv, hash, home) <==> exists s :: StashHolds(sv, hash, home, t, s)
  {
    hide BucketTags, HomeOf;
    BucketTagsMember(sv[64], 0, hash, home, t);
    BucketTagsMember(sv[65], 1, hash, home, t);
    BucketTagsMember(sv[66], 2, hash, home, t);
    BucketTagsMember(sv[67], 3, hash, home, t);
    if exists s :: StashHolds(sv, hash, home, t, s) {
      var s :| StashHolds(sv, hash, home, t, s);
      assert t == (sv[t.1 + 64].slots[s].fp, t.1);
    }
    if t in StashTags(sv, hash, home) {
      var v := sv[t.1 + 64];
      var s :| 0 <= s < |v.slots| && v.slots[s].Taken? && HomeOf(hash(v.slots[s].key)) == home && t == (v.slots[s].fp, t.1);
      assert StashHolds(sv, hash, home, t, s);
    }
  }

  /** Every key is visible exactly when every home bucket reaches every stash tag it answers for. */
  lemma VisibleIffReaches<K(!new), V(!new)>(sv: seq<View<K, V>>, hash: K -> u64)
    requires Shape(sv) && Placed(sv, hash)
    ensures AllVisible(sv, hash) <==>
            forall c, t :: 0 <= c < 64 && t in StashTags(sv, hash, c) ==> Reaches(sv[c], t)
  {
    hide StashTags, Reaches, HomeOf, FpOf;
    if AllVisible(sv, hash) {
      forall c, t | 0 <= c < 64 && t in StashTags(sv, hash, c) ensures Reaches(sv[c], t) {
        StashTagsMember(sv, hash, c, t);
        var s :| StashHolds(sv, hash, c, t, s);
        assert VisibleAt(sv, hash(sv[t.1 + 64].slots[s].key), t.1 + 64, s);
      }
    }
    if forall c, t :: 0 <= c < 64 && t in StashTags(sv, hash, c) ==> Reaches(sv[c], t) {
      forall b, s | TakenAt(sv, b, s) ensures VisibleAt(sv, hash(sv[b].slots[s].key), b, s) {
        if b >= 64 {
          var c := HomeOf(hash(sv[b].slots[s].key));
          var t := (sv[b].slots[s].fp, b - 64);
          StashTagsMember(sv, hash, c, t);
          assert StashHolds(sv, hash, c, t, s);
          assert t in StashTags(sv, hash, c);
        }
      }
    }
  }

  /** With complete accounting a lookup sees every key, whether it goes by pointer or by overflow scan. */
  lemma CompleteVisible<K(!new), V(!new)>(sv: seq<View<K, V>>, hash: K -> u64)
    requires Sound(sv, hash) && Complete(sv, hash)
    ensures AllVisible(sv, hash)
  {
    hide StashTags, Reaches, HomeOf, FpOf, TrackedBy, CompleteFor;
    forall c, t | 0 <= c < 64 && t in StashTags(sv, hash, c) ensures Reaches(sv[c], t) {
      CompleteReaches(sv[c], StashTags(sv, hash, c), t);
    }
    VisibleIffReaches(sv, hash);
  }

  /** From complete accounting, a delete leaves every other key visible if and only if it is harmless to the next bucket. */
  lemma DeleteVisibleIff<K(!new), V(!new)>(sv: seq<View<K, V>>, hash: K -> u64, b: nat, s: nat)
    requires Sound(sv, hash) && Complete(sv, hash) && TakenAt(sv, b, s)
    ensures var h := hash(sv[b].slots[s].key); var sv' := DeleteAt(sv, h, b, s); var n := NextOf(HomeOf(h));
            && Shape(sv')
            && (AllVisible(sv', hash) <==>
                b < 64 || Harmless(sv[n], StashTags(sv, hash, n), (FpOf(h), b - 64)))
  {
    hide StashTags, Reaches, HomeOf, FpOf, TrackedBy, CompleteFor, UnsetPtr, Harmless, PtrTags;
    var h := hash(sv[b].slots[s].key);
    var sv', n := DeleteAt(sv, h, b, s), NextOf(HomeOf(h));
    DeleteSound(sv, hash, b, s);
    if b < 64 {
      assert Complete(sv', hash) by { assert DeleteGuard(sv, h, b); }
      CompleteVisible(sv', hash);
    } else {
      VisibleIffReaches(sv', hash);
      DeleteTags(sv, hash, b, s, n);
      UnsetNextReaches(sv[n], StashTags(sv, hash, n), (FpOf(h), b - 64));
      forall c, t | 0 <= c < 64 && c != n && t in StashTags(sv', hash, c) ensures Reaches(sv'[c], t) {
        DeleteTrackedAt(sv, hash, b, s, c);
        CompleteReaches(sv'[c], StashTags(sv', hash, c), t);
      }
      assert sv'[n] == UnsetPtr(sv[n], FpOf(h), b - 64);
    }
  }

  // ---- Overwriting a value, the empty segment, and the size of the stash ----

  lemma ReplaceSound<K(!new), V(!new)>(sv: seq<View<K, V>>, hash: K -> u64, b: nat, s: nat, value: V)
    requires Sound(sv, hash) && TakenAt(sv, b, s)
    ensures var x := sv[b].slots[s]; var sv' := WithSlot(sv, b, s, x.(value := value));
            && Sound(sv', hash)
            && Items(sv') + multiset{(x.key, x.value)} == Items(sv) + multiset{(x.key, value)}
            && (Complete(sv, hash) <==> Complete(sv', hash))
  {
    hide StashTags, TrackedBy, CompleteFor, HomeOf, FpOf, Items;
    var x := sv[b].slots[s];
    var sv' := WithSlot(sv, b, s, x.(value := value));
    ItemsWithSlot(sv, b, s, x.(value := value));
    forall c | 0 <= c < 64
      ensures TrackedBy(sv'[c], StashTags(sv', hash, c))
      ensures CompleteFor(sv'[c], StashTags(sv', hash, c)) <==> CompleteFor(sv[c], StashTags(sv, hash, c))
    {
      TagsWithSlot(sv, b, s, x.(value := value), hash, c);
      if b >= 64 {
        assert SlotTags(x.(value := value), b - 64, hash, c) == SlotTags(x, b - 64, hash, c);
        Cancel(StashTags(sv', hash, c), StashTags(sv, hash, c), SlotTags(x, b - 64, hash, c));
      }
      SlotsIrrelevant(sv[c], sv'[c], StashTags(sv, hash, c));
    }
    forall c, r | TakenAt(sv', c, r)
      ensures var t := sv'[c].slots[r]; t.fp == FpOf(hash(t.key)) && MayHold(hash(t.key), c, t.probing)
    {
      assert TakenAt(sv, c, r);
    }
  }

  function EmptySegment<K, V>(): seq<View<K, V>> { seq(68, b => EmptyView()) }

  lemma EmptySound<K(!new), V(!new)>(hash: K -> u64)
    ensures Sound(EmptySegment<K, V>(), hash) && Complete(EmptySegment<K, V>(), hash)
    ensures Items(EmptySegment<K, V>()) == multiset{}
  {
    hide FlatMap;
    var sv := EmptySegment<K, V>();
    FlatMapEmpty(SlotItems<K, V>, EmptyView<K, V>().slots);
    FlatMapEmpty(BucketItems<K, V>, sv);
    forall c | 0 <= c < 64
      ensures TrackedBy(sv[c], StashTags(sv, hash, c)) && CompleteFor(sv[c], StashTags(sv, hash, c))
    {
      FlatMapEmpty(PtrTag, sv[c].ptrs);
      NoTags(EmptyView<K, V>(), 0, hash, c);
      NoTags(EmptyView<K, V>(), 1, hash, c);
      NoTags(EmptyView<K, V>(), 2, hash, c);
      NoTags(EmptyView<K, V>(), 3, hash, c);
    }
  }

  lemma NoTags<K, V>(v: View<K, V>, stash: nat, hash: K -> u64, home: nat)
    requires forall s :: s in v.slots ==> s == Free
    ensures BucketTags(v, stash, hash, home) == multiset{}
  {
    FlatMapEmpty((y: Slot<K, V>) => SlotTags(y, stash, hash, home), v.slots);
  }

  /** The overflow counter fits its byte: it never exceeds the 48 slots of the stash. */
  lemma OverflowFits<K(!new), V(!new)>(sv: seq<View<K, V>>, hash: K -> u64, home: nat)
    requires Sound(sv, hash) && home < 64
    ensures sv[home].overflow <= 48
  {
    hide PtrTags, FlatMap, HomeOf, FpOf;
    TagsBound(sv[64], 0, hash, home);
    TagsBound(sv[65], 1, hash, home);
    TagsBound(sv[66], 2, hash, home);
    TagsBound(sv[67], 3, hash, home);
    assert TrackedBy(sv[home], StashTags(sv, hash, home));
  }

  lemma TagsBound<K, V>(v: View<K, V>, stash: nat, hash: K -> u64, home: nat)
    ensures |BucketTags(v, stash, hash, home)| <= |v.slots|
  {
    FlatMapBound((y: Slot<K, V>) => SlotTags(y, stash, hash, home), v.slots);
  }
}
