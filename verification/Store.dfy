/**
  What the buckets mean. A well-formed set of buckets stands for one flat map
  from keys to values with expiries; every write edits one bucket and is, on the
  flat map, an update of that one key.
 */
module Store {
  import opened Text
  import opened Kube
  import opened BucketNames
  import Base64

  function HashKey(key: Str): Str {
    Base64.Encode(key)
  }

  const MESH_STORAGE_LABEL := "webmesh.io/storage"
  const BUCKET_LABEL := "webmesh.io/storage-bucket"
  const TRUE_VALUE: Str := [116, 114, 117, 101]

  function LabelsFor(raw: Str): map<string, Str> {
    map[MESH_STORAGE_LABEL := TRUE_VALUE, BUCKET_LABEL := raw]
  }

  /** A missing label reads as the empty string. */
  function RawLabel(bucket: Bucket): Str {
    if BUCKET_LABEL in bucket.labels then bucket.labels[BUCKET_LABEL] else []
  }

  datatype Entry = Entry(value: Str, expiry: Expiry)

  type FlatMap = map<Str, Entry>

  /** Each item sits in its key's own bucket under its key's own entry name, and
      a bucket's label spells the bucket's name up to case. */
  ghost predicate WellFormed(bs: Buckets) {
    && (forall b :: b in bs ==> WellLabelled(bs, b))
    && (forall b, n :: b in bs && n in bs[b].data ==> Placed(bs, b, n))
  }

  predicate WellLabelled(bs: Buckets, b: Str)
    requires b in bs
  {
    bs[b].labels == LabelsFor(RawLabel(bs[b])) && ToLower(RawLabel(bs[b])) == b
  }

  predicate Placed(bs: Buckets, b: Str, n: Str)
    requires b in bs && n in bs[b].data
  {
    var key := bs[b].data[n].key;
    b == BucketForKey(key) && n == HashKey(key)
  }

  function StoredKeys(bs: Buckets): set<Str> {
    set b, n | b in bs && n in bs[b].data :: bs[b].data[n].key
  }

  function DataOf(bs: Buckets, b: Str): map<Str, DataItem> {
    if b in bs then bs[b].data else map[]
  }

  /** The item GetValue would find for a key. */
  function Find(bs: Buckets, key: Str): Option<DataItem> {
    var data := DataOf(bs, BucketForKey(key));
    if HashKey(key) in data then Some(data[HashKey(key)]) else None
  }

  function Flat(bs: Buckets): FlatMap {
    map k | k in StoredKeys(bs) && Find(bs, k).Some? ::
      Entry(Find(bs, k).value.value, Find(bs, k).value.expiry)
  }

  // The flat map answers exactly as a look-up in the key's bucket does.
  lemma FindIsFlat(bs: Buckets, key: Str)
    requires WellFormed(bs)
    ensures key in Flat(bs) <==> Find(bs, key).Some?
    ensures Find(bs, key).Some? ==>
              Find(bs, key).value == DataItem(key, Flat(bs)[key].value, Flat(bs)[key].expiry)
  {
    var b, n := BucketForKey(key), HashKey(key);
    if Find(bs, key).Some? {
      assert Placed(bs, b, n);
      Base64.Injective(bs[b].data[n].key, key);
      assert bs[b].data[n].key in StoredKeys(bs);
    }
  }

  // Every item of every bucket is in the flat map under its own key.
  lemma StoredIsFlat(bs: Buckets, b: Str, n: Str)
    requires WellFormed(bs) && b in bs && n in bs[b].data
    ensures var item := bs[b].data[n];
            item.key in Flat(bs) && Flat(bs)[item.key] == Entry(item.value, item.expiry)
            && b == BucketForKey(item.key) && n == HashKey(item.key)
  {
    assert Placed(bs, b, n);
    FindIsFlat(bs, bs[b].data[n].key);
  }

  /** A store only this provider wrote, with every item in its place. */
  ghost predicate Sound(secrets: Secrets) {
    AllOurs(secrets) && WellFormed(View(secrets))
  }

  // ---------- Writes ----------

  datatype Edit = Put(key: Str, value: Str, expiry: Expiry) | Remove(key: Str)

  function EditData(e: Edit, data: map<Str, DataItem>): map<Str, DataItem> {
    match e
    case Put(k, v, x) => data[HashKey(k) := DataItem(k, v, x)]
    case Remove(k) => data - {HashKey(k)}
  }

  function EditFlat(e: Edit, flat: FlatMap): FlatMap {
    match e
    case Put(k, v, x) => flat[k := Entry(v, x)]
    case Remove(k) => flat - {k}
  }

  /** The bucket a write leaves behind. */
  function EditedBucket(e: Edit, bs: Buckets): Bucket {
    Bucket(LabelsFor(RawBucketForKey(e.key)), EditData(e, DataOf(bs, BucketForKey(e.key))))
  }

  function Edited(e: Edit, bs: Buckets): Buckets {
    bs[BucketForKey(e.key) := EditedBucket(e, bs)]
  }

  // A write to its bucket is an update of one key of the flat map, whatever
  // other keys share the bucket; when it empties the bucket, dropping the bucket
  // altogether means the same.
  lemma EditRefines(e: Edit, bs: Buckets, bs': Buckets)
    requires WellFormed(bs)
    requires bs' == Edited(e, bs) || (EditedBucket(e, bs).data == map[] && bs' == bs - {BucketForKey(e.key)})
    ensures WellFormed(bs')
    ensures Flat(bs') == EditFlat(e, Flat(bs))
  {
    hide WellFormed, BucketForKey, HashKey, Find, Flat;
    EditKeepsWellFormed(e, bs, bs');
    forall k ensures SameAt(Flat(bs'), EditFlat(e, Flat(bs)), k) {
      FindAfterEdit(e, bs, bs', k);
      FindIsFlat(bs, k);
      FindIsFlat(bs', k);
    }
    SameEverywhere(Flat(bs'), EditFlat(e, Flat(bs)));
  }

  lemma EditKeepsWellFormed(e: Edit, bs: Buckets, bs': Buckets)
    requires WellFormed(bs)
    requires bs' == Edited(e, bs) || bs' == bs - {BucketForKey(e.key)}
    ensures WellFormed(bs')
  {
    forall b | b in bs' ensures WellLabelled(bs', b) {
      if b != BucketForKey(e.key) {
        assert WellLabelled(bs, b);
      }
    }
    forall b, n | b in bs' && n in bs'[b].data ensures Placed(bs', b, n) {
      if b in bs && n in bs[b].data {
        assert Placed(bs, b, n);
      }
    }
  }

  lemma FindAfterEdit(e: Edit, bs: Buckets, bs': Buckets, key: Str)
    requires bs' == Edited(e, bs) || (EditedBucket(e, bs).data == map[] && bs' == bs - {BucketForKey(e.key)})
    ensures Find(bs', key) ==
            if key != e.key then Find(bs, key)
            else if e.Put? then Some(DataItem(key, e.value, e.expiry)) else None
  {
    if key != e.key {
      if HashKey(key) == HashKey(e.key) {
        Base64.Injective(key, e.key);
      }
      assert BucketForKey(key) == BucketForKey(e.key) ==>
          DataOf(bs', BucketForKey(key)) == EditedBucket(e, bs).data;
    }
  }

  lemma SoundMeans(secrets: Secrets)
    requires Sound(secrets)
    ensures AllOurs(secrets) && WellFormed(View(secrets))
  {}

  // Reading a key: its bucket's entry is its value in the flat map.
  lemma SoundFind(secrets: Secrets, key: Str)
    requires Sound(secrets)
    ensures var bs, b := View(secrets), BucketForKey(key);
            && (b in secrets <==> b in bs)
            && (b in secrets ==> ViewSecret(secrets[b]) == bs[b])
            && (key in Flat(bs) <==> b in bs && HashKey(key) in bs[b].data)
            && (key in Flat(bs) ==>
                  Flat(bs)[key] == Entry(bs[b].data[HashKey(key)].value, bs[b].data[HashKey(key)].expiry))
            && IsSnapshot(b, DataOf(bs, b), key)
  {
    FindIsFlat(View(secrets), key);
    SnapshotOfBucket(View(secrets), key);
  }

  lemma SoundEdit(secrets: Secrets, e: Edit, secrets': Secrets)
    requires Sound(secrets) && AllOurs(secrets')
    requires || View(secrets') == Edited(e, View(secrets))
             || (EditedBucket(e, View(secrets)).data == map[]
               && View(secrets') == View(secrets) - {BucketForKey(e.key)})
    ensures Sound(secrets')
    ensures Flat(View(secrets')) == EditFlat(e, Flat(View(secrets)))
  {
    EditRefines(e, View(secrets), View(secrets'));
  }

  lemma SoundReap(secrets: Secrets, snap: map<Str, DataItem>, key: Str, secrets': Secrets)
    requires Sound(secrets) && AllOurs(secrets') && IsSnapshot(BucketForKey(key), snap, key)
    requires || View(secrets') == View(secrets)
             || View(secrets') == View(secrets) - {BucketForKey(key)}
             || View(secrets') == Reaped(View(secrets), snap, key)
    ensures Sound(secrets')
  {
    ReapKeepsWellFormed(View(secrets), snap, key, View(secrets'));
  }

  // ---------- What readers see ----------

  predicate Live(e: Expiry, now: int) {
    e.Never? || now <= e.time
  }

  predicate Expired(flat: FlatMap, key: Str, now: int) {
    key in flat && !Live(flat[key].expiry, now)
  }

  /** No ttl is no expiry. A duration added to a present date is never Go's zero
      time, so a set expiry is never mistaken for none. */
  function ExpiryOf(ttl: int, now: int): Expiry {
    if ttl == 0 then Never else At(now + ttl)
  }

  /** What GetValue returns for a key; an empty value reads as absent. */
  function Visible(flat: FlatMap, key: Str, now: int): Option<Str> {
    if key in flat && Live(flat[key].expiry, now) && flat[key].value != [] then Some(flat[key].value)
    else None
  }

  /** A label takes its bucket into a prefix query when it starts with the raw
      name of the prefix. */
  predicate LabelSelected(raw: Str, prefix: Str) {
    |prefix| == 0 || RawBucketForKey(prefix) <= raw
  }

  predicate Selected(bucket: Bucket, prefix: Str) {
    LabelSelected(RawLabel(bucket), prefix)
  }

  /** The keys a query ought to return. */
  predicate Match(bs: Buckets, prefix: Str, now: int, key: Str) {
    key in Flat(bs) && prefix <= key && Live(Flat(bs)[key].expiry, now)
  }

  /** The keys a query does return. */
  predicate Listed(bs: Buckets, prefix: Str, now: int, key: Str) {
    Match(bs, prefix, now, key) && BucketForKey(key) in bs && Selected(bs[BucketForKey(key)], prefix)
  }

  ghost predicate LabelsSpellKeys(bs: Buckets) {
    forall b, n :: b in bs && n in bs[b].data ==> RawLabel(bs[b]) == RawBucketForKey(bs[b].data[n].key)
  }

  // Queries miss nothing, for any prefix and from any time on, exactly when each
  // bucket's label is the raw name of every unexpired key in it.
  lemma ListingCompleteIff(bs: Buckets, now: int)
    requires WellFormed(bs)
    ensures (forall prefix, key :: Match(bs, prefix, now, key) ==> Listed(bs, prefix, now, key))
            <==> (forall key :: key in Flat(bs) && Live(Flat(bs)[key].expiry, now) ==>
                    BucketForKey(key) in bs && RawLabel(bs[BucketForKey(key)]) == RawBucketForKey(key))
  {
    if forall prefix, key :: Match(bs, prefix, now, key) ==> Listed(bs, prefix, now, key) {
      forall key | key in Flat(bs) && Live(Flat(bs)[key].expiry, now)
        ensures BucketForKey(key) in bs && RawLabel(bs[BucketForKey(key)]) == RawBucketForKey(key)
      {
        assert Match(bs, key, now, key);
        assert Listed(bs, key, now, key);
        assert WellLabelled(bs, BucketForKey(key));
        RawBucketIsCut(key);
        assert |RawLabel(bs[BucketForKey(key)])| == |RawBucketForKey(key)|;
      }
    }
    if forall key :: key in Flat(bs) && Live(Flat(bs)[key].expiry, now) ==>
                       BucketForKey(key) in bs && RawLabel(bs[BucketForKey(key)]) == RawBucketForKey(key) {
      forall prefix, key | Match(bs, prefix, now, key) ensures Listed(bs, prefix, now, key) {
        RawBucketMonotone(prefix, key);
      }
    }
  }

  // ---------- Deferred deletes of expired keys ----------

  /** The bucket becomes an earlier snapshot of it without the expired key. */
  function Reaped(bs: Buckets, snap: map<Str, DataItem>, key: Str): Buckets {
    bs[BucketForKey(key) := Bucket(LabelsFor(RawBucketForKey(key)), snap - {HashKey(key)})]
  }

  /** Data that was once that of a bucket of a well-formed store. */
  ghost predicate IsSnapshot(name: Str, snap: map<Str, DataItem>, key: Str) {
    && name == BucketForKey(key)
    && forall n :: n in snap ==> name == BucketForKey(snap[n].key) && n == HashKey(snap[n].key)
  }

  lemma SnapshotOfBucket(bs: Buckets, key: Str)
    requires WellFormed(bs)
    ensures IsSnapshot(BucketForKey(key), DataOf(bs, BucketForKey(key)), key)
  {
    var b := BucketForKey(key);
    forall n | n in DataOf(bs, b) ensures b == BucketForKey(bs[b].data[n].key) && n == HashKey(bs[b].data[n].key) {
      assert Placed(bs, b, n);
    }
  }

  lemma ReapKeepsWellFormed(bs: Buckets, snap: map<Str, DataItem>, key: Str, bs': Buckets)
    requires WellFormed(bs) && IsSnapshot(BucketForKey(key), snap, key)
    requires bs' == bs || bs' == bs - {BucketForKey(key)} || bs' == Reaped(bs, snap, key)
    ensures WellFormed(bs')
  {
    forall b | b in bs' ensures WellLabelled(bs', b) {
      if b in bs {
        assert WellLabelled(bs, b);
      }
    }
    forall b, n | b in bs' && n in bs'[b].data ensures Placed(bs', b, n) {
      if b in bs && n in bs[b].data {
        assert Placed(bs, b, n);
      }
    }
  }

  /** The items of a bucket a reader may still see at `now`. */
  function LiveItems(data: map<Str, DataItem>, now: int): map<Str, DataItem> {
    map n | n in data && Live(data[n].expiry, now) :: data[n]
  }

  function LiveMap(flat: FlatMap, now: int): FlatMap {
    map k | k in flat && Live(flat[k].expiry, now) :: flat[k]
  }

  // Whatever was written since the snapshot, a deferred delete puts the bucket's
  // other keys back to the snapshot, and leaves the other buckets alone.
  lemma ReapRestoresSnapshot(bs: Buckets, snap: map<Str, DataItem>, key: Str, other: Str)
    requires other != key
    ensures Find(Reaped(bs, snap, key), other) ==
            if BucketForKey(other) != BucketForKey(key) then Find(bs, other)
            else if HashKey(other) in snap then Some(snap[HashKey(other)]) else None
    ensures Find(Reaped(bs, snap, key), key) == None
  {
    if HashKey(other) == HashKey(key) {
      Base64.Injective(other, key);
    }
  }

  // So a write to the bucket that committed after the snapshot is undone, and a
  // fresh put of the expired key itself is lost.
  lemma LateReapUndoesWrite(bs: Buckets, key: Str, e: Edit)
    requires BucketForKey(e.key) == BucketForKey(key)
    ensures Find(Reaped(Edited(e, bs), DataOf(bs, BucketForKey(key)), key), e.key)
            == if e.key == key then None else Find(bs, e.key)
  {
    if e.key != key {
      ReapRestoresSnapshot(Edited(e, bs), DataOf(bs, BucketForKey(key)), key, e.key);
    }
  }

  // A deferred delete keeps the unexpired content of the store, now and later,
  // exactly when the snapshot without the key still has the bucket's unexpired
  // items. Queries depend on the label too; module Queries says when they change.
  lemma ReapKeepsContentIff(bs: Buckets, snap: map<Str, DataItem>, key: Str, now: int)
    requires WellFormed(bs) && IsSnapshot(BucketForKey(key), snap, key)
    ensures (forall t :: now <= t ==> LiveMap(Flat(Reaped(bs, snap, key)), t) == LiveMap(Flat(bs), t))
            <==> LiveItems(snap - {HashKey(key)}, now) == LiveItems(DataOf(bs, BucketForKey(key)), now)
  {
    var b, bs' := BucketForKey(key), Reaped(bs, snap, key);
    ReapKeepsWellFormed(bs, snap, key, bs');
    if LiveMap(Flat(bs'), now) == LiveMap(Flat(bs), now) {
      LiveItemsFromFlat(bs, bs', b, now);
      LiveItemsFromFlat(bs', bs, b, now);
    }
    if LiveItems(DataOf(bs', b), now) == LiveItems(DataOf(bs, b), now) {
      forall t | now <= t ensures LiveMap(Flat(bs'), t) == LiveMap(Flat(bs), t) {
        FlatFromLiveItems(bs, bs', b, now, t);
      }
    }
  }

  lemma FlatFromLiveItems(bs: Buckets, bs': Buckets, b: Str, now: int, t: int)
    requires WellFormed(bs) && WellFormed(bs') && now <= t
    requires forall c :: c != b ==> DataOf(bs', c) == DataOf(bs, c)
    requires LiveItems(DataOf(bs', b), now) == LiveItems(DataOf(bs, b), now)
    ensures LiveMap(Flat(bs'), t) == LiveMap(Flat(bs), t)
  {
    forall k ensures SameAt(LiveMap(Flat(bs), t), LiveMap(Flat(bs'), t), k) {
      LiveMapIsFind(bs, k, t);
      LiveMapIsFind(bs', k, t);
      SameLiveItem(DataOf(bs, BucketForKey(k)), DataOf(bs', BucketForKey(k)), HashKey(k), now, t);
    }
    SameEverywhere(LiveMap(Flat(bs), t), LiveMap(Flat(bs'), t));
  }

  predicate SameAt(flat: FlatMap, flat': FlatMap, k: Str) {
    (k in flat <==> k in flat') && (k in flat ==> flat[k] == flat'[k])
  }

  lemma SameEverywhere(flat: FlatMap, flat': FlatMap)
    requires forall k :: SameAt(flat, flat', k)
    ensures flat == flat'
  {
    assert forall k :: SameAt(flat, flat', k) ==> (k in flat <==> k in flat');
  }

  lemma LiveMapIsFind(bs: Buckets, k: Str, t: int)
    requires WellFormed(bs)
    ensures var found, live := Find(bs, k), LiveMap(Flat(bs), t);
            && (k in live <==> found.Some? && Live(found.value.expiry, t))
            && (k in live ==> live[k] == Entry(found.value.value, found.value.expiry))
  {
    FindIsFlat(bs, k);
  }

  lemma SameLiveItem(data: map<Str, DataItem>, data': map<Str, DataItem>, n: Str, now: int, t: int)
    requires LiveItems(data, now) == LiveItems(data', now) && now <= t
    ensures n in data && Live(data[n].expiry, t) <==> n in data' && Live(data'[n].expiry, t)
    ensures n in data && Live(data[n].expiry, t) ==> data'[n] == data[n]
  {
    assert n in LiveItems(data, now) <==> n in LiveItems(data', now);
    assert n in LiveItems(data, now) ==> LiveItems(data, now)[n] == LiveItems(data', now)[n];
  }

  lemma LiveItemsFromFlat(bs: Buckets, bs': Buckets, b: Str, now: int)
    requires WellFormed(bs) && WellFormed(bs') && LiveMap(Flat(bs'), now) == LiveMap(Flat(bs), now)
    ensures forall n :: n in LiveItems(DataOf(bs, b), now) ==>
                          n in LiveItems(DataOf(bs', b), now)
                          && LiveItems(DataOf(bs', b), now)[n] == LiveItems(DataOf(bs, b), now)[n]
  {
    forall n | n in LiveItems(DataOf(bs, b), now)
      ensures n in LiveItems(DataOf(bs', b), now)
              && LiveItems(DataOf(bs', b), now)[n] == LiveItems(DataOf(bs, b), now)[n]
    {
      StoredIsFlat(bs, b, n);
      var k := bs[b].data[n].key;
      assert k in LiveMap(Flat(bs), now);
      assert k in LiveMap(Flat(bs'), now) && LiveMap(Flat(bs'), now)[k] == LiveMap(Flat(bs), now)[k];
      FindIsFlat(bs', k);
    }
  }

  // In particular the content only loses the expired key when no write touched
  // the bucket since the snapshot.
  lemma PromptReapIsRemoval(bs: Buckets, key: Str, now: int)
    requires WellFormed(bs) && key in Flat(bs) && !Live(Flat(bs)[key].expiry, now)
    ensures var bs' := Reaped(bs, DataOf(bs, BucketForKey(key)), key);
            && Flat(bs') == Flat(bs) - {key}
            && (forall t, k :: now <= t ==> Visible(Flat(bs'), k, t) == Visible(Flat(bs), k, t))
  {
    hide WellFormed, Find, BucketForKey, HashKey;
    EditRefines(Remove(key), bs, Reaped(bs, DataOf(bs, BucketForKey(key)), key));
  }

  // Nor does it change which buckets a query looks at.
  lemma PromptReapKeepsLabels(bs: Buckets, key: Str)
    requires WellFormed(bs) && key in Flat(bs) && LabelsSpellKeys(bs)
    ensures LabelsSpellKeys(Reaped(bs, DataOf(bs, BucketForKey(key)), key))
  {
    hide RawBucketForKey;
    FindIsFlat(bs, key);
    assert bs[BucketForKey(key)].data[HashKey(key)].key == key;
  }

  // ---------- Runs of writes ----------

  function AfterEdits(edits: seq<Edit>): Buckets {
    if edits == [] then map[]
    else Edited(edits[|edits| - 1], AfterEdits(edits[..|edits| - 1]))
  }

  function FlatAfter(edits: seq<Edit>): FlatMap {
    if edits == [] then map[]
    else EditFlat(edits[|edits| - 1], FlatAfter(edits[..|edits| - 1]))
  }

  // In every run of writes the buckets stand for the flat map the same writes
  // would have made one key at a time.
  lemma {:induction false} RunRefines(edits: seq<Edit>)
    ensures WellFormed(AfterEdits(edits))
    ensures Flat(AfterEdits(edits)) == FlatAfter(edits)
  {
    if edits != [] {
      var init, e := edits[..|edits| - 1], edits[|edits| - 1];
      RunRefines(init);
      EditRefines(e, AfterEdits(init), AfterEdits(edits));
    }
  }

  /** Raw names that agree up to case agree. */
  ghost predicate CaseConsistent(keys: set<Str>) {
    forall k, k' :: k in keys && k' in keys && BucketForKey(k) == BucketForKey(k') ==>
                      RawBucketForKey(k) == RawBucketForKey(k')
  }

  ghost predicate StoredIn(bs: Buckets, keys: set<Str>) {
    forall b, n :: b in bs && n in bs[b].data ==> bs[b].data[n].key in keys
  }

  // A write within case-consistent keys leaves each label spelling its keys.
  lemma EditKeepsLabels(e: Edit, bs: Buckets, bs': Buckets, keys: set<Str>)
    requires WellFormed(bs) && StoredIn(bs, keys) && LabelsSpellKeys(bs)
    requires CaseConsistent(keys) && e.key in keys
    requires bs' == Edited(e, bs) || bs' == bs - {BucketForKey(e.key)}
    ensures StoredIn(bs', keys) && LabelsSpellKeys(bs')
  {
    EditKeepsWellFormed(e, bs, bs');
    forall b, n | b in bs' && n in bs'[b].data
      ensures bs'[b].data[n].key in keys && RawLabel(bs'[b]) == RawBucketForKey(bs'[b].data[n].key)
    {
      assert bs'[b].data[n].key in keys by {
        assert bs'[b].data[n].key == e.key || (b in bs && n in bs[b].data && bs'[b].data[n] == bs[b].data[n]);
      }
      assert Placed(bs', b, n);
    }
  }

  // When labels spell their keys, queries return exactly the unexpired keys with
  // their prefix.
  lemma SpelledLabelsListEverything(bs: Buckets)
    requires WellFormed(bs) && LabelsSpellKeys(bs)
    ensures forall prefix, now, key :: Listed(bs, prefix, now, key) <==> Match(bs, prefix, now, key)
  {
    forall prefix, now, key | Match(bs, prefix, now, key) ensures Listed(bs, prefix, now, key) {
      FindIsFlat(bs, key);
      RawBucketMonotone(prefix, key);
    }
  }

  lemma TwoEdits(p: Edit, q: Edit)
    ensures AfterEdits([p, q]) == Edited(q, Edited(p, map[]))
    ensures WellFormed(AfterEdits([p, q]))
    ensures Flat(AfterEdits([p, q])) == EditFlat(q, EditFlat(p, map[]))
  {
    var one, two := [p], [p, q];
    assert two[..1] == one && one[..0] == [];
    var empty: FlatMap := FlatAfter(one[..0]);
    assert empty == map[];
    assert FlatAfter(one) == EditFlat(p, empty);
    assert AfterEdits(one) == Edited(p, map[]);
    RunRefines(two);
  }
}
