/**
  What the prefix queries return when labels do not spell the keys of their
  buckets: which keys go missing, and when a deferred delete shows.
 */
module Queries {
  import opened Text
  import opened Kube
  import opened BucketNames
  import opened Store

  // ---------- Spellings that clash ----------

  // Without the premise a query can miss a stored key: the second writer's
  // spelling replaces the first's.
  lemma CaseClashHidesKey(a: Str, b: Str, now: int)
    requires BucketForKey(a) == BucketForKey(b) && RawBucketForKey(a) != RawBucketForKey(b)
    ensures var bs := AfterEdits([Put(a, [1], Never), Put(b, [1], Never)]);
            Match(bs, a, now, a) && !Listed(bs, a, now, a) && Listed(bs, b, now, b)
  {
    var p, q := Put(a, [1], Never), Put(b, [1], Never);
    TwoEdits(p, q);
    var bs := AfterEdits([p, q]);
    assert b in Flat(bs) && a in Flat(bs);
    assert RawLabel(bs[BucketForKey(a)]) == RawBucketForKey(b);
    assert |RawBucketForKey(a)| == |BucketForKey(a)| == |RawBucketForKey(b)|;
    assert !Selected(bs[BucketForKey(a)], a) by {
      RawBucketIsCut(a);
    }
  }

  // Over a set of keys every run of writes leaves every query complete exactly
  // when raw names in the set that agree up to case agree.
  lemma QueriesCompleteIff(keys: set<Str>)
    ensures CaseConsistent(keys) <==> forall edits :: Within(edits, keys) ==> Complete(AfterEdits(edits))
  {
    hide BucketForKey, RawBucketForKey, Listed, Match, AfterEdits;
    if CaseConsistent(keys) {
      forall edits | Within(edits, keys) ensures Complete(AfterEdits(edits)) {
        RunSpellsLabels(edits, keys);
        SpelledLabelsListEverything(AfterEdits(edits));
      }
    } else {
      var a, b :| a in keys && b in keys && BucketForKey(a) == BucketForKey(b)
        && RawBucketForKey(a) != RawBucketForKey(b);
      CaseClashHidesKey(a, b, 0);
      var edits := [Put(a, [1], Never), Put(b, [1], Never)];
      assert Within(edits, keys);
      assert !Complete(AfterEdits(edits));
    }
  }

  ghost predicate Within(edits: seq<Edit>, keys: set<Str>) {
    forall i :: 0 <= i < |edits| ==> edits[i].key in keys
  }

  ghost predicate Complete(bs: Buckets) {
    forall prefix, now, key :: Listed(bs, prefix, now, key) <==> Match(bs, prefix, now, key)
  }

  lemma {:induction false} RunSpellsLabels(edits: seq<Edit>, keys: set<Str>)
    requires CaseConsistent(keys) && Within(edits, keys)
    ensures WellFormed(AfterEdits(edits)) && StoredIn(AfterEdits(edits), keys) && LabelsSpellKeys(AfterEdits(edits))
  {
    hide WellFormed, StoredIn, LabelsSpellKeys, CaseConsistent, BucketForKey;
    if edits == [] {
      EmptyStoreSpells(keys);
    } else {
      var init := edits[..|edits| - 1];
      RunSpellsLabels(init, keys);
      Store.RunRefines(edits);
      EditKeepsLabels(edits[|edits| - 1], AfterEdits(init), AfterEdits(edits), keys);
    }
  }

  lemma EmptyStoreSpells(keys: set<Str>)
    ensures WellFormed(map[]) && StoredIn(map[], keys) && LabelsSpellKeys(map[])
  {}

  /** `A/x` and `a/y`. */
  const UPPER_KEY: Str := [65, SLASH, 120]
  const LOWER_KEY: Str := [97, SLASH, 121]

  // Such spellings exist.
  lemma ClashingKeys()
    ensures BucketForKey(UPPER_KEY) == BucketForKey(LOWER_KEY)
    ensures RawBucketForKey(UPPER_KEY) != RawBucketForKey(LOWER_KEY)
  {
    RawOfDirectory([65], [120]);
    RawOfDirectory([97], [121]);
    assert [65] + [SLASH] + [120] == UPPER_KEY && [97] + [SLASH] + [121] == LOWER_KEY;
    assert Replace([65], SLASH, UNDERSCORE) == [65] && Replace([97], SLASH, UNDERSCORE) == [97];
    assert ToLower([65]) == [97] == ToLower([97]);
  }

  // ---------- From a put to a read ----------

  lemma {:induction false} UntouchedKeepsEntry(before: seq<Edit>, after: seq<Edit>, key: Str)
    requires forall i :: 0 <= i < |after| ==> after[i].key != key
    ensures SameAt(FlatAfter(before), FlatAfter(before + after), key)
  {
    if after == [] {
      assert before + after == before;
    } else {
      var init := after[..|after| - 1];
      UntouchedKeepsEntry(before, init, key);
      assert (before + after)[..|before + after| - 1] == before + init;
      assert FlatAfter(before + after) == EditFlat(after[|after| - 1], FlatAfter(before + init));
    }
  }

  // After a put at `now`, whatever was written before and to other keys since, the
  // value is read up to and including `now + ttl`, for good without a ttl, and never
  // when it is empty; and where labels spell their keys it is listed that long.
  lemma PutIsReadUntilItExpires(before: seq<Edit>, key: Str, value: Str, ttl: int, now: int, after: seq<Edit>, t: int)
    requires forall i :: 0 <= i < |after| ==> after[i].key != key
    ensures var put := Put(key, value, if ttl == 0 then Never else At(now + ttl));
            var bs := AfterEdits(before + [put] + after);
            && Visible(Flat(bs), key, t) == (if value != [] && (ttl == 0 || t <= now + ttl) then Some(value) else None)
            && (LabelsSpellKeys(bs) ==>
                  forall prefix :: Listed(bs, prefix, t, key) <==> prefix <= key && (ttl == 0 || t <= now + ttl))
  {
    hide AfterEdits, Flat, WellFormed, LabelsSpellKeys, Listed;
    var put := Put(key, value, if ttl == 0 then Never else At(now + ttl));
    var edits := before + [put] + after;
    Store.RunRefines(edits);
    UntouchedKeepsEntry(before + [put], after, key);
    assert (before + [put])[..|before|] == before;
    assert FlatAfter(before + [put]) == EditFlat(put, FlatAfter(before));
    if LabelsSpellKeys(AfterEdits(edits)) {
      SpelledLabelsListEverything(AfterEdits(edits));
    }
  }

  // ---------- Empty values ----------

  // A listed key can be read exactly when its value is not empty.
  lemma ListedIsReadableIff(bs: Buckets, prefix: Str, now: int, key: Str)
    requires Listed(bs, prefix, now, key)
    ensures Visible(Flat(bs), key, now) != None <==> Flat(bs)[key].value != []
  {}

  // Of a whole store: every listed key can be read exactly when no unexpired value
  // is empty, provided labels spell their keys.
  lemma AllListedReadableIff(bs: Buckets, now: int)
    requires WellFormed(bs) && LabelsSpellKeys(bs)
    ensures (forall prefix, key :: Listed(bs, prefix, now, key) ==> Visible(Flat(bs), key, now) != None)
            <==> (forall key :: key in Flat(bs) && Live(Flat(bs)[key].expiry, now) ==> Flat(bs)[key].value != [])
  {
    hide WellFormed, LabelsSpellKeys, Flat, BucketForKey;
    SpelledLabelsListEverything(bs);
    if forall prefix, key :: Listed(bs, prefix, now, key) ==> Visible(Flat(bs), key, now) != None {
      forall key | key in Flat(bs) && Live(Flat(bs)[key].expiry, now) ensures Flat(bs)[key].value != [] {
        assert Match(bs, key, now, key);
        assert Listed(bs, key, now, key);
      }
    }
  }

  // A put of an empty value is such a case.
  lemma EmptyValueIsListedOnly(key: Str, now: int)
    ensures var bs := AfterEdits([Put(key, [], Never)]);
            Listed(bs, key, now, key) && Visible(Flat(bs), key, now) == None
  {
    hide BucketForKey, HashKey, RawBucketForKey, WellFormed, Flat, LabelSelected;
    var edits := [Put(key, [], Never)];
    assert edits[..0] == [];
    var nothing := FlatAfter(edits[..0]);
    assert FlatAfter(edits) == EditFlat(edits[0], nothing);
    Store.RunRefines(edits);
    OwnLabelSelects(key);
  }

  // ---------- Deferred deletes and queries ----------

  ghost predicate SameContent(bs: Buckets, bs': Buckets, now: int) {
    forall t :: now <= t ==> LiveMap(Flat(bs'), t) == LiveMap(Flat(bs), t)
  }

  /** Every query, from `now` on, returns the same keys. */
  ghost predicate SameQueries(bs: Buckets, bs': Buckets, now: int) {
    forall t, prefix, k :: now <= t ==> (Listed(bs', prefix, t, k) <==> Listed(bs, prefix, t, k))
  }

  /** Two labels select the bucket alike for every prefix of its unexpired keys. */
  ghost predicate SelectAlike(data: map<Str, DataItem>, raw: Str, raw': Str, now: int) {
    forall n, prefix :: n in LiveItems(data, now) && prefix <= data[n].key ==>
                          (LabelSelected(raw, prefix) <==> LabelSelected(raw', prefix))
  }

  // A deferred delete goes unnoticed by reads and queries, now and later, exactly
  // when the snapshot without the key has the bucket's unexpired items and the
  // label it writes selects the bucket for their prefixes as the label there does.
  lemma ReapUnnoticedIff(bs: Buckets, snap: map<Str, DataItem>, key: Str, now: int)
    requires WellFormed(bs) && IsSnapshot(BucketForKey(key), snap, key)
    ensures var b, bs' := BucketForKey(key), Reaped(bs, snap, key);
            SameContent(bs, bs', now) && SameQueries(bs, bs', now)
            <==> && LiveItems(snap - {HashKey(key)}, now) == LiveItems(DataOf(bs, b), now)
                 && (b in bs ==> SelectAlike(bs[b].data, RawLabel(bs[b]), RawBucketForKey(key), now))
  {
    var b, bs' := BucketForKey(key), Reaped(bs, snap, key);
    hide LiveItems, Flat, RawBucketForKey, BucketForKey, HashKey, LiveMap, Listed, SelectAlike, WellFormed;
    ReapKeepsContentIff(bs, snap, key, now);
    ReapKeepsWellFormed(bs, snap, key, bs');
    if SameContent(bs, bs', now) && b in bs {
      SameQueriesIff(bs, bs', b, now);
    } else if SameContent(bs, bs', now) {
      SameQueriesWithout(bs, bs', b, now);
    }
  }

  /** The stores agree on every bucket but one. */
  ghost predicate SameElsewhere(bs: Buckets, bs': Buckets, b: Str) {
    forall c :: c != b ==> (c in bs <==> c in bs') && (c in bs ==> bs[c] == bs'[c])
  }

  // With the same content, queries agree exactly when the labels select alike.
  lemma SameQueriesIff(bs: Buckets, bs': Buckets, b: Str, now: int)
    requires WellFormed(bs) && SameContent(bs, bs', now) && SameElsewhere(bs, bs', b)
    requires b in bs && b in bs'
    ensures SameQueries(bs, bs', now) <==> SelectAlike(bs[b].data, RawLabel(bs[b]), RawLabel(bs'[b]), now)
  {
    hide WellFormed, RawBucketForKey, BucketForKey, HashKey, Flat, LabelSelected;
    var data := bs[b].data;
    if SameQueries(bs, bs', now) {
      forall n, prefix | n in LiveItems(data, now) && prefix <= data[n].key
        ensures LabelSelected(RawLabel(bs[b]), prefix) <==> LabelSelected(RawLabel(bs'[b]), prefix)
      {
        StoredIsFlat(bs, b, n);
        MatchIsLive(bs, bs', prefix, now, data[n].key);
        assert Listed(bs', prefix, now, data[n].key) <==> Listed(bs, prefix, now, data[n].key);
      }
    }
    if SelectAlike(data, RawLabel(bs[b]), RawLabel(bs'[b]), now) {
      forall t, prefix, k | now <= t ensures Listed(bs', prefix, t, k) <==> Listed(bs, prefix, t, k) {
        MatchIsLive(bs, bs', prefix, t, k);
        if Match(bs, prefix, t, k) && BucketForKey(k) == b {
          FindIsFlat(bs, k);
          assert HashKey(k) in LiveItems(data, now) && data[HashKey(k)].key == k;
        }
      }
    }
  }

  lemma SameQueriesWithout(bs: Buckets, bs': Buckets, b: Str, now: int)
    requires WellFormed(bs) && SameContent(bs, bs', now) && SameElsewhere(bs, bs', b) && b !in bs
    ensures SameQueries(bs, bs', now)
  {
    hide WellFormed, RawBucketForKey, BucketForKey, HashKey, Flat, LabelSelected;
    forall t, prefix, k | now <= t ensures Listed(bs', prefix, t, k) <==> Listed(bs, prefix, t, k) {
      MatchIsLive(bs, bs', prefix, t, k);
      FindIsFlat(bs, k);
    }
  }

  lemma MatchIsLive(bs: Buckets, bs': Buckets, prefix: Str, t: int, k: Str)
    requires LiveMap(Flat(bs'), t) == LiveMap(Flat(bs), t)
    ensures Match(bs', prefix, t, k) <==> Match(bs, prefix, t, k)
    ensures Match(bs, prefix, t, k) <==> k in LiveMap(Flat(bs), t) && prefix <= k
  {
    assert k in LiveMap(Flat(bs'), t) <==> k in LiveMap(Flat(bs), t);
  }

  // With no write to the bucket since the snapshot, and a label that spells its
  // unexpired keys, no query result changes exactly when there is no such key or
  // the expired key is spelled as the label.
  lemma PromptReapUnnoticedIff(bs: Buckets, key: Str, now: int)
    requires WellFormed(bs) && Expired(Flat(bs), key, now)
    requires var b := BucketForKey(key);
             forall n :: n in LiveItems(DataOf(bs, b), now)
               ==> b in bs && RawLabel(bs[b]) == RawBucketForKey(bs[b].data[n].key)
    ensures var b := BucketForKey(key);
            b in bs && (SameQueries(bs, Reaped(bs, DataOf(bs, b), key), now)
                        <==> LiveItems(bs[b].data, now) == map[] || RawBucketForKey(key) == RawLabel(bs[b]))
  {
    hide Flat, RawBucketForKey, HashKey, LiveMap, Listed, WellFormed;
    var b := BucketForKey(key);
    var bs' := Reaped(bs, DataOf(bs, b), key);
    FindIsFlat(bs, key);
    PromptReapKeepsContent(bs, key, now);
    SameQueriesIff(bs, bs', b, now);
    if SelectAlike(bs[b].data, RawLabel(bs[b]), RawBucketForKey(key), now) && LiveItems(bs[b].data, now) != map[] {
      var n :| n in LiveItems(bs[b].data, now);
      var k := bs[b].data[n].key;
      assert LabelSelected(RawLabel(bs[b]), k) <==> LabelSelected(RawBucketForKey(key), k);
      SameLengthLabels(bs, b, key);
      StoredIsFlat(bs, b, n);
      EmptyRaw(k);
    }
  }

  lemma PromptReapKeepsContent(bs: Buckets, key: Str, now: int)
    requires WellFormed(bs) && Expired(Flat(bs), key, now)
    ensures SameContent(bs, Reaped(bs, DataOf(bs, BucketForKey(key)), key), now)
  {
    hide Flat, BucketForKey, HashKey, WellFormed;
    PromptReapIsRemoval(bs, key, now);
    forall t | now <= t
      ensures LiveMap(Flat(Reaped(bs, DataOf(bs, BucketForKey(key)), key)), t) == LiveMap(Flat(bs), t)
    {}
  }

  lemma SameLengthLabels(bs: Buckets, b: Str, key: Str)
    requires WellFormed(bs) && b in bs && b == BucketForKey(key)
    ensures |RawLabel(bs[b])| == |RawBucketForKey(key)|
  {
    assert WellLabelled(bs, b);
  }

  lemma EmptyRaw(k: Str)
    ensures k == [] ==> RawBucketForKey(k) == []
  {
    RawBucketIsCut(k);
  }

  // A prompt deferred delete can hide a key that no write touched: `b` is put to
  // expire at 0, `a` is put for good under another spelling, and at 1 the delete
  // of `b` makes `a` vanish from the queries for it.
  lemma PromptReapHidesKey(a: Str, b: Str)
    requires BucketForKey(a) == BucketForKey(b) && RawBucketForKey(a) != RawBucketForKey(b)
    ensures var bs := AfterEdits([Put(b, [1], At(0)), Put(a, [1], Never)]);
            var bs' := Reaped(bs, DataOf(bs, BucketForKey(b)), b);
            && Expired(Flat(bs), b, 1) && Listed(bs, a, 1, a) && !Listed(bs', a, 1, a) && Match(bs', a, 1, a)
  {
    hide BucketForKey, HashKey, RawBucketForKey, WellFormed, Flat, LabelSelected;
    var p, q := Put(b, [1], At(0)), Put(a, [1], Never);
    TwoEdits(p, q);
    var bs := AfterEdits([p, q]);
    assert Expired(Flat(bs), b, 1);
    PromptReapIsRemoval(bs, b, 1);
    OwnLabelSelects(a);
    OtherLabelMisses(a, b);
  }

  lemma OwnLabelSelects(k: Str)
    ensures LabelSelected(RawBucketForKey(k), k)
  {}

  lemma OtherLabelMisses(a: Str, b: Str)
    requires BucketForKey(a) == BucketForKey(b) && RawBucketForKey(a) != RawBucketForKey(b)
    ensures !LabelSelected(RawBucketForKey(b), a)
  {
    assert |RawBucketForKey(a)| == |BucketForKey(a)| == |RawBucketForKey(b)|;
    RawBucketIsCut(a);
  }

  lemma PromptReapHidesKeyAt()
    ensures var bs := AfterEdits([Put(LOWER_KEY, [1], At(0)), Put(UPPER_KEY, [1], Never)]);
            var bs' := Reaped(bs, DataOf(bs, BucketForKey(LOWER_KEY)), LOWER_KEY);
            Listed(bs, UPPER_KEY, 1, UPPER_KEY) && !Listed(bs', UPPER_KEY, 1, UPPER_KEY)
  {
    ClashingKeys();
    PromptReapHidesKey(UPPER_KEY, LOWER_KEY);
  }
}
