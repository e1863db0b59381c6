/**
  What a subscriber knows over whole runs: the store changes in any way that
  keeps it well-formed, and reconcile requests arrive late, coalesced, repeated
  and for any bucket.
 */
module Subscribers {
  import opened Text
  import opened Kube
  import opened BucketNames
  import opened Store
  import opened Diff
  import opened Reconciler

  /** A store, and one live subscription on it. */
  datatype State = State(buckets: Buckets, seen: Mirror, notes: seq<Note>)

  ghost predicate Init(s: State) {
    WellFormed(s.buckets) && s.seen == map[] && s.notes == []
  }

  /** The store is written to, or a request naming a Secret is handled. */
  ghost predicate Next(prefix: Str, s: State, s': State) {
    Written(s, s') || exists name :: Reconciled(prefix, s, name, s')
  }

  ghost predicate Written(s: State, s': State) {
    WellFormed(s'.buckets) && s'.seen == s.seen && s'.notes == s.notes
  }

  /** Secret names contain no slash and no upper-case letter. */
  predicate IsSecretName(name: Str) {
    SLASH !in name && ToLower(name) == name
  }

  ghost predicate Reconciled(prefix: Str, s: State, name: Str, s': State) {
    IsSecretName(name) && s'.buckets == s.buckets && Heard(prefix, s.buckets, name, s.seen, s.notes, s'.seen, s'.notes)
  }

  ghost predicate IsRun(prefix: Str, run: seq<State>) {
    && run != [] && Init(run[0])
    && forall i :: 0 <= i < |run| - 1 ==> Next(prefix, run[i], run[i + 1])
  }

  // The provider's own Secrets have such names.
  lemma BucketsAreSecretNames(key: Str)
    ensures IsSecretName(BucketForKey(key))
  {
    BucketNameHasNoSlash(key);
    assert forall b: byte :: LowerByte(LowerByte(b)) == LowerByte(b);
    assert ToLower(BucketForKey(key)) == BucketForKey(key);
  }

  /** A slash or an upper-case letter keeps a prefix apart from Secret names. */
  predicate SafePrefix(prefix: Str) {
    SLASH in prefix || ToLower(prefix) != prefix
  }

  // A request for a Secret that is gone is silent for a prefix with a slash.
  lemma GoneIsSilent(name: Str, prefix: Str)
    requires SLASH in prefix && SLASH !in name
    ensures GoneNotes(name, prefix) == []
  {
    var i :| 0 <= i < |prefix| && prefix[i] == SLASH;
    assert ToLower(prefix)[i] == SLASH;
    assert forall j :: 0 <= j < |name| ==> ToLower(name)[j] != SLASH;
  }

  // With an upper-case letter it may be heard, but is about no key with the prefix.
  lemma GoneIsAboutOthers(name: Str, prefix: Str)
    requires SafePrefix(prefix) && IsSecretName(name) && GoneNotes(name, prefix) != []
    ensures GoneNotes(name, prefix) == [Note(name, None)] && !(prefix <= name)
  {
    if SLASH in prefix {
      GoneIsSilent(name, prefix);
      assert false;
    } else {
      PrefixOfLower(prefix, name);
    }
  }

  lemma PrefixOfLower(prefix: Str, name: Str)
    requires ToLower(name) == name
    ensures prefix <= name ==> ToLower(prefix) == prefix
  {
    assert prefix <= name ==> forall i :: 0 <= i < |prefix| ==> prefix[i] == name[i];
  }

  /** The subscriber's copy is what the node believes it to have seen, and all of
      that has the prefix. */
  ghost predicate InStep(prefix: Str, s: State) {
    && WellFormed(s.buckets)
    && Fold(map[], s.notes) == s.seen
    && forall k :: k in s.seen ==> prefix <= k
  }

  // In every run the notifications, applied to an empty copy, give what the node
  // believes the subscriber to have seen.
  lemma {:induction false} MirrorIsSeen(prefix: Str, run: seq<State>)
    requires SafePrefix(prefix) && IsRun(prefix, run)
    ensures InStep(prefix, run[|run| - 1])
  {
    hide Matching, WellFormed, SafePrefix;
    if |run| > 1 {
      var n := |run| - 2;
      var init := run[..n + 1];
      forall i | 0 <= i < |init| - 1 ensures Next(prefix, init[i], init[i + 1]) {
        assert Next(prefix, run[i], run[i + 1]);
      }
      MirrorIsSeen(prefix, init);
      assert Next(prefix, run[n], run[n + 1]);
      StepKeepsMirror(prefix, run[n], run[n + 1]);
    }
  }

  lemma StepKeepsMirror(prefix: Str, s: State, s': State)
    requires SafePrefix(prefix) && Next(prefix, s, s') && InStep(prefix, s)
    ensures InStep(prefix, s')
  {
    hide Matching, WellFormed, SafePrefix, GoneNotes;
    if !Written(s, s') {
      var name :| Reconciled(prefix, s, name, s');
      if name in s.buckets {
        FoldConcat(map[], s.notes, s'.notes[|s.notes|..]);
        assert s'.notes == s.notes + s'.notes[|s.notes|..];
        MatchingHasPrefix(s.buckets[name].data, prefix);
      } else if GoneNotes(name, prefix) != [] {
        GoneIsAboutOthers(name, prefix);
        FoldAppend(map[], s.notes, Note(name, None));
        assert name !in s.seen;
      }
    }
  }

  /** The stored entries with a prefix, over all buckets. */
  function StoreMatching(bs: Buckets, prefix: Str): Mirror {
    map k | k in Flat(bs) && prefix <= k :: Flat(bs)[k].value
  }

  // After any run, a request that finds its bucket leaves the subscriber with
  // exactly that bucket's matching items, and leaves it with all the store's
  // matching items exactly when no other bucket holds one.
  lemma ReconcileFinds(prefix: Str, run: seq<State>, name: Str, s': State)
    requires SafePrefix(prefix) && IsRun(prefix, run)
    requires var s := run[|run| - 1]; Reconciled(prefix, s, name, s') && name in s.buckets
    ensures Fold(map[], s'.notes) == Matching(s'.buckets[name].data, prefix)
    ensures Fold(map[], s'.notes) == StoreMatching(s'.buckets, prefix)
            <==> forall k :: k in Flat(s'.buckets) && prefix <= k ==> BucketForKey(k) == name
  {
    hide WellFormed, Matching, StoreMatching, Flat, BucketForKey;
    MirrorIsSeen(prefix, run);
    StepKeepsMirror(prefix, run[|run| - 1], s');
    MatchingOfBucket(s'.buckets, name, prefix);
  }

  lemma MatchingOfBucket(bs: Buckets, name: Str, prefix: Str)
    requires WellFormed(bs) && name in bs
    ensures Matching(bs[name].data, prefix) == StoreMatching(bs, prefix)
            <==> forall k :: k in Flat(bs) && prefix <= k ==> BucketForKey(k) == name
  {
    hide WellFormed, StoreMatching, Flat, BucketForKey, HashKey, Matching;
    var here, all := Matching(bs[name].data, prefix), StoreMatching(bs, prefix);
    forall k
      ensures k in here <==> k in all && BucketForKey(k) == name
      ensures k in here ==> here[k] == all[k]
      ensures k in all <==> k in Flat(bs) && prefix <= k
    {
      MatchingOfKey(bs, name, prefix, k);
    }
    if forall k :: k in Flat(bs) && prefix <= k ==> BucketForKey(k) == name {
      assert here.Keys == all.Keys;
    }
  }

  lemma MatchingOfKey(bs: Buckets, name: Str, prefix: Str, k: Str)
    requires WellFormed(bs) && name in bs
    ensures var here, all := Matching(bs[name].data, prefix), StoreMatching(bs, prefix);
            && (k in here <==> k in all && BucketForKey(k) == name)
            && (k in here ==> here[k] == all[k])
            && (k in all <==> k in Flat(bs) && prefix <= k)
  {
    FindIsFlat(bs, k);
    BucketIsNamed(bs, name);
    if k in ItemKeys(bs[name].data) {
      var n :| n in bs[name].data && bs[name].data[n].key == k;
      StoredIsFlat(bs, name, n);
    }
    if k in Flat(bs) && BucketForKey(k) == name {
      assert bs[name].data[HashKey(k)].key == k;
      assert k in ItemKeys(bs[name].data);
    }
  }

  // Deleting the last key of a bucket leaves the bucket in place, empty, so the
  // next request for it tells the subscriber; had the second API call failed, the
  // bucket would be gone and the request leave the copy as it was.
  lemma LastDeletionIsHeardIff(prefix: Str, run: seq<State>, k: Str, s: State, s': State)
    requires SafePrefix(prefix) && IsRun(prefix, run)
    requires var before := run[|run| - 1];
             && EditedBucket(Remove(k), before.buckets).data == map[]
             && (s == before.(buckets := Edited(Remove(k), before.buckets))
                 || s == before.(buckets := before.buckets - {BucketForKey(k)}))
    requires Reconciled(prefix, s, BucketForKey(k), s')
    ensures Fold(map[], s'.notes) == (if BucketForKey(k) in s.buckets then map[] else s.seen)
    ensures prefix <= k && k in s.seen ==>
              (k !in Fold(map[], s'.notes) <==> BucketForKey(k) in s.buckets)
  {
    hide WellFormed, BucketForKey, SafePrefix, Matching, Flat;
    var before := run[|run| - 1];
    MirrorIsSeen(prefix, run);
    EditRefines(Remove(k), before.buckets, s.buckets);
    assert Written(before, s);
    StepKeepsMirror(prefix, s, s');
    if BucketForKey(k) in s.buckets {
      NothingMatches(prefix);
    }
  }

  lemma NothingMatches(prefix: Str)
    ensures Matching(map[], prefix) == map[]
  {}

  // A request for one bucket makes the subscriber drop what it saw in another: a
  // key still stored is told to be deleted.
  lemma OtherBucketForgets(prefix: Str, run: seq<State>, other: Str, s': State, k: Str)
    requires SafePrefix(prefix) && IsRun(prefix, run)
    requires var s := run[|run| - 1];
             && Reconciled(prefix, s, other, s') && other in s.buckets
             && k in s.seen && k in Flat(s.buckets) && BucketForKey(k) != other
    ensures k in Flat(s'.buckets) && prefix <= k
    ensures k !in Fold(map[], s'.notes) && Note(k, None) in s'.notes[|run[|run| - 1].notes|..]
  {
    hide WellFormed, BucketForKey, StoreMatching, Flat, SafePrefix;
    var s := run[|run| - 1];
    MirrorIsSeen(prefix, run);
    StepKeepsMirror(prefix, s, s');
    MatchingOfKey(s.buckets, other, prefix, k);
    DifferencesAreTold(s.seen, s'.notes[|s.notes|..], k);
  }

  // Every request for a stored bucket can be handled.
  lemma CanReconcile(prefix: Str, s: State, name: Str) returns (s': State)
    requires IsSecretName(name) && name in s.buckets
    ensures Reconciled(prefix, s, name, s') && s'.seen == Matching(s.buckets[name].data, prefix)
  {
    var seen := Matching(s.buckets[name].data, prefix);
    var told := DiffExists(s.seen, seen);
    s' := State(s.buckets, seen, s.notes + told);
    assert s'.notes[|s.notes|..] == told;
  }

  // Such runs exist for any two keys with the prefix in different buckets: after a
  // request for each bucket the first key is stored and told to be deleted.
  lemma TwoBucketsForget(prefix: Str, k: Str, k': Str, v: Str) returns (run: seq<State>)
    requires SafePrefix(prefix) && prefix <= k && prefix <= k' && BucketForKey(k) != BucketForKey(k')
    ensures IsRun(prefix, run) && |run| == 3
    ensures k in run[1].seen && k in Flat(run[2].buckets)
    ensures k !in Fold(map[], run[2].notes) && Note(k, None) in run[2].notes
  {
    hide WellFormed, BucketForKey, Flat, SafePrefix, StoreMatching, Matching, IsSecretName, AfterEdits, IsDiff;
    var bs := AfterEdits([Put(k, v, Never), Put(k', v, Never)]);
    TwoKeyStore(k, k', v);
    BucketsAreSecretNames(k);
    BucketsAreSecretNames(k');
    var s0 := State(bs, map[], []);
    var s1 := CanReconcile(prefix, s0, BucketForKey(k));
    var s2 := CanReconcile(prefix, s1, BucketForKey(k'));
    run := [s0, s1, s2];
    assert Next(prefix, s0, s1) && Next(prefix, s1, s2);
    var sofar := [s0, s1];
    assert IsRun(prefix, sofar);
    MatchingOfKey(bs, BucketForKey(k), prefix, k);
    InStoreMatching(bs, prefix, k);
    OtherBucketForgets(prefix, sofar, BucketForKey(k'), s2, k);
  }

  lemma TwoKeyStore(k: Str, k': Str, v: Str)
    ensures var bs := AfterEdits([Put(k, v, Never), Put(k', v, Never)]);
            WellFormed(bs) && BucketForKey(k) in bs && BucketForKey(k') in bs && k in Flat(bs)
  {
    hide WellFormed, BucketForKey, Flat, AfterEdits;
    TwoEdits(Put(k, v, Never), Put(k', v, Never));
  }

  lemma InStoreMatching(bs: Buckets, prefix: Str, k: Str)
    ensures k in StoreMatching(bs, prefix) <==> k in Flat(bs) && prefix <= k
  {}

  // For instance `a/x` and `a/b/y` under the prefix `a/`.
  lemma NestedDirectoriesForget(v: Str) returns (run: seq<State>)
    ensures IsRun([97, SLASH], run) && |run| == 3
    ensures [97, SLASH, 120] in Flat(run[2].buckets) && [97, SLASH, 120] !in Fold(map[], run[2].notes)
  {
    RawOfDirectory([97], [120]);
    RawOfDirectory([97, SLASH, 98], [121]);
    var x, y := [97, SLASH, 120], [97, SLASH, 98, SLASH, 121];
    assert [97] + [SLASH] + [120] == x && [97, SLASH, 98] + [SLASH] + [121] == y;
    assert |BucketForKey(x)| == 1 && |BucketForKey(y)| == 3;
    run := TwoBucketsForget([97, SLASH], x, y, v);
  }

  // Requests that find nothing new are silent.
  lemma RepeatIsSilent(prefix: Str, s: State, name: Str, s': State)
    requires Reconciled(prefix, s, name, s') && name in s.buckets
    requires s.seen == Matching(s.buckets[name].data, prefix)
    ensures s'.notes == s.notes
  {
    NoChangeNoNotes(s.seen, s'.notes[|s.notes|..]);
    assert s'.notes == s.notes + s'.notes[|s.notes|..];
  }

  // ---------- Which prefixes are safe ----------

  /** A bucket holding one key that has no slash. */
  function OneKey(k: Str, v: Str): Buckets {
    AfterEdits([Put(k, v, Never)])
  }

  lemma OneKeyBucket(k: Str, v: Str, prefix: Str)
    requires IsSecretName(k) && prefix <= k
    ensures WellFormed(OneKey(k, v)) && OneKey(k, v).Keys == {k}
    ensures Matching(OneKey(k, v)[k].data, prefix) == map[k := v]
  {
    hide HashKey, Matching, WellFormed, BucketForKey, EditData;
    var edits := [Put(k, v, Never)];
    Store.RunRefines(edits);
    assert edits[..0] == [];
    assert BucketForKey(k) == k by {
      OwnBucket(k);
    }
    assert OneKey(k, v) == Edited(Put(k, v, Never), map[]);
    MatchingOne(k, v, prefix);
  }

  lemma OwnBucket(k: Str)
    requires IsSecretName(k)
    ensures BucketForKey(k) == k
  {
    RawBucketIsCut(k);
  }

  lemma MatchingOne(k: Str, v: Str, prefix: Str)
    requires prefix <= k
    ensures Matching(EditData(Put(k, v, Never), map[]), prefix) == map[k := v]
  {
    hide HashKey;
    var data := EditData(Put(k, v, Never), map[]);
    assert data[HashKey(k)].key == k;
    assert ItemKeys(data) == {k};
    assert Matching(data, prefix).Keys == {k};
  }

  // With any other prefix the subscriber can be left behind: when a request falls
  // between the deletion of a Secret and its creation anew, a key spelled like the
  // Secret is told to be gone but stays in seen, so its return is never told.
  lemma UnsafePrefixDiverges(prefix: Str, k: Str, v: Str) returns (run: seq<State>)
    requires IsSecretName(k) && prefix <= k
    ensures IsRun(prefix, run)
    ensures |run| >= 2 && Reconciled(prefix, run[|run| - 2], k, run[|run| - 1])
    ensures var s := run[|run| - 1];
            && k in s.buckets && Matching(s.buckets[k].data, prefix) == map[k := v] == s.seen
            && Fold(map[], s.notes) == map[]
  {
    hide WellFormed, Matching, AfterEdits, IsSecretName;
    var bs, m := OneKey(k, v), map[k := v];
    OneKeyBucket(k, v, prefix);
    var put, gone := Note(k, Some(v)), Note(k, None);
    var s0 := State(bs, map[], []);
    var s1 := State(bs, m, [put]);
    var s2 := State(map[], m, [put]);
    var s3 := State(map[], m, [put, gone]);
    var s4 := State(bs, m, [put, gone]);
    FoldSteps(k, v);
    assert Reconciled(prefix, s0, k, s1) by {
      assert [put][|s0.notes|..] == [put];
    }
    assert Written(s1, s2) && Written(s3, s4) by {
      EmptyIsWellFormed();
    }
    assert Reconciled(prefix, s2, k, s3) by {
      LowerKeepsPrefix(prefix, k);
      assert GoneNotes(k, prefix) == [gone];
      assert [put, gone] == [put] + [gone];
    }
    assert Reconciled(prefix, s4, k, s4) by {
      assert s4.notes[|s4.notes|..] == [];
    }
    run := [s0, s1, s2, s3, s4, s4];
    assert Next(prefix, s0, s1) && Next(prefix, s1, s2) && Next(prefix, s2, s3) && Next(prefix, s3, s4)
           && Next(prefix, s4, s4);
  }

  lemma LowerKeepsPrefix(prefix: Str, k: Str)
    requires prefix <= k
    ensures ToLower(prefix) <= ToLower(k)
  {
    assert forall i :: 0 <= i < |prefix| ==> prefix[i] == k[i];
  }

  // For every prefix: in every run the subscriber's copy is what was seen, exactly
  // when the prefix holds a slash or an upper-case letter.
  lemma AlwaysInStepIff(prefix: Str)
    ensures (forall run: seq<State> :: IsRun(prefix, run) ==> Fold(map[], run[|run| - 1].notes) == run[|run| - 1].seen)
            <==> SLASH in prefix || ToLower(prefix) != prefix
  {
    if SafePrefix(prefix) {
      forall run: seq<State> | IsRun(prefix, run) ensures Fold(map[], run[|run| - 1].notes) == run[|run| - 1].seen {
        MirrorIsSeen(prefix, run);
      }
    } else {
      var k: Str := prefix + [97];
      assert ToLower(k) == k;
      var run := UnsafePrefixDiverges(prefix, k, [1]);
      assert k in run[|run| - 1].seen;
    }
  }

  lemma EmptyIsWellFormed()
    ensures WellFormed(map[])
  {}

  lemma FoldSteps(k: Str, v: Str)
    ensures var put, gone, none, m := Note(k, Some(v)), Note(k, None), [], map[k := v];
            && IsDiff(map[], [put], m) && IsDiff(m, none, m) && Fold(map[], [put, gone]) == map[]
  {
    var put, gone := Note(k, Some(v)), Note(k, None);
    assert [put][..0] == [] && [put, gone][..1] == [put];
    assert Fold(map[], [put]) == map[k := v];
    assert Fold(map[], [put, gone]) == Apply(Fold(map[], [put]), gone);
  }
}
