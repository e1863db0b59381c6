/**
  The storage interface of one node: its calls as they run against the API
  server, each proved against the flat map of module Store. The holder of the
  leader lease is environment; `validPath` stands for the path check of another
  repository and is arbitrary.
 */
module Storage {
  import opened Text
  import opened Election
  import opened Kube
  import opened BucketNames
  import opened Store

  datatype Error = InvalidKey | NotLeader | KeyNotFound | ApiFailure | IteratorFailure

  datatype Result<T> = Ok(value: T) | Err(error: Error)

  /** Which API calls fail while a storage call runs; it makes at most one of each. */
  datatype Outage = Outage(get: bool, delete: bool, patch: bool)

  /** A goroutine started by GetValue that has yet to run: it alone holds the
      Secret as read, of which only the entries matter, and the expired key. */
  datatype Deferred = Deferred(snap: map<Str, DataItem>, key: Str)

  /** Why a write is refused before any API call. */
  function WriteRefusal(valid: bool, holder: Str, nodeId: Str): Option<Error> {
    if !valid then Some(InvalidKey) else if holder != nodeId then Some(NotLeader) else None
  }

  function ValueOrNotFound(found: Option<Str>): Result<Str> {
    match found
    case Some(v) => Ok(v)
    case None => Err(KeyNotFound)
  }

  ghost predicate AllSnapshots(pending: seq<Deferred>) {
    forall d :: d in pending ==> IsSnapshot(BucketForKey(d.key), d.snap, d.key)
  }

  // ---------- Selecting buckets ----------

  ghost predicate Selection(buckets: seq<(Str, Bucket)>, items: seq<(Str, Bucket)>, bs: Buckets, prefix: Str) {
    && IsListing(buckets, bs)
    && forall n :: n in NamesOf(buckets) <==> n in NamesOf(items) && n in bs && Selected(bs[n], prefix)
  }

  lemma SelectionStart(bs: Buckets, prefix: Str)
    ensures Selection([], [], bs, prefix)
  {}

  lemma SelectionStep(buckets: seq<(Str, Bucket)>, items: seq<(Str, Bucket)>, i: nat, bs: Buckets, prefix: Str)
    requires i < |items| && IsListing(items, bs) && Selection(buckets, items[..i], bs, prefix)
    ensures var buckets' := if Selected(items[i].1, prefix) then buckets + [items[i]] else buckets;
            Selection(buckets', items[..i + 1], bs, prefix)
  {
    assert items[..i + 1] == items[..i] + [items[i]];
    NamesOfAppend(items[..i], items[i]);
    NamesOfAppend(buckets, items[i]);
    NameIsNew(items, i);
  }

  lemma NameIsNew(items: seq<(Str, Bucket)>, i: nat)
    requires i < |items| && forall m, n :: 0 <= m < n < |items| ==> items[m].0 != items[n].0
    ensures items[i].0 !in NamesOf(items[..i])
  {}

  lemma SelectionEnd(buckets: seq<(Str, Bucket)>, items: seq<(Str, Bucket)>, bs: Buckets, prefix: Str)
    requires Selection(buckets, items, bs, prefix) && WellFormed(bs)
    requires forall n :: n in NamesOf(items) <==>
                         n in bs && MESH_STORAGE_LABEL in bs[n].labels && bs[n].labels[MESH_STORAGE_LABEL] == TRUE_VALUE
    ensures forall n :: n in NamesOf(buckets) <==> n in bs && Selected(bs[n], prefix)
    ensures IsListing(buckets, bs)
  {
    forall n | n in bs
      ensures MESH_STORAGE_LABEL in bs[n].labels && bs[n].labels[MESH_STORAGE_LABEL] == TRUE_VALUE
    {
      assert WellLabelled(bs, n);
    }
  }

  // ---------- Collecting keys ----------

  /** The key's entry lies in a bucket already done, or among the entries passed
      of the current one. */
  predicate Passed(key: Str, done: set<Str>, name: Str, entries: set<Str>) {
    BucketForKey(key) in done || (BucketForKey(key) == name && HashKey(key) in entries)
  }

  ghost predicate KeysFound(keys: seq<Str>, bs: Buckets, prefix: Str, now: int,
                            done: set<Str>, name: Str, entries: set<Str>)
  {
    && (forall i, j :: 0 <= i < j < |keys| ==> keys[i] != keys[j])
    && forall k :: k in keys <==> Listed(bs, prefix, now, k) && Passed(k, done, name, entries)
  }

  lemma KeysFoundStart(bs: Buckets, prefix: Str, now: int)
    ensures forall items: seq<(Str, Bucket)> {:trigger items[..0]} ::
            KeysFound([], bs, prefix, now, NamesOf(items[..0]), [], {})
  {}

  lemma KeysFoundEnter(keys: seq<Str>, bs: Buckets, prefix: Str, now: int, buckets: seq<(Str, Bucket)>, i: nat)
    requires i < |buckets| && KeysFound(keys, bs, prefix, now, NamesOf(buckets[..i]), [], {})
    requires IsListing(buckets, bs)
    requires forall n :: n in NamesOf(buckets) <==> n in bs && Selected(bs[n], prefix)
    ensures KeysFound(keys, bs, prefix, now, NamesOf(buckets[..i]), buckets[i].0, {})
    ensures buckets[i].0 !in NamesOf(buckets[..i]) && Selected(buckets[i].1, prefix)
  {
    NameIsNew(buckets, i);
    NamesOfAppend(buckets, buckets[i]);
  }

  lemma EntryPassed(bs: Buckets, done: set<Str>, name: Str, entries: set<Str>, entry: Str)
    requires WellFormed(bs) && name in bs && entry in bs[name].data
    requires name !in done && entry !in entries
    ensures var item := bs[name].data[entry];
            && item.key in Flat(bs) && Flat(bs)[item.key] == Entry(item.value, item.expiry)
            && BucketForKey(item.key) == name && !Passed(item.key, done, name, entries)
            && forall k :: k in Flat(bs) ==> (Passed(k, done, name, entries + {entry})
                                              <==> Passed(k, done, name, entries) || k == item.key)
  {
    StoredIsFlat(bs, name, entry);
    forall k | k in Flat(bs) && HashKey(k) == entry && BucketForKey(k) == name ensures k == bs[name].data[entry].key {
      FindIsFlat(bs, k);
    }
  }

  lemma KeysFoundStep(keys: seq<Str>, secrets: Secrets, prefix: Str, now: int,
                      done: set<Str>, name: Str, entries: set<Str>, entry: Str)
    requires Sound(secrets) && name in View(secrets) && entry in View(secrets)[name].data
    requires name !in done && entry !in entries && Selected(View(secrets)[name], prefix)
    requires KeysFound(keys, View(secrets), prefix, now, done, name, entries)
    ensures var item := View(secrets)[name].data[entry];
            KeysFound(if prefix <= item.key && Live(item.expiry, now) then keys + [item.key] else keys,
                      View(secrets), prefix, now, done, name, entries + {entry})
  {
    hide WellFormed, View, Flat, Selected, BucketForKey, HashKey, Passed;
    var bs := View(secrets);
    SoundMeans(secrets);
    EntryPassed(bs, done, name, entries, entry);
  }

  lemma KeysFoundLeave(keys: seq<Str>, secrets: Secrets, prefix: Str, now: int, buckets: seq<(Str, Bucket)>, i: nat)
    requires Sound(secrets) && i < |buckets| && IsListing(buckets, View(secrets))
    requires KeysFound(keys, View(secrets), prefix, now, NamesOf(buckets[..i]), buckets[i].0, buckets[i].1.data.Keys)
    ensures KeysFound(keys, View(secrets), prefix, now, NamesOf(buckets[..i + 1]), [], {})
  {
    hide WellFormed, View, Flat, Selected, BucketForKey;
    var bs, name := View(secrets), buckets[i].0;
    SoundMeans(secrets);
    assert buckets[..i + 1] == buckets[..i] + [buckets[i]];
    NamesOfAppend(buckets[..i], buckets[i]);
    forall k | k in Flat(bs) && BucketForKey(k) == name ensures HashKey(k) in bs[name].data {
      FindIsFlat(bs, k);
    }
  }

  lemma KeysFoundEnd(keys: seq<Str>, secrets: Secrets, prefix: Str, now: int, buckets: seq<(Str, Bucket)>)
    requires Sound(secrets) && KeysFound(keys, View(secrets), prefix, now, NamesOf(buckets), [], {})
    requires forall n :: n in NamesOf(buckets) <==> n in View(secrets) && Selected(View(secrets)[n], prefix)
    ensures forall k :: k in keys <==> Listed(View(secrets), prefix, now, k)
    ensures forall i, j :: 0 <= i < j < |keys| ==> keys[i] != keys[j]
  {}

  // ---------- Calling the iterator ----------

  function Firsts(calls: seq<(Str, Str)>): (keys: seq<Str>)
    ensures |keys| == |calls|
    ensures forall i :: 0 <= i < |calls| ==> keys[i] == calls[i].0
  {
    seq(|calls|, i requires 0 <= i < |calls| => calls[i].0)
  }

  ghost predicate ValuesFound(calls: seq<(Str, Str)>, bs: Buckets) {
    forall c :: c in calls ==> c.0 in Flat(bs) && Flat(bs)[c.0].value == c.1
  }

  ghost predicate NoneFails(calls: seq<(Str, Str)>, fails: (Str, Str) -> bool) {
    forall c :: c in calls ==> !fails(c.0, c.1)
  }

  lemma NoneFailsMeans(calls: seq<(Str, Str)>, fails: (Str, Str) -> bool)
    requires NoneFails(calls, fails)
    ensures forall c :: c in calls ==> !fails(c.0, c.1)
  {}

  lemma CallsStart(bs: Buckets, prefix: Str, now: int, fails: (Str, Str) -> bool)
    ensures forall items: seq<(Str, Bucket)> {:trigger items[..0]} ::
            KeysFound(Firsts([]), bs, prefix, now, NamesOf(items[..0]), [], {})
    ensures ValuesFound([], bs) && NoneFails([], fails)
  {}

  lemma CallStep(calls: seq<(Str, Str)>, secrets: Secrets, call: (Str, Str), name: Str, entry: Str,
      fails: (Str, Str) -> bool)
    requires Sound(secrets) && name in View(secrets) && entry in View(secrets)[name].data
    requires call.0 == View(secrets)[name].data[entry].key && call.1 == View(secrets)[name].data[entry].value
    requires ValuesFound(calls, View(secrets)) && NoneFails(calls, fails)
    ensures Firsts(calls + [call]) == Firsts(calls) + [call.0]
    ensures ValuesFound(calls + [call], View(secrets))
    ensures !fails(call.0, call.1) ==> NoneFails(calls + [call], fails)
  {
    hide WellFormed, View, Flat, BucketForKey, HashKey;
    StoredIsFlat(View(secrets), name, entry);
  }

  lemma CallsEnd(calls: seq<(Str, Str)>, bs: Buckets, prefix: Str, now: int, done: set<Str>, name: Str,
      entries: set<Str>)
    requires KeysFound(Firsts(calls), bs, prefix, now, done, name, entries) && ValuesFound(calls, bs)
    ensures forall i, j :: 0 <= i < j < |calls| ==> calls[i].0 != calls[j].0
    ensures forall c :: c in calls ==> Listed(bs, prefix, now, c.0) && Flat(bs)[c.0].value == c.1
    ensures forall k :: k in Firsts(calls) ==> k in Flat(bs) && (k, Flat(bs)[k].value) in calls
  {
    forall c | c in calls ensures c.0 in Firsts(calls) {
      var i :| 0 <= i < |calls| && calls[i] == c;
      assert Firsts(calls)[i] == c.0;
    }
    forall k | k in Firsts(calls) ensures k in Flat(bs) && (k, Flat(bs)[k].value) in calls {
      var i :| 0 <= i < |calls| && Firsts(calls)[i] == k;
      assert calls[i] in calls && calls[i] == (k, calls[i].1);
    }
    forall i, j | 0 <= i < j < |calls| ensures calls[i].0 != calls[j].0 {
      assert Firsts(calls)[i] != Firsts(calls)[j];
    }
  }

  // ---------- The calls ----------

  class Storage {
    const nodeId: Str
    const validPath: Str -> bool
    const server: ApiServer
    const elector: Elector
    var pending: seq<Deferred>

    constructor (nodeId: Str, validPath: Str -> bool, server: ApiServer, elector: Elector)
      requires server.Valid() && Sound(server.secrets)
      ensures Valid() && this.server == server && this.elector == elector && pending == []
      ensures this.nodeId == nodeId && this.validPath == validPath
    {
      this.nodeId, this.validPath, this.server, this.elector := nodeId, validPath, server, elector;
      pending := [];
    }

    ghost predicate Valid()
      reads this, server
    {
      server.Valid() && Sound(server.secrets) && AllSnapshots(pending)
    }

    ghost function Buckets(): Buckets
      reads this, server
    {
      View(server.secrets)
    }

    /** Content of the store as one flat map. */
    ghost function Content(): FlatMap
      reads this, server
    {
      Flat(Buckets())
    }

    // A value is returned up to and including its expiry.
    method GetValue(key: Str, now: int, down: bool) returns (r: Result<Str>)
      requires Valid()
      modifies this`pending
      ensures Valid()
      ensures r.Ok? <==> && validPath(key) && !down && key in Content() && Content()[key].value != []
                         && (Content()[key].expiry.Never? || now <= Content()[key].expiry.time)
      ensures r.Ok? ==> r.value == Content()[key].value
      ensures r.Err? ==> r.error == if !validPath(key) then InvalidKey else if down then ApiFailure else KeyNotFound
      ensures validPath(key) && !down ==> r == ValueOrNotFound(Visible(Content(), key, now))
      ensures pending == if && validPath(key) && !down && elector.holder == nodeId && key in Content()
                            && Content()[key].expiry.At? && Content()[key].expiry.time < now
                         then old(pending) + [Deferred(DataOf(Buckets(), BucketForKey(key)), key)]
                         else old(pending)
    {
      hide View, WellFormed, AllOurs, IsSnapshot, Flat;
      if !validPath(key) {
        return Err(InvalidKey);
      }
      var bucket := BucketForKey(key);
      var secret := new SecretObject();
      var outcome := server.Get(bucket, secret, down);
      SoundFind(server.secrets, key);
      if outcome != Done {
        return if outcome == NotFound then Err(KeyNotFound) else Err(ApiFailure);
      }
      var keyHash := HashKey(key);
      if keyHash !in secret.data {
        return Err(KeyNotFound);
      }
      var item := secret.data[keyHash];
      if !Live(item.expiry, now) {
        if elector.IsLeader(nodeId) {
          pending := pending + [Deferred(secret.data, key)];
        }
        return Err(KeyNotFound);
      }
      if item.value == [] {
        return Err(KeyNotFound);
      }
      return Ok(item.value);
    }

    method PutValue(key: Str, value: Str, ttl: int, now: int, down: Outage) returns (r: Result<()>)
      requires Valid()
      modifies server
      ensures Valid()
      ensures r == if !validPath(key) then Err(InvalidKey)
                   else if elector.holder != nodeId then Err(NotLeader)
                   else if down.get || down.patch then Err(ApiFailure)
                   else Ok(())
      ensures WriteRefusal(validPath(key), elector.holder, nodeId)
              == if r == Err(InvalidKey) || r == Err(NotLeader) then Some(r.error) else None
      ensures Content() == if r.Err? then old(Content())
                           else old(Content())[key := Entry(value, if ttl == 0 then Never else At(now + ttl))]
      ensures Buckets() == if r.Err? then old(Buckets())
                           else Edited(Put(key, value, if ttl == 0 then Never else At(now + ttl)), old(Buckets()))
    {
      hide View, WellFormed, AllOurs, IsSnapshot, Flat, BucketForKey, HashKey, RawBucketForKey;
      if !validPath(key) {
        return Err(InvalidKey);
      }
      if !elector.IsLeader(nodeId) {
        return Err(NotLeader);
      }
      var bucket := BucketForKey(key);
      var secret := new SecretObject();
      var outcome := server.Get(bucket, secret, down.get);
      if outcome == Failed {
        return Err(ApiFailure);
      }
      SoundFind(server.secrets, key);
      if outcome == NotFound {
        secret.name := bucket;
        secret.labels := LabelsFor(RawBucketForKey(key));
        secret.data := map[];
      }
      secret.data := secret.data[HashKey(key) := DataItem(key, value, ExpiryOf(ttl, now))];
      assert HashKey(key) in secret.data;
      ghost var e := Put(key, value, ExpiryOf(ttl, now));
      var ok := PatchBucket(secret, RawBucketForKey(key), down);
      if !ok {
        return Err(ApiFailure);
      }
      SoundEdit(old(server.secrets), e, server.secrets);
      return Ok(());
    }

    // Removing the last key of a bucket takes two API calls; when only the first
    // succeeds the call reports a failure although the key is gone.
    method Delete(key: Str, down: Outage) returns (r: Result<()>)
      requires Valid()
      modifies server
      ensures Valid()
      ensures var emptied := EditedBucket(Remove(key), old(Buckets())).data == map[];
              r == if !validPath(key) then Err(InvalidKey)
                   else if elector.holder != nodeId then Err(NotLeader)
                   else if down.get then Err(ApiFailure)
                   else if BucketForKey(key) !in old(Buckets()) then Err(KeyNotFound)
                   else if (emptied && down.delete) || down.patch then Err(ApiFailure)
                   else Ok(())
      ensures WriteRefusal(validPath(key), elector.holder, nodeId)
              == if r == Err(InvalidKey) || r == Err(NotLeader) then Some(r.error) else None
      ensures var emptied := EditedBucket(Remove(key), old(Buckets())).data == map[];
              if r.Ok? then
                Buckets() == Edited(Remove(key), old(Buckets())) && Content() == old(Content()) - {key}
              else if r.error == ApiFailure && emptied && !down.get && !down.delete then
                Buckets() == old(Buckets()) - {BucketForKey(key)} && Content() == old(Content()) - {key}
              else
                Buckets() == old(Buckets())
    {
      hide View, WellFormed, AllOurs, IsSnapshot, Flat, BucketForKey;
      if !validPath(key) {
        return Err(InvalidKey);
      }
      if !elector.IsLeader(nodeId) {
        return Err(NotLeader);
      }
      var bucket := BucketForKey(key);
      var secret := new SecretObject();
      var outcome := server.Get(bucket, secret, down.get);
      if outcome != Done {
        return if outcome == NotFound then Err(KeyNotFound) else Err(ApiFailure);
      }
      SoundFind(server.secrets, key);
      secret.data := secret.data - {HashKey(key)};
      ghost var e := Remove(key);
      var ok := PatchBucket(secret, RawBucketForKey(key), down);
      if ok || Buckets() != old(Buckets()) {
        SoundEdit(old(server.secrets), e, server.secrets);
      }
      return if ok then Ok(()) else Err(ApiFailure);
    }

    /** Runs the i-th waiting goroutine: no leader check, no fresh read. */
    method RunDeferred(i: nat, down: Outage) returns (ok: bool)
      requires Valid() && i < |pending|
      modifies this`pending, server
      ensures Valid()
      ensures pending == old(pending[..i] + pending[i + 1..])
      ensures var Deferred(snap, key) := old(pending[i]);
              var emptied := snap - {HashKey(key)} == map[];
              && ok == !((emptied && down.delete) || down.patch)
              && Buckets() == if ok then Reaped(old(Buckets()), snap, key)
                              else if emptied && !down.delete then old(Buckets()) - {BucketForKey(key)}
                              else old(Buckets())
    {
      hide View, AllOurs, WellFormed, IsSnapshot, Flat, BucketForKey;
      var Deferred(snap, key) := pending[i];
      pending := pending[..i] + pending[i + 1..];
      var secret := new SecretObject();
      secret.name, secret.data := BucketForKey(key), snap;
      secret.data := secret.data - {HashKey(key)};
      ok := PatchBucket(secret, RawBucketForKey(key), down);
      SoundReap(old(server.secrets), snap, key, server.secrets);
    }

    method PatchBucket(bucket: SecretObject, rawBucketName: Str, down: Outage) returns (ok: bool)
      requires server.Valid() && Sound(server.secrets)
      modifies server, bucket`labels, bucket`resourceVersion, bucket`uid, bucket`generation, bucket`managedFields
      ensures server.Valid() && AllOurs(server.secrets)
      ensures ok == !((bucket.data == map[] && down.delete) || down.patch)
      ensures Buckets() == if ok then old(Buckets())[bucket.name := Bucket(LabelsFor(rawBucketName), bucket.data)]
                           else if bucket.data == map[] && !down.delete then old(Buckets()) - {bucket.name}
                           else old(Buckets())
    {
      hide View, WellFormed, AllOurs;
      SoundMeans(server.secrets);
      var outcome;
      if bucket.data == map[] {
        DeleteDrops(server.secrets, bucket.name);
        outcome := server.Delete(bucket.name, down.delete);
        if outcome == Failed {
          return false;
        }
      }
      bucket.labels := LabelsFor(rawBucketName);
      DropThenSet(old(Buckets()), bucket.name, Bucket(bucket.labels, bucket.data));
      outcome := PatchObject(server, bucket, down.patch);
      return outcome == Done;
    }

    // The buckets taking part in a query.
    method BucketsForPrefix(prefix: Str, down: bool) returns (ok: bool, buckets: seq<(Str, Bucket)>)
      requires Valid()
      ensures ok == !down
      ensures ok ==> IsListing(buckets, Buckets())
      ensures ok ==> forall n :: n in NamesOf(buckets) <==> n in Buckets() && Selected(Buckets()[n], prefix)
    {
      hide AllOurs, WellFormed, AllSnapshots, Selection, RawBucketForKey;
      var outcome, items := server.List(MESH_STORAGE_LABEL, TRUE_VALUE, down);
      buckets := [];
      if outcome != Done {
        return false, buckets;
      }
      SelectionStart(Buckets(), prefix);
      assert items[..0] == [];
      for i := 0 to |items|
        invariant Selection(buckets, items[..i], Buckets(), prefix)
      {
        SelectionStep(buckets, items, i, Buckets(), prefix);
        if |prefix| == 0 {
          buckets := buckets + [items[i]];
          continue;
        }
        var prefixRaw := RawBucketForKey(prefix);
        if prefixRaw <= RawLabel(items[i].1) {
          buckets := buckets + [items[i]];
        }
      }
      assert items[..|items|] == items;
      SelectionEnd(buckets, items, Buckets(), prefix);
      return true, buckets;
    }

    method ListKeys(prefix: Str, now: int, down: bool) returns (r: Result<seq<Str>>)
      requires Valid()
      ensures if down then r == Err(ApiFailure) else r.Ok?
      ensures r.Ok? ==> forall i, j :: 0 <= i < j < |r.value| ==> r.value[i] != r.value[j]
      ensures r.Ok? ==> forall k :: k in r.value <==> Listed(Buckets(), prefix, now, k)
    {
      hide AllOurs, WellFormed, AllSnapshots, KeysFound, Listed, Selected, BucketForKey, NamesOf, View, Sound;
      var ok, buckets := BucketsForPrefix(prefix, down);
      if !ok {
        return Err(ApiFailure);
      }
      var keys: seq<Str> := [];
      KeysFoundStart(Buckets(), prefix, now);
      ghost var bs := Buckets();
      for i := 0 to |buckets|
        invariant KeysFound(keys, bs, prefix, now, NamesOf(buckets[..i]), [], {})
      {
        var name, data := buckets[i].0, buckets[i].1.data;
        ghost var done, passed := NamesOf(buckets[..i]), {};
        KeysFoundEnter(keys, bs, prefix, now, buckets, i);
        var todo := data.Keys;
        while todo != {}
          invariant passed == data.Keys - todo
          invariant KeysFound(keys, bs, prefix, now, done, name, passed)
        {
          var entry :| entry in todo;
          var item := data[entry];
          KeysFoundStep(keys, server.secrets, prefix, now, done, name, passed, entry);
          todo, passed := todo - {entry}, passed + {entry};
          if !(prefix <= item.key) {
            continue;
          }
          if !Live(item.expiry, now) {
            continue;
          }
          keys := keys + [item.key];
        }
        assert passed == data.Keys;
        KeysFoundLeave(keys, server.secrets, prefix, now, buckets, i);
      }
      assert buckets[..|buckets|] == buckets;
      KeysFoundEnd(keys, server.secrets, prefix, now, buckets);
      return Ok(keys);
    }

    // `fails` says on which pairs the caller's function returns an error; `calls`
    // are the pairs it was called with, in order.
    method IterPrefix(prefix: Str, fails: (Str, Str) -> bool, now: int, down: bool)
      returns (r: Result<()>, calls: seq<(Str, Str)>)
      requires Valid()
      ensures if down then r == Err(ApiFailure) else r.Ok? || r == Err(IteratorFailure)
      ensures forall i, j :: 0 <= i < j < |calls| ==> calls[i].0 != calls[j].0
      ensures forall c :: c in calls ==> Listed(Buckets(), prefix, now, c.0) && Content()[c.0].value == c.1
      ensures r.Ok? ==> forall k :: Listed(Buckets(), prefix, now, k) ==> (k, Content()[k].value) in calls
      ensures r.Ok? ==> forall c :: c in calls ==> !fails(c.0, c.1)
      ensures r == Err(ApiFailure) ==> calls == []
      ensures r == Err(IteratorFailure) ==>
                && calls != [] && fails(calls[|calls| - 1].0, calls[|calls| - 1].1)
                && forall c :: c in calls[..|calls| - 1] ==> !fails(c.0, c.1)
    {
      hide AllOurs, WellFormed, AllSnapshots, KeysFound, ValuesFound, NoneFails, Selected, BucketForKey, NamesOf, View,
           Sound, Firsts;
      calls := [];
      var ok, buckets := BucketsForPrefix(prefix, down);
      if !ok {
        return Err(ApiFailure), calls;
      }
      ghost var bs := Buckets();
      CallsStart(bs, prefix, now, fails);
      for i := 0 to |buckets|
        invariant KeysFound(Firsts(calls), bs, prefix, now, NamesOf(buckets[..i]), [], {})
        invariant ValuesFound(calls, bs) && NoneFails(calls, fails)
      {
        var name, data := buckets[i].0, buckets[i].1.data;
        ghost var done, passed := NamesOf(buckets[..i]), {};
        KeysFoundEnter(Firsts(calls), bs, prefix, now, buckets, i);
        var todo := data.Keys;
        while todo != {}
          invariant passed == data.Keys - todo
          invariant KeysFound(Firsts(calls), bs, prefix, now, done, name, passed)
          invariant ValuesFound(calls, bs) && NoneFails(calls, fails)
        {
          var entry :| entry in todo;
          var item := data[entry];
          KeysFoundStep(Firsts(calls), server.secrets, prefix, now, done, name, passed, entry);
          todo, passed := todo - {entry}, passed + {entry};
          if !(prefix <= item.key) {
            continue;
          }
          if !Live(item.expiry, now) {
            continue;
          }
          CallStep(calls, server.secrets, (item.key, item.value), name, entry, fails);
          ghost var before := calls;
          calls := calls + [(item.key, item.value)];
          if fails(item.key, item.value) {
            NoneFailsMeans(before, fails);
            CallsEnd(calls, bs, prefix, now, done, name, passed);
            assert calls[..|calls| - 1] == before;
            return Err(IteratorFailure), calls;
          }
        }
        assert passed == data.Keys;
        KeysFoundLeave(Firsts(calls), server.secrets, prefix, now, buckets, i);
      }
      assert buckets[..|buckets|] == buckets;
      KeysFoundEnd(Firsts(calls), server.secrets, prefix, now, buckets);
      CallsEnd(calls, bs, prefix, now, NamesOf(buckets), [], {});
      NoneFailsMeans(calls, fails);
      return Ok(()), calls;
    }
  }
}
