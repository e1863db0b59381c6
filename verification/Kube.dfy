/**
  The part of the Kubernetes API the bucketed store stands on: Secrets with
  server-side apply. Every field of a Secret (a label or a data entry) records
  which managers own it; applying a configuration sets the fields it names, and
  removes a field it no longer names only when the applying manager was the sole
  owner.

  Any call may fail without effect; its parameter `down` says whether it does.
  Values are kept decoded.
 */
module Kube {
  import opened Text

  datatype Option<+T> = None | Some(value: T)

  /** When an item stops being visible; Never is Go's zero time. */
  datatype Expiry = Never | At(time: int)

  datatype DataItem = DataItem(key: Str, value: Str, expiry: Expiry)

  /** The one manager every write of the provider uses. */
  const FIELD_OWNER := "storage.webmesh.io"

  datatype Owned<V> = Owned(value: V, owners: set<string>)

  type Fields<K(==), V> = map<K, Owned<V>>

  function Values<K, V>(fields: Fields<K, V>): (m: map<K, V>)
    ensures m.Keys == fields.Keys
  {
    map n | n in fields :: fields[n].value
  }

  /** Forced server-side apply of `config` by `manager` over live fields. */
  function ApplyFields<K, V(==)>(live: Fields<K, V>, manager: string, config: map<K, V>): Fields<K, V> {
    map n | n in live.Keys + config.Keys && (n in config || live[n].owners != {manager}) ::
      if n !in config then Owned(live[n].value, live[n].owners - {manager})
      else if n in live && live[n].value == config[n] then Owned(config[n], live[n].owners + {manager})
      else Owned(config[n], {manager})
  }

  ghost predicate SolelyOwned<K(!new), V>(fields: Fields<K, V>, manager: string) {
    forall n :: n in fields ==> fields[n].owners == {manager}
  }

  // Applying replaces the fields by the configuration exactly when no other
  // manager has a say in a field the configuration leaves out.
  lemma ApplyReplacesIff<K(!new), V>(live: Fields<K, V>, manager: string, config: map<K, V>)
    ensures Values(ApplyFields(live, manager, config)) == config
            <==> forall n :: n in live && n !in config ==> live[n].owners == {manager}
  {
    var out := ApplyFields(live, manager, config);
    assert forall n :: n in config ==> n in out && Values(out)[n] == config[n];
    if Values(out) == config {
      assert out.Keys == config.Keys;
      forall n | n in live && n !in config ensures live[n].owners == {manager} {
        assert n !in out;
      }
    }
    if forall n :: n in live && n !in config ==> live[n].owners == {manager} {
      assert Values(out).Keys == config.Keys;
    }
  }

  lemma ApplyKeepsSoleOwner<K(!new), V>(live: Fields<K, V>, manager: string, config: map<K, V>)
    requires SolelyOwned(live, manager)
    ensures SolelyOwned(ApplyFields(live, manager, config), manager)
    ensures Values(ApplyFields(live, manager, config)) == config
  {
    ApplyReplacesIff(live, manager, config);
  }

  // Who owns a field after a forced apply: the manager exactly what it names, and
  // another manager what it owned before, unless that was set to something else.
  lemma OwnersAfterApply<K(!new), V>(live: Fields<K, V>, manager: string, config: map<K, V>, n: K, other: string)
    requires other != manager && forall m :: m in live ==> live[m].owners != {}
    ensures var out := ApplyFields(live, manager, config);
            && (n in out && manager in out[n].owners <==> n in config)
            && (n in out && other in out[n].owners
                <==> n in live && other in live[n].owners && (n in config ==> config[n] == live[n].value))
            && (n in out ==> out[n].owners != {})
  {
    if n in live && n !in config && live[n].owners != {manager} {
      var owners := live[n].owners;
      assert owners <= {manager} ==> owners == {manager};
      var o :| o in owners && o != manager;
      assert o in owners - {manager};
    }
  }

  datatype Secret = Secret(labels: Fields<string, Str>, data: Fields<Str, DataItem>)

  type Secrets = map<Str, Secret>

  /** A Secret without its ownership records. */
  datatype Bucket = Bucket(labels: map<string, Str>, data: map<Str, DataItem>)

  type Buckets = map<Str, Bucket>

  function ViewSecret(s: Secret): Bucket {
    Bucket(Values(s.labels), Values(s.data))
  }

  function View(secrets: Secrets): (buckets: Buckets)
    ensures buckets.Keys == secrets.Keys
  {
    map n | n in secrets :: ViewSecret(secrets[n])
  }

  ghost predicate AllOurs(secrets: Secrets) {
    forall n :: n in secrets ==>
                  SolelyOwned(secrets[n].labels, FIELD_OWNER) && SolelyOwned(secrets[n].data, FIELD_OWNER)
  }

  /** The server's state after a successful patch. */
  function Patched(secrets: Secrets, manager: string, name: Str, config: Bucket): Secrets {
    var live := if name in secrets then secrets[name] else Secret(map[], map[]);
    secrets[name := Secret(ApplyFields(live.labels, manager, config.labels),
                           ApplyFields(live.data, manager, config.data))]
  }

  // In a store only this provider writes, patching a bucket is exact replacement.
  lemma PatchReplaces(secrets: Secrets, name: Str, config: Bucket)
    requires AllOurs(secrets)
    ensures AllOurs(Patched(secrets, FIELD_OWNER, name, config))
    ensures View(Patched(secrets, FIELD_OWNER, name, config)) == View(secrets)[name := config]
  {
    var live := if name in secrets then secrets[name] else Secret(map[], map[]);
    ApplyKeepsSoleOwner(live.labels, FIELD_OWNER, config.labels);
    ApplyKeepsSoleOwner(live.data, FIELD_OWNER, config.data);
  }

  lemma DropThenSet<K, V>(m: map<K, V>, k: K, v: V)
    ensures (m - {k})[k := v] == m[k := v]
  {}

  lemma DeleteDrops(secrets: Secrets, name: Str)
    requires AllOurs(secrets)
    ensures AllOurs(secrets - {name})
    ensures View(secrets - {name}) == View(secrets) - {name}
  {}

  /** One successful write to the server by some manager. */
  datatype ServerWrite = PatchWrite(manager: string, name: Str, config: Bucket) | DeleteWrite(name: Str)

  function SecretsAfter(writes: seq<ServerWrite>): Secrets {
    if writes == [] then map[]
    else
      var before := SecretsAfter(writes[..|writes| - 1]);
      match writes[|writes| - 1]
      case PatchWrite(m, n, c) => Patched(before, m, n, c)
      case DeleteWrite(n) => before - {n}
  }

  /** What the store would be were every patch an outright replacement. */
  function Replaced(writes: seq<ServerWrite>): Buckets {
    if writes == [] then map[]
    else
      var before := Replaced(writes[..|writes| - 1]);
      match writes[|writes| - 1]
      case PatchWrite(_, n, c) => before[n := c]
      case DeleteWrite(n) => before - {n}
  }

  // In every run whose patches all use the provider's field owner, each entry
  // has that one owner and the store is what replacement would give.
  lemma {:induction false} SoleOwnerRun(writes: seq<ServerWrite>)
    requires forall i :: 0 <= i < |writes| && writes[i].PatchWrite? ==> writes[i].manager == FIELD_OWNER
    ensures AllOurs(SecretsAfter(writes))
    ensures View(SecretsAfter(writes)) == Replaced(writes)
  {
    if writes != [] {
      var init := writes[..|writes| - 1];
      SoleOwnerRun(init);
      match writes[|writes| - 1]
      case PatchWrite(m, n, c) =>
        assert m == FIELD_OWNER;
        PatchReplaces(SecretsAfter(init), n, c);
      case DeleteWrite(n) =>
        DeleteDrops(SecretsAfter(init), n);
    }
  }

  // With a second manager the premise is needed: an entry another manager owns
  // outlives every later patch of this provider that leaves it out.
  lemma {:induction false} ForeignEntryStays(writes: seq<ServerWrite>, start: nat, other: string, name: Str, entry: Str)
    requires other != FIELD_OWNER && start <= |writes|
    requires name in SecretsAfter(writes[..start]) && entry in SecretsAfter(writes[..start])[name].data
    requires other in SecretsAfter(writes[..start])[name].data[entry].owners
    requires forall i :: start <= i < |writes| ==>
                           writes[i].PatchWrite? && writes[i].manager == FIELD_OWNER && entry !in writes[i].config.data
    ensures name in SecretsAfter(writes) && entry in SecretsAfter(writes)[name].data
    ensures SecretsAfter(writes)[name].data[entry].value == SecretsAfter(writes[..start])[name].data[entry].value
    ensures other in SecretsAfter(writes)[name].data[entry].owners
  {
    if start == |writes| {
      assert writes[..start] == writes;
    } else {
      var init := writes[..|writes| - 1];
      assert init[..start] == writes[..start];
      ForeignEntryStays(init, start, other, name, entry);
    }
  }

  datatype Outcome = Done | NotFound | Conflict | BadRequest | Failed

  /** A Secret in a client's memory. A zero resourceVersion or uid is unset. */
  class SecretObject {
    var name: Str
    var labels: map<string, Str>
    var data: map<Str, DataItem>
    var resourceVersion: nat
    var uid: nat
    var generation: nat
    var managedFields: set<string>

    constructor ()
      ensures name == [] && labels == map[] && data == map[]
      ensures resourceVersion == 0 && uid == 0 && generation == 0 && managedFields == {}
    {
      name, labels, data := [], map[], map[];
      resourceVersion, uid, generation, managedFields := 0, 0, 0, {};
    }

    function Content(): Bucket
      reads this
    {
      Bucket(labels, data)
    }
  }

  datatype Stamp = Stamp(resourceVersion: nat, uid: nat, generation: nat)

  class ApiServer {
    var secrets: Secrets
    var stamps: map<Str, Stamp>
    var lastStamp: nat

    ghost predicate Valid()
      reads this
    {
      && stamps.Keys == secrets.Keys
      && forall n :: n in stamps ==> 0 < stamps[n].resourceVersion <= lastStamp && 0 < stamps[n].uid <= lastStamp
    }

    constructor ()
      ensures Valid() && secrets == map[]
    {
      secrets, stamps, lastStamp := map[], map[], 0;
    }

    method Get(name: Str, obj: SecretObject, down: bool) returns (outcome: Outcome)
      requires Valid()
      modifies obj
      ensures outcome == if down then Failed else if name in secrets then Done else NotFound
      ensures outcome == Done ==> obj.name == name && obj.Content() == ViewSecret(secrets[name])
                                  && obj.resourceVersion == stamps[name].resourceVersion
      ensures outcome != Done ==> unchanged(obj)
    {
      if down {
        return Failed;
      }
      if name !in secrets {
        return NotFound;
      }
      var stamp := stamps[name];
      obj.name, obj.labels, obj.data := name, Values(secrets[name].labels), Values(secrets[name].data);
      obj.resourceVersion, obj.uid, obj.generation := stamp.resourceVersion, stamp.uid, stamp.generation;
      obj.managedFields := {FIELD_OWNER};
      return Done;
    }

    /** All Secrets carrying the label `tag`, in no particular order. */
    method List(tag: string, value: Str, down: bool) returns (outcome: Outcome, items: seq<(Str, Bucket)>)
      requires Valid()
      ensures outcome == if down then Failed else Done
      ensures outcome == Done ==> IsListing(items, View(secrets))
      ensures outcome == Done ==>
                forall n :: n in NamesOf(items)
                            <==> n in secrets && tag in View(secrets)[n].labels && View(secrets)[n].labels[tag] == value
    {
      items := [];
      if down {
        return Failed, [];
      }
      var todo := secrets.Keys;
      while todo != {}
        invariant todo <= secrets.Keys
        invariant IsListing(items, View(secrets))
        invariant forall n :: n in NamesOf(items)
                              <==> n in secrets && n !in todo && Matches(View(secrets)[n], tag, value)
      {
        var n :| n in todo;
        todo := todo - {n};
        var bucket := ViewSecret(secrets[n]);
        if Matches(bucket, tag, value) {
          NamesOfAppend(items, (n, bucket));
          items := items + [(n, bucket)];
        }
      }
      return Done, items;
    }

    method Delete(name: Str, down: bool) returns (outcome: Outcome)
      requires Valid()
      modifies this
      ensures Valid()
      ensures outcome == if down then Failed else if name in old(secrets) then Done else NotFound
      ensures secrets == if outcome == Done then old(secrets) - {name} else old(secrets)
    {
      if down {
        return Failed;
      }
      if name !in secrets {
        return NotFound;
      }
      secrets, stamps := secrets - {name}, stamps - {name};
      return Done;
    }

    /** Forced server-side apply. A set resourceVersion or uid is a
        precondition on the live object, and managed fields may not be sent. */
    method Apply(obj: SecretObject, manager: string, down: bool) returns (outcome: Outcome)
      requires Valid()
      modifies this
      ensures Valid()
      ensures outcome == if down then Failed
                         else if obj.managedFields != {} then BadRequest
                         else if obj.resourceVersion != 0
                                 && (obj.name in old(stamps) ==>
                                       old(stamps)[obj.name].resourceVersion != obj.resourceVersion) then Conflict
                         else if obj.uid != 0
                                 && (obj.name in old(stamps) ==> old(stamps)[obj.name].uid != obj.uid) then Conflict
                         else Done
      ensures secrets == if outcome == Done then Patched(old(secrets), manager, obj.name, obj.Content())
                         else old(secrets)
      ensures outcome == Done ==> forall n :: n in old(stamps) ==>
                old(stamps)[n].resourceVersion < stamps[obj.name].resourceVersion
    {
      if down {
        return Failed;
      }
      if obj.managedFields != {} {
        return BadRequest;
      }
      if obj.resourceVersion != 0 && (obj.name !in stamps || stamps[obj.name].resourceVersion != obj.resourceVersion) {
        return Conflict;
      }
      if obj.uid != 0 && (obj.name !in stamps || stamps[obj.name].uid != obj.uid) {
        return Conflict;
      }
      lastStamp := lastStamp + 1;
      var stamp := if obj.name in stamps then
        stamps[obj.name].(resourceVersion := lastStamp, generation := stamps[obj.name].generation + 1)
      else Stamp(lastStamp, lastStamp, 1);
      secrets := Patched(secrets, manager, obj.name, obj.Content());
      stamps := stamps[obj.name := stamp];
      return Done;
    }
  }

  /** Distinct buckets of the store, each with its name. */
  ghost predicate IsListing(items: seq<(Str, Bucket)>, buckets: Buckets) {
    && (forall i, j :: 0 <= i < j < |items| ==> items[i].0 != items[j].0)
    && forall i :: 0 <= i < |items| ==> items[i].0 in buckets && items[i].1 == buckets[items[i].0]
  }

  ghost function NamesOf(items: seq<(Str, Bucket)>): set<Str> {
    set item | item in items :: item.0
  }

  lemma NamesOfAppend(items: seq<(Str, Bucket)>, item: (Str, Bucket))
    ensures NamesOf(items + [item]) == NamesOf(items) + {item.0}
    ensures forall i :: 0 <= i < |items| ==> items[i].0 in NamesOf(items)
  {
    assert forall x :: x in items + [item] <==> x in items || x == item;
    assert forall x :: x in items ==> x in items + [item];
    assert item in items + [item];
    forall i | 0 <= i < |items| ensures items[i].0 in NamesOf(items) {
      assert items[i] in items;
    }
  }

  predicate Matches(bucket: Bucket, tag: string, value: Str) {
    tag in bucket.labels && bucket.labels[tag] == value
  }

  /** Clears what the server would treat as a precondition or refuse. */
  method StripPatchMeta(obj: SecretObject)
    modifies obj`resourceVersion, obj`uid, obj`generation, obj`managedFields
    ensures obj.resourceVersion == 0 && obj.uid == 0 && obj.generation == 0 && obj.managedFields == {}
  {
    obj.resourceVersion := 0;
    obj.uid := 0;
    obj.generation := 0;
    obj.managedFields := {};
  }

  /** The write step of every operation. Whatever version the object was read
      at, and whatever was written since, the patch is never refused. */
  method PatchObject(server: ApiServer, obj: SecretObject, down: bool) returns (outcome: Outcome)
    requires server.Valid()
    modifies server, obj`resourceVersion, obj`uid, obj`generation, obj`managedFields
    ensures server.Valid()
    ensures outcome == if down then Failed else Done
    ensures server.secrets == if down then old(server.secrets)
                              else Patched(old(server.secrets), FIELD_OWNER, obj.name, obj.Content())
    ensures old(AllOurs(server.secrets)) ==> AllOurs(server.secrets)
    ensures old(AllOurs(server.secrets)) && outcome == Done ==>
              View(server.secrets) == View(old(server.secrets))[obj.name := Bucket(obj.labels, obj.data)]
  {
    if AllOurs(server.secrets) {
      PatchReplaces(server.secrets, obj.name, obj.Content());
    }
    StripPatchMeta(obj);
    outcome := server.Apply(obj, FIELD_OWNER, down);
  }
}
