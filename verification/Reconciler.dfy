/**
  The subscriber side of a node: a reconcile request names a Secret, and every
  subscription is brought up to date with it by notifications.
 */
module Reconciler {
  import opened Text
  import opened Kube
  import opened Store
  import opened Diff

  /** `notes` are the calls made to the subscriber's function, in order; `id` is
      the key the provider keeps the subscription under. */
  class Subscription {
    ghost const id: Str
    const prefix: Str
    var seen: Mirror
    var cancelled: bool
    var notes: seq<Note>

    constructor (ghost id: Str, prefix: Str)
      ensures this.id == id && this.prefix == prefix && seen == map[] && !cancelled && notes == []
    {
      this.id, this.prefix := id, prefix;
      seen, cancelled, notes := map[], false, [];
    }

    ghost predicate SeenMatches()
      reads this
    {
      forall k :: k in seen ==> prefix <= k
    }

    method Call(key: Str, value: Option<Str>)
      modifies this`notes
      ensures notes == old(notes) + [Note(key, value)]
    {
      notes := notes + [Note(key, value)];
    }

    // Both loops over one subscription: seen becomes the bucket's matching items
    // and the subscriber is told exactly the difference.
    method Diff(data: map<Str, DataItem>)
      requires SeenMatches() && Named(data)
      modifies this`seen, this`notes
      ensures SeenMatches()
      ensures Updated(data, prefix, old(seen), old(notes), seen, notes)
    {
      hide Matching, Scanned, Swept, Among, HashKey, IsDiff, Named, Updated;
      ghost var start, told, passed := seen, [], {};
      ScanStart(seen, data, prefix);
      var todo := data.Keys;
      while todo != {}
        invariant passed == data.Keys - todo
        invariant notes == old(notes) + told
        invariant Scanned(start, data, prefix, passed, seen, told)
      {
        var n :| n in todo;
        var item := data[n];
        ScanStep(start, data, prefix, passed, seen, told, n);
        todo, passed := todo - {n}, passed + {n};
        if !(prefix <= item.key) {
          continue;
        }
        if item.key in seen && seen[item.key] == item.value {
          continue;
        }
        seen := seen[item.key := item.value];
        Call(item.key, Some(item.value));
        told := told + [Note(item.key, Some(item.value))];
      }
      assert passed == data.Keys;
      SweepStart(start, data, prefix, seen, told);
      ghost var all, visited := seen, {};
      var keys := seen.Keys;
      while keys != {}
        invariant visited == all.Keys - keys
        invariant notes == old(notes) + told
        invariant Swept(start, data, prefix, visited, seen, told)
      {
        var k :| k in keys;
        SweepStep(start, data, prefix, visited, seen, told, k);
        keys, visited := keys - {k}, visited + {k};
        if !(prefix <= k) {
          continue;
        }
        if HashKey(k) !in data {
          Call(k, None);
          seen := seen - {k};
          told := told + [Note(k, None)];
        }
      }
      assert visited == all.Keys;
      SweepEnd(start, data, prefix, seen, told);
      MatchingHasPrefix(data, prefix);
      DiffIsUpdate(data, prefix, start, old(notes), seen, told);
    }
  }

  /** Seen is now the bucket's matching items, and the new notes are exactly the
      difference from what was seen before. */
  ghost predicate Updated(data: map<Str, DataItem>, prefix: Str, seen: Mirror, notes: seq<Note>, seen': Mirror,
      notes': seq<Note>) {
    seen' == Matching(data, prefix) && notes <= notes' && IsDiff(seen, notes'[|notes|..], seen')
  }

  lemma DiffIsUpdate(data: map<Str, DataItem>, prefix: Str, seen: Mirror, notes: seq<Note>, seen': Mirror,
      told: seq<Note>)
    requires seen' == Matching(data, prefix) && IsDiff(seen, told, seen')
    ensures Updated(data, prefix, seen, notes, seen', notes + told)
  {
    assert (notes + told)[|notes|..] == told;
  }

  lemma MatchingHasPrefix(data: map<Str, DataItem>, prefix: Str)
    ensures forall k :: k in Matching(data, prefix) ==> prefix <= k
  {}

  lemma BucketIsNamed(bs: Buckets, b: Str)
    requires WellFormed(bs) && b in bs
    ensures Named(bs[b].data)
  {
    forall n | n in bs[b].data ensures n == HashKey(bs[b].data[n].key) {
      assert Placed(bs, b, n);
    }
  }

  /** What a subscription hears when the named Secret is gone: a deletion of a
      key spelled like the Secret, if that matches its prefix up to case. */
  function GoneNotes(name: Str, prefix: Str): seq<Note> {
    if ToLower(prefix) <= ToLower(name) then [Note(name, None)] else []
  }

  /** The effect of a reconcile request on one live subscription. */
  ghost predicate Heard(prefix: Str, bs: Buckets, name: Str,
                        seen: Mirror, notes: seq<Note>, seen': Mirror, notes': seq<Note>)
  {
    if name in bs then
      Updated(bs[name].data, prefix, seen, notes, seen', notes')
    else
      seen' == seen && notes' == notes + GoneNotes(name, prefix)
  }

  class Provider {
    const server: ApiServer
    var started: bool
    var subs: map<Str, Subscription>
    ghost var objects: set<Subscription>

    constructor (server: ApiServer)
      requires server.Valid() && Sound(server.secrets)
      ensures Valid() && this.server == server && !started && subs == map[]
    {
      this.server, started, subs, objects := server, false, map[], {};
    }

    ghost predicate Valid()
      reads this, server, objects
    {
      && server.Valid() && Sound(server.secrets)
      && forall i :: i in subs ==> subs[i].id == i && subs[i] in objects && subs[i].SeenMatches()
    }

    /** `id` is the fresh UUID. */
    method Subscribe(id: Str, prefix: Str) returns (sub: Subscription)
      requires Valid() && id !in subs
      modifies this`subs, this`objects
      ensures Valid() && fresh(sub) && objects == old(objects) + {sub} && subs == old(subs)[id := sub]
      ensures sub.prefix == prefix && sub.seen == map[] && sub.notes == [] && !sub.cancelled
    {
      sub := new Subscription(id, prefix);
      subs, objects := subs[id := sub], objects + {sub};
    }

    // Cancelled subscriptions are dropped unheard; every other subscription hears
    // the request, in whatever order they are visited.
    method Reconcile(name: Str, down: bool) returns (ok: bool)
      requires Valid()
      modifies this`subs, objects`seen, objects`notes
      ensures Valid() && ok == !down
      ensures !ok ==> subs == old(subs) && forall i :: i in subs ==> unchanged(subs[i])
      ensures ok ==> OnlyCancelledDropped(old(subs))
      ensures ok ==> forall i :: i in subs ==>
                                   Heard(subs[i].prefix, View(server.secrets), name, old(subs[i].seen),
                                         old(subs[i].notes), subs[i].seen, subs[i].notes)
      ensures forall i :: i in old(subs) && old(subs[i].cancelled) ==>
                            old(subs)[i].seen == old(subs[i].seen) && old(subs)[i].notes == old(subs[i].notes)
    {
      hide Sound, Matching, IsDiff, View, WellFormed, Named, GoneNotes, HashKey, ToLower;
      var secret := new SecretObject();
      var outcome := server.Get(name, secret, down);
      if outcome == Failed {
        return false;
      }
      if outcome == NotFound {
        NotifyGone(name);
        return true;
      }
      SoundBucket(server.secrets, name);
      NotifyChange(secret.data);
      return true;
    }

    ghost predicate OnlyCancelledDropped(all: map<Str, Subscription>)
      reads this, objects
      requires forall i :: i in all ==> all[i] in objects
    {
      && (forall i :: i in subs ==> i in all && subs[i] == all[i])
      && forall i :: i in all ==> (i in subs <==> !all[i].cancelled)
    }

    /** The branch of Reconcile for a Secret that no longer exists. */
    method NotifyGone(name: Str)
      requires Valid()
      modifies this`subs, objects`notes
      ensures Valid() && OnlyCancelledDropped(old(subs))
      ensures forall i :: i in old(subs) ==>
                            old(subs)[i].notes == old(subs[i].notes)
                              + HeardGone(name, old(subs)[i].prefix, old(subs)[i].cancelled)
    {
      hide Sound, HeardGone, ApiServer.Valid;
      ghost var all := subs;
      var todo := subs.Keys;
      while todo != {}
        invariant todo <= all.Keys
        invariant forall i :: i in subs ==> i in all && subs[i] == all[i]
        invariant forall i :: i in all ==> (i in subs <==> i in todo || !all[i].cancelled)
        invariant forall i :: i in all ==>
                                all[i].notes == old(all[i].notes)
                                + (if i in todo then [] else HeardGone(name, all[i].prefix, all[i].cancelled))
      {
        var subID :| subID in todo;
        var sub := subs[subID];
        todo := todo - {subID};
        HeardGoneIs(name, sub.prefix, sub.cancelled);
        if sub.cancelled {
          subs := subs - {subID};
          continue;
        }
        if ToLower(sub.prefix) <= ToLower(name) {
          sub.Call(name, None);
        }
      }
    }

    /** The branch of Reconcile for a Secret with these entries. */
    method NotifyChange(data: map<Str, DataItem>)
      requires Valid() && Named(data)
      modifies this`subs, objects`seen, objects`notes
      ensures Valid() && OnlyCancelledDropped(old(subs))
      ensures forall i :: i in old(subs) ==>
                            HeardChange(data, old(subs)[i].prefix, old(subs)[i].cancelled, old(subs[i].seen),
                                        old(subs[i].notes), old(subs)[i].seen, old(subs)[i].notes)
    {
      hide Sound, Updated, Named, ApiServer.Valid;
      ghost var all := subs;
      var todo := subs.Keys;
      while todo != {}
        invariant todo <= all.Keys
        invariant forall i :: i in subs ==> i in all && subs[i] == all[i]
        invariant forall i :: i in all ==> (i in subs <==> i in todo || !all[i].cancelled)
        invariant forall i :: i in all ==> all[i].SeenMatches()
        invariant forall i :: i in all ==>
                                if i in todo then all[i].seen == old(all[i].seen) && all[i].notes == old(all[i].notes)
                                else HeardChange(data, all[i].prefix, all[i].cancelled, old(all[i].seen),
                                                 old(all[i].notes), all[i].seen, all[i].notes)
      {
        var subID :| subID in todo;
        var sub := subs[subID];
        todo := todo - {subID};
        if sub.cancelled {
          subs := subs - {subID};
          continue;
        }
        sub.Diff(data);
      }
    }

    // Closing cancels and drops every subscription.
    method Close() returns (ok: bool)
      requires Valid()
      modifies this`subs, objects`cancelled
      ensures Valid() && ok == old(started)
      ensures ok ==> subs == map[] && forall i :: i in old(subs) ==> old(subs[i]).cancelled
      ensures !ok ==> subs == old(subs) && forall i :: i in subs ==> unchanged(subs[i])
      ensures forall i :: i in old(subs) ==> old(subs[i]).notes == old(subs[i].notes)
    {
      if !started {
        return false;
      }
      ghost var all := subs;
      while subs != map[]
        invariant subs.Keys <= all.Keys && forall i :: i in subs ==> subs[i] == all[i]
        invariant forall i :: i in all && i !in subs ==> all[i].cancelled
        invariant forall i :: i in all ==> all[i].notes == old(all[i].notes) && all[i].SeenMatches()
        decreases subs.Keys
      {
        assert subs.Keys != {};
        var subID :| subID in subs;
        subs[subID].cancelled := true;
        subs := subs - {subID};
      }
      return true;
    }
  }

  /** A subscription is brought up to date unless it is cancelled. */
  ghost predicate HeardChange(data: map<Str, DataItem>, prefix: Str, cancelled: bool,
                              seen: Mirror, notes: seq<Note>, seen': Mirror, notes': seq<Note>)
  {
    if cancelled then seen' == seen && notes' == notes else Updated(data, prefix, seen, notes, seen', notes')
  }

  /** A cancelled subscription hears nothing. */
  function HeardGone(name: Str, prefix: Str, cancelled: bool): seq<Note> {
    if cancelled then [] else GoneNotes(name, prefix)
  }

  lemma HeardGoneIs(name: Str, prefix: Str, cancelled: bool)
    ensures HeardGone(name, prefix, cancelled)
            == if !cancelled && ToLower(prefix) <= ToLower(name) then [Note(name, None)] else []
  {}

  lemma SoundBucket(secrets: Secrets, name: Str)
    requires Sound(secrets) && name in secrets
    ensures Named(ViewSecret(secrets[name]).data) && View(secrets)[name] == ViewSecret(secrets[name])
  {
    BucketIsNamed(View(secrets), name);
  }
}
