# Verified model of the Kubernetes storage provider

This project models the storage provider that keeps Webmesh data in Kubernetes
objects, and proves what callers, subscribers and peers may rely on.

| file | what it holds |
|---|---|
| `Text.dfy`, `Base64.dfy`, `BucketNames.dfy` | strings, unpadded base64 (RFC 4648 sections 3.2 and 4), and how a key names its bucket and its entry |
| `Kube.dfy` | Secrets on the API server, with server-side apply and field owners; `PatchObject` |
| `Store.dfy`, `Queries.dfy` | the flat map that a set of buckets stands for; runs of writes; deferred deletes; what prefix queries return |
| `Election.dfy`, `Storage.dfy` | one node's storage interface as methods over the server, each proved against `Store` |
| `Interleaving.dfy`, `MovingLease.dfy` | many nodes, one API call at a time: atomicity, reads, expiry; and what remains when the lease moves during calls |
| `Diff.dfy`, `Reconciler.dfy`, `Subscribers.dfy` | notifications as map differences, the reconciler's loops, and subscribers over whole runs |
| `Peers.dfy`, `Consensus.dfy`, `ConsensusRuns.dfy` | the peer store, the consensus and provider calls, and runs of them |
| `Graph.dfy` | edges of the peer graph |

Central definitions: `Store.Flat` is the map `key -> (value, expiry)` that buckets
stand for; `Store.WellFormed` says every item sits in its key's own bucket under
the base64 name of its key; `Kube.AllOurs` says this provider is the only manager
of every field; `Interleaving.Replay` is the flat map of the committed writes in
order; `Diff.IsDiff` says notes turn one map into another, telling only
differences and no key twice.

What is taken from outside, and how:

- SHA-1 is an arbitrary injective function (`Peers.Hash` with `Peers.Injective`).
- `IsValidPathID` is an arbitrary predicate on keys (`validPath`).
- The current time is a parameter of each call; across a run the clock does not
  run backwards. Going through a Go map takes its entries in any order.
- Which API calls fail is a parameter of each storage call and reconcile request; a
  failing one has no effect.
- The elector is environment: a node leads exactly when the holder is its ID.
- The gob encoding is the identity. `ToLower` acts on ASCII letters.
- Go's zero time is the separate value `Never`.
- `TruncateIDTo` is not part of this repository; it is taken to cut a text after
  the given number of characters.

Claims one might expect that the code does not meet, with the exact condition
under which it does:

- Prefix queries can miss stored keys, because a bucket's label is the raw name
  of the last writer's key. Of one store: `Store.ListingCompleteIff`. Of all runs
  over a set of keys: `Queries.QueriesCompleteIff`. `A/x` and `a/y` clash:
  `Queries.CaseClashHidesKey`, `Queries.ClashingKeys`.
- A deferred delete of an expired key writes back a snapshot and overwrites the
  label. Reads and queries notice nothing exactly under the condition of
  `Queries.ReapUnnoticedIff`; with a current snapshot, `Queries.PromptReapUnnoticedIff`.
  It can undo a later write (`Store.LateReapUndoesWrite`) and hide a key that no
  write touched (`Queries.PromptReapHidesKey`).
- When the lease moves during a write, an acknowledged write can be lost
  (`MovingLease.MovedLeaseLosesWrite`), because patches carry no resource version. A
  run with a moving lease and late deferred deletes refines the flat map at every
  point exactly when each commit finds its bucket as the call read it, apart from
  the entry it writes: `MovingLease.RunRefinesIff`.
- Even then, and on a single node, a late deferred delete can lose an acknowledged
  put of its own key (`MovingLease.LateReapLosesPut`). Every read is right at every
  point, with the store refining the flat map, exactly when besides no deferred
  delete removes a stored, unexpired key: `MovingLease.RunIsRightIff`.
- A key stored with an empty value is listed, and GetValue does not find it
  (`Queries.EmptyValueIsListedOnly`). Every listed key can be read exactly when no
  unexpired value is empty: `Queries.AllListedReadableIff`.
- A subscriber's copy is one bucket's matching items; it is the store's exactly
  when no other bucket holds one: `Subscribers.ReconcileFinds`. Otherwise keys still
  stored are told to be deleted: `Subscribers.OtherBucketForgets`,
  `Subscribers.NestedDirectoriesForget`.
- A subscriber stays in step with what the node believes it to have seen, in every
  run, exactly when its prefix holds a slash or an upper-case letter:
  `Subscribers.AlwaysInStepIff`.
- The deletion of a bucket's last key is heard exactly when the bucket was put back
  empty: `Subscribers.LastDeletionIsHeardIff`.
- Two edges can share one name: over a set of IDs every run is a map from pairs
  exactly when no IDs overlap, `Graph.RunsRefineIff`; of one change,
  `Graph.ChangeRefinesIff`; four IDs that overlap, `Graph.OverlapExists`. Looking an
  edge up by its truncated labels finds it for every list order exactly when no other
  stored pair has them: `Graph.LookupFindsPairIff`; two IDs that break this, `Graph.LongIdsClash`,
  `Graph.LongIdsExist`.
- `Delete` can report a failure although the key is gone. A failing call has changed
  the content exactly when it had dropped an emptied bucket and its key was stored:
  `Interleaving.FailedCallChangedIff`, `Interleaving.DeleteLastFailsAfterCommit`.
- GetLeader on the leader answers with its record as first cached, which may have
  changed since (`ConsensusRuns.CachedSelfIsStale`). What it answers in every run:
  `ConsensusRuns.VoterFindsHolder`, `ConsensusRuns.CachedSelfIsFirst`.

Where comments and code differ, the model follows the code. `RemovePeer` says an
observer may remove itself, yet the second check refuses it. `AddEdge` and
`UpdateEdge` say they report an existing edge, a missing edge or missing vertices,
yet both simply write the edge. `Bootstrap` asks for a leader record, and
`AddVoter` stores a voter.

## Model

| member | source | states |
|---|---|---|
| Text.JoinSplit | provider/storage.go:357-368 | splitting at one separator and joining with another replaces every occurrence |
| Text.SplitLast | provider/storage.go:357-368 | what follows the last separator is the last piece of the split |
| Text.LowerLetters | provider/storage.go:353-355 | lower-casing changes exactly the 26 capital letters, each to its own small letter |
| BucketNames.RawBucketIsCut | provider/storage.go:357-368 | a raw bucket name is the key cut at its last slash with the other slashes as underscores; a key without slash is its own raw name |
| BucketNames.RawBucketMonotone | provider/storage.go:339-348 | a prefix of a key has a raw name that is a prefix of the key's raw name, so pruning drops no bucket holding a match |
| BucketNames.BucketNameHasNoSlash | provider/storage.go:353-368 | no bucket name contains a slash |
| BucketNames.SameDirectorySameBucket | provider/storage.go:353-368 | keys share a bucket exactly when their directories agree after joining and lower-casing |
| BucketNames.SampleBucket | provider/storage.go:353-368 | `B/c/D` has the raw name `B_c` and lies in bucket `b_c` |
| Base64.RoundTrip | provider/storage.go:370-372 | decoding undoes the encoding of every byte string |
| Base64.Injective | provider/storage.go:370-372 | distinct keys have distinct entry names |
| Base64.EncodedLength | provider/storage.go:370-372 | n bytes encode to ceil(4n/3) letters |
| Base64.AsciiEntryNames | provider/storage.go:370-372 | for an ASCII key the entry name is alphanumeric exactly when no position congruent to 2 modulo 3 holds one of four bytes |
| Base64.TestVectors | provider/storage.go:370-372 | the encoding agrees with the test vectors of RFC 4648 section 10 |
| Base64.LetterTable | provider/storage.go:370-372 | the 64 letters are those of Table 1 of RFC 4648 |
| Kube.ApplyReplacesIff | provider/util/util.go:37-50 | an applied configuration becomes the exact content if and only if every field it leaves out is solely owned by the applying manager |
| Kube.OwnersAfterApply | provider/util/util.go:39-45 | after a forced apply the manager owns exactly the fields it names, and another manager what it owned before unless that was set to something else |
| Kube.PatchReplaces | provider/util/util.go:37-50 | in a store only this provider wrote, a patch replaces the bucket, changes no other, and keeps sole ownership |
| Kube.SoleOwnerRun | provider/util/util.go:37-50 | in every run of writes through the one field owner each field has that owner alone and patches are replacements |
| Kube.ForeignEntryStays | provider/util/util.go:37-50 | an entry another manager owns outlives every later patch that leaves it out |
| Kube.ApiServer.Apply | provider/util/util.go:39-45 | forced apply: refused exactly for sent managed fields or a version or identity that is set and not the live one, otherwise the patched content under a new version |
| Kube.StripPatchMeta | provider/util/util.go:29-34 | clears version, identity, generation and managed fields |
| Kube.PatchObject | provider/util/util.go:37-50 | writes unconditionally whatever version the object was read at: it fails exactly when the API call does, and is never refused |
| Store.FindIsFlat | provider/storage.go:93-114 | looking a key up in its bucket answers as the flat map does, whatever keys share the bucket |
| Store.EditRefines | provider/storage.go:137-215 | an edit of one bucket, or dropping it once emptied, is an update of one key of the flat map and keeps every item in its place |
| Store.FindAfterEdit | provider/storage.go:137-215 | a put or deletion of one key never changes the item found for another |
| Store.RunRefines | provider/storage.go:137-215 | in every run of writes the buckets stand for the flat map the same writes make |
| Store.ListingCompleteIff | provider/storage.go:310-351 | queries miss nothing for any prefix if and only if each bucket's label is the raw name of every unexpired key in it |
| Store.EditKeepsLabels | provider/storage.go:314-317 | over keys whose raw names agree up to case, a write leaves each label spelling its bucket's keys |
| Store.SpelledLabelsListEverything | provider/storage.go:322-351 | with such labels, queries return exactly the unexpired keys with their prefix |
| Queries.CaseClashHidesKey | provider/storage.go:314-317 | after two puts whose raw names differ only in case, the first key is stored but not listed |
| Queries.ClashingKeys | provider/storage.go:353-368 | `A/x` and `a/y` share a bucket and have different raw names |
| Queries.QueriesCompleteIff | provider/storage.go:310-351 | over a set of keys every run leaves every query complete if and only if raw names in the set that agree up to case agree |
| Store.ReapRestoresSnapshot | provider/storage.go:118-126 | a deferred delete puts its bucket's other keys back to the snapshot and leaves other buckets alone |
| Store.LateReapUndoesWrite | provider/storage.go:118-126 | a write to the bucket committed after the snapshot is undone, and a fresh put of the expired key itself is lost |
| Store.ReapKeepsContentIff | provider/storage.go:115-128 | a deferred delete keeps the unexpired content, now and later, if and only if the snapshot without the key has the bucket's unexpired items |
| Store.PromptReapIsRemoval | provider/storage.go:115-128 | with no write to the bucket since the snapshot, the content only loses the expired key and no read changes from then on |
| Store.PromptReapKeepsLabels | provider/storage.go:118-126 | where labels spell their keys, they still do after it |
| Queries.ReapUnnoticedIff | provider/storage.go:115-128 | a deferred delete changes no read or query result, now and later, if and only if the snapshot without the key has the bucket's unexpired items and the label it writes selects the bucket alike for every prefix of them |
| Queries.PromptReapUnnoticedIff | provider/storage.go:115-128 | with a current snapshot and a label spelling the bucket's unexpired keys, no query result changes if and only if there is no such key or the expired key is spelled as the label |
| Queries.PromptReapHidesKey | provider/storage.go:118-126 | an expired key spelled otherwise makes a live key of its bucket vanish from queries although no write touched it |
| Queries.PromptReapHidesKeyAt | provider/storage.go:118-126 | so it is for `A/x` once `a/y` has expired |
| Queries.ListedIsReadableIff | provider/storage.go:130-132 | a listed key can be read if and only if its value is not empty |
| Queries.AllListedReadableIff | provider/storage.go:130-132 | of a store whose labels spell its keys: every listed key can be read if and only if no unexpired value is empty |
| Queries.EmptyValueIsListedOnly | provider/storage.go:130-132 | after a put of an empty value the key is listed and not found |
| Queries.PutIsReadUntilItExpires | provider/storage.go:115-187 | after a put at `now` and no later write to the key, its value is read exactly when it is not empty and the time is at most `now + ttl` or the ttl is 0, and where labels spell their keys it is listed that long |
| Storage.Storage.GetValue | provider/storage.go:86-134 | returns the value of the flat map exactly when the key is valid, stored, not expired (its expiry included) and not empty, and the API call succeeds; the error is the API failure exactly when that call failed; starts a deferred delete exactly when a leader meets an expired key |
| Storage.Storage.PutValue | provider/storage.go:137-188 | which of the four results it has, by key, lease and failed API calls; on success the flat map has the value with expiry `now + ttl`, or none for a ttl of 0, and no other change; otherwise nothing changed |
| Storage.Storage.Delete | provider/storage.go:191-215 | which of the five results it has, by key, lease, stored bucket and failed API calls; on success the key alone is gone; a call that failed after dropping the bucket it had emptied left the key and the bucket gone, any other changed nothing |
| Storage.Storage.RunDeferred | provider/storage.go:118-126 | the goroutine writes the snapshot without the key, with no leader check and no fresh read; what is left is stated for each failing API call |
| Storage.Storage.PatchBucket | provider/storage.go:301-320 | the bucket becomes the given data under the raw label, also when empty, unless an API call fails; then nothing changed, or the emptied bucket is dropped when only the second failed |
| Storage.Storage.BucketsForPrefix | provider/storage.go:322-351 | exactly the buckets whose label starts with the raw prefix, each once; fails exactly when the API call does |
| Storage.Storage.ListKeys | provider/storage.go:218-247 | the unexpired keys with the prefix in the selected buckets, each once, in any iteration order; fails exactly when the API call does |
| Storage.Storage.IterPrefix | provider/storage.go:252-282 | calls the function on exactly those keys with their values, each once, and stops at the first call that fails; the API failure is reported exactly when the API call failed |
| Interleaving.StepKeepsInv | provider/storage.go:137-215 | every API call of any node keeps the invariant while the lease does not move during a write |
| Interleaving.StepIsAtomic | provider/storage.go:301-320 | each step is one write to the flat map or a stutter; the second call for an emptied bucket is a stutter |
| Interleaving.RunRefinesFlatMap | provider/storage.go:137-215 | in every interleaving the store is the committed writes in order; acknowledged calls are in it once, refused ones not; what a call commits is the row `Interleaving.CommitAnswers` |
| Interleaving.FetchAnswers | provider/storage.go:137-215 | in every run, whatever other nodes do meanwhile, a call ends as not found exactly when it is a deletion and its bucket is absent at its read; any other goes on to the edit asked for, with expiry ttl after the read, computed from the bucket read |
| Interleaving.CommitAnswers | provider/storage.go:137-215 | what such a call commits and acknowledges is that edit |
| Interleaving.SecondCallAnswers | provider/storage.go:301-320 | the second API call for an emptied bucket commits nothing more and ends the call |
| Interleaving.ReadsReturnLastWrite | provider/storage.go:86-134 | in every run a read returns what the last asked-for write put, until it expires |
| Interleaving.AbsentUntilPut | provider/storage.go:115-134 | a key that reads as absent stays so until some caller puts it again |
| Interleaving.PutAlone | provider/storage.go:137-188 | an uninterrupted put has the effect the storage call promises |
| Interleaving.DeleteAlone | provider/storage.go:191-215 | so has the deletion of a key of any stored bucket, in one API call that writes or, when it empties the bucket, two |
| Interleaving.ReapAlone | provider/storage.go:115-128 | so has the deferred delete of an expired key, which removes that key alone |
| Interleaving.DeleteLastFailsAfterCommit | provider/storage.go:301-320 | when the second of them fails, the call fails although key and bucket are gone |
| Interleaving.FailedCallChangedIff | provider/storage.go:301-320 | a call that fails has changed the stored content since it began if and only if it had dropped an emptied bucket and its key was stored |
| MovingLease.PatchAtomicIff | provider/util/util.go:29-50 | a patch is the write it is meant to be if and only if its bucket, apart from the written entry, is the one the write was computed from |
| MovingLease.DropAtomicIff | provider/storage.go:302-309 | dropping a bucket is the write if and only if the write empties it |
| MovingLease.RecreationStuttersIff | provider/storage.go:310-319 | putting an emptied bucket back changes nothing if and only if the bucket holds no item now |
| MovingLease.StepRefinesIff | provider/storage.go:137-215 | however the lease moves, a step keeps the store equal to the committed writes if and only if it meets its guard |
| MovingLease.RunRefinesIff | provider/storage.go:137-215 | a run refines the flat map at every point if and only if every commit finds its bucket, apart from the entry it writes, as the call read it |
| MovingLease.StepKeepsReadsIff | provider/storage.go:115-128 | however the lease moves, a step keeps what reads rely on if and only if it is no deferred delete that removes a key stored and unexpired in the flat map |
| MovingLease.RunIsRightIff | provider/storage.go:86-215 | a run refines the flat map with every read, now and later, as the last asked-for write left it, at every point, if and only if every commit meets both guards |
| MovingLease.GuardedReadsReturnLastWrite | provider/storage.go:86-134 | in every such run a read returns what the last asked-for write put, until it expires |
| MovingLease.PutIsReadUntilItExpires | provider/storage.go:86-187 | in such a run, a value put and not overwritten is read exactly when it is not empty and the time is at most ttl after the put read its bucket or the ttl is 0, and matches queries that long |
| MovingLease.PutIsListedUntilItExpires | provider/storage.go:137-282 | over case-consistent keys every query with a prefix of the key returns it exactly that long |
| MovingLease.DeletedIsAbsent | provider/storage.go:191-215 | in such a run a deleted key is not stored until it is put again |
| MovingLease.AcknowledgedIsLogged | provider/storage.go:137-215 | in every run an acknowledged write is among the committed ones |
| MovingLease.InitRefines | provider/storage.go:137-215 | the empty store meets what the statements above start from |
| MovingLease.StableRunIsGuarded | provider/storage.go:137-215 | a lease that stands still during calls, with prompt deferred deletes on the leader, meets both guards |
| MovingLease.RunListsEverything | provider/storage.go:218-282 | in every run over case-consistent keys, whatever the lease and deferred deletes do, queries return exactly the stored, unexpired keys with the prefix |
| MovingLease.LateReapLosesPut | provider/storage.go:118-126 | on one node that leads all along, a put of an expired key is acknowledged and then undone by the deferred delete a read had started, though the run meets the first guard |
| MovingLease.MovedLeaseLosesWrite | provider/util/util.go:29-50 | when the lease moves during a put, another node's acknowledged put to the bucket can be lost |
| Diff.DifferencesAreTold | provider/reconciler.go:81-109 | every key on which two maps differ has a note saying so |
| Diff.BytesMirrorIsNonEmpty | provider/reconciler.go:97-106 | a subscriber that takes empty bytes for a deletion holds exactly the non-empty entries |
| Reconciler.Subscription.Diff | provider/reconciler.go:81-109 | the two loops leave seen equal to the bucket's matching items and notify exactly the difference, no key twice |
| Reconciler.Provider.Reconcile | provider/reconciler.go:49-112 | fails, changing nothing, exactly when the API call does; otherwise every live subscription is brought up to date with the named Secret, cancelled ones are dropped unheard |
| Reconciler.Provider.NotifyGone | provider/reconciler.go:55-72 | for a missing Secret, live subscriptions matching its name up to case hear one deletion |
| Reconciler.Provider.NotifyChange | provider/reconciler.go:73-110 | for a Secret found, each live subscription is brought up to date |
| Reconciler.Provider.Subscribe | provider/storage.go:286-299 | a new subscription has seen nothing and is added beside the others |
| Reconciler.Provider.Close | provider/provider.go:437-451 | closing a started provider cancels and drops every subscription |
| Subscribers.GoneIsSilent | provider/reconciler.go:59-70 | a missing bucket is silent for a prefix with a slash |
| Subscribers.MirrorIsSeen | provider/reconciler.go:49-112 | in every run, for a prefix with a slash or an upper-case letter, the notifications folded from nothing give what was seen |
| Subscribers.AlwaysInStepIff | provider/reconciler.go:49-112 | for every prefix: that holds in every run if and only if the prefix has a slash or an upper-case letter |
| Subscribers.ReconcileFinds | provider/reconciler.go:73-110 | after a request finds its bucket, the subscriber has that bucket's matching items, and the store's exactly when no other bucket holds one |
| Subscribers.LastDeletionIsHeardIff | provider/storage.go:301-320 | after the deletion of a bucket's last key, the next request tells the subscriber if and only if the bucket was put back empty |
| Subscribers.OtherBucketForgets | provider/reconciler.go:100-109 | a request for another bucket tells the deletion of seen keys that are still stored |
| Subscribers.TwoBucketsForget | provider/reconciler.go:100-109 | for any two keys with the prefix in different buckets there is such a run |
| Subscribers.NestedDirectoriesForget | provider/reconciler.go:100-109 | for instance `a/x` and `a/b/y` under the prefix `a/` |
| Subscribers.CanReconcile | provider/reconciler.go:73-110 | every request for a stored bucket has an outcome the model allows |
| Subscribers.UnsafePrefixDiverges | provider/reconciler.go:55-72 | for every key spelled like a Secret and every prefix of it there is a run after which the key is stored and reconciled but the subscriber holds it deleted |
| Subscribers.RepeatIsSilent | provider/reconciler.go:91-98 | a request that finds nothing new notifies nothing |
| Peers.ScanFinds | provider/consensus.go:147-171 | in any list without stored leaders, a voter finds the holder's record and an observer the first voter |
| Peers.ScanReturnsFirst | provider/consensus.go:147-171 | in any list the scan returns the first peer it is after, with its own address and status, shown as leader when it holds the lease and is another node; a node that finds itself caches its record |
| Peers.ListedIds | provider/consensus.go:273-277 | listed IDs are distinct, and an ID is listed exactly when its hash names a record |
| Consensus.Consensus.GetPeer | provider/consensus.go:96-111 | finds the record under the hash of the ID or reports it missing |
| Consensus.Consensus.GetLeader | provider/consensus.go:131-172 | returns what the scan of the listed peers finds and caches this node when it leads |
| Consensus.Consensus.AddVoter | provider/consensus.go:175-195 | refused on observers; otherwise stores the ID and address as a voter, whatever status it came with, and no other record changes |
| Consensus.Consensus.AddObserver | provider/consensus.go:198-221 | an observer may only add itself; stores the ID and address as an observer, and no other record changes |
| Consensus.Consensus.DemoteVoter | provider/consensus.go:224-241 | refused on observers and for unknown peers; changes only the status of the stored record |
| Consensus.Consensus.RemovePeer | provider/consensus.go:244-255 | refused on observers, for their own record too; otherwise removes the record |
| Consensus.Consensus.RemovePeerByIDHash | provider/consensus.go:258-271 | refused on observers; removing an absent record succeeds |
| Consensus.Consensus.ContainsPeer | provider/consensus.go:279-286 | true exactly when a listed peer has the ID |
| Consensus.Provider.Bootstrap | provider/provider.go:342-363 | succeeds exactly on a started voter without stored peers, and then stores this node alone, with the listen address, as a voter; otherwise nothing changes |
| Consensus.Provider.Status | provider/provider.go:366-429 | reports not writable unless started and registered; otherwise writable as the lease says, with this node shown as leader; panics on a started observer that is registered |
| ConsensusRuns.StepKeepsInv | provider/consensus.go:131-241 | every event keeps that no record says leader, records sit under their hashes, and a cached self is the node's own |
| ConsensusRuns.VoterFindsHolder | provider/consensus.go:131-172 | in every run, for any list order, a voter's leader is the stored record of the lease holder, shown as leader when that is another node, or its own record as cached when it leads; found exactly when there is one |
| ConsensusRuns.CachedSelfIsFirst | provider/consensus.go:134-153 | a cached self is the record stored when the node first looked for the leader while leading and registered, and is never replaced |
| ConsensusRuns.CachedSelfIsStale | provider/consensus.go:134-140 | a run after which the leader's own record has changed and GetLeader returns the old one |
| ConsensusRuns.RecordIsLastWrite | provider/consensus.go:175-271 | in every run a record is what the last permitted call on its ID left: a voter, an observer, the same demoted, or none |
| ConsensusRuns.NoneBeforeFirstWrite | provider/consensus.go:175-271 | before any such call there is no record |
| ConsensusRuns.ObserverFindsFirstVoter | provider/consensus.go:161-165 | in every run an observer's leader is the first voter listed, and there is none exactly when no voter is stored |
| ConsensusRuns.ObserverTouchesOnlyItself | provider/consensus.go:175-271 | an observer's calls change no record but its own, which they make an observer's, and remove none |
| ConsensusRuns.HolderIsLastElected | provider/provider.go:366-429 | in every run the holder that the statements here speak of is the one last elected |
| ConsensusRuns.StartedIff | provider/provider.go:255-295 | in every run a node is started exactly when it was at first or was started since |
| ConsensusRuns.StatusAgreesWithLease | provider/provider.go:366-429 | in every run, on every node: Status is writable exactly when the node is started, registered and leads; then it alone is shown as leader, GetLeader returns it and no write is refused for leadership; otherwise no leader is shown; status, message, IDs, addresses and the statuses shown are stated for every case |
| ConsensusRuns.EmptiedByRemoval | provider/consensus.go:244-271 | a peer store that becomes empty was emptied by RemovePeer |
| ConsensusRuns.BootstrapsAreSeparated | provider/provider.go:342-363 | between two successful bootstraps the peer set was emptied by RemovePeer |
| ConsensusRuns.BootstrapEffect | provider/provider.go:342-363 | a successful bootstrap registers this node alone, any other changes nothing |
| Graph.UnambiguousIff | provider/database/graphstore.go:91-93 | joined names are unambiguous over a set of IDs if and only if no ID, cut after a dashed prefix and joined with a third, is a fourth |
| Graph.ChangeRefinesIff | provider/database/graphstore.go:201-248 | adding, updating or removing an edge changes that one pair if and only if no other pair's edge holds its name |
| Graph.RunsRefineIff | provider/database/graphstore.go:201-248 | every run over a set of IDs refines the map from pairs if and only if no IDs in the set overlap, whatever their lengths |
| Graph.OverlapLosesEdge | provider/database/graphstore.go:91-93 | over IDs that overlap there are two pairs of which setting one loses the other |
| Graph.OverlapExists | provider/database/graphstore.go:91-93 | `1`, `1-2`, `3` and `2-3` overlap |
| Graph.GraphStore.AddEdge | provider/database/graphstore.go:201-214 | sets the pair's edge, existing or not, and changes no other exactly when its name is free, the hash of both IDs joined with a dash |
| Graph.GraphStore.UpdateEdge | provider/database/graphstore.go:218-231 | sets the pair's edge, existing or not, and changes no other exactly when its name is free, the hash of both IDs joined with a dash |
| Graph.GraphStore.RemoveEdge | provider/database/graphstore.go:239-248 | removes the pair's edge, if any, and no other exactly when its name is free |
| Graph.LookupFindsPairIff | provider/database/graphstore.go:258-274 | the first object with the pair's labels is the pair's edge, for every list order, if and only if no other stored pair has the same truncated labels |
| Graph.ShortIdsAreFree | provider/database/graphstore.go:67-69 | over IDs of at most 63 characters no two pairs have the same labels |
| Graph.LongIdsClash | provider/database/graphstore.go:67-69 | over two IDs with the same truncated form, the labels of one pair are taken by the other's edge |
| Graph.LongIdsExist | provider/database/graphstore.go:67-69 | two IDs of 64 bytes that differ in the last are such |
| Graph.GraphStore.Edge | provider/database/graphstore.go:258-274 | returns the first listed edge with the pair's labels, and the pair's own whenever those are free |
| Graph.GraphStore.ListEdges | provider/database/graphstore.go:277-291 | lists every edge once |

## Left out

- Client transport, caches, watches, managers and controller registration: plumbing over other libraries.
- Leader election itself; the holder is environment state.
- Naming limits of Kubernetes (characters and lengths of Secret names, entry names and labels), under which the server may refuse a patch; a refusal shows as a failed call.
- A call that the server carries out but whose answer is lost; failed API calls have no effect here. In the peer and edge stores API calls do not fail.
- Entries that do not decode, and Secrets with the provider's names written by others; the namespace filter missing from bucket listing is not visible in a single namespace.
- Races between the locks of subscribing and reconciling, and the lock GetLeader takes twice; outside `Interleaving.dfy` a call is atomic.
- The elector that observers lack: Status on them is modelled as a panic where it calls it, but their storage writes and deferred deletes are not modelled.
- Field owners of peer and edge objects: an applied record replaces the stored one, as proved for Secrets.
- A caller changing a peer object that GetLeader returned and the node has cached.
- Vertices of the graph, its subscriptions, and the mesh state, networking and RBAC stores: one-object wrappers and filters.
