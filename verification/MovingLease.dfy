/**
  Runs in which the lease moves at any time and deferred deletes run anywhere,
  late, with any earlier snapshot. Patches are unconditional, so such runs are
  atomic exactly when each commit finds its bucket as the call read it, apart from
  the entry it writes; and they lose no caller's write exactly when, besides, each
  deferred delete finds its key still expired or gone.
 */
module MovingLease {
  import opened Text
  import opened Kube
  import opened BucketNames
  import opened Store
  import opened Interleaving
  import Base64

  // ---------- Single commits ----------

  // Stores with the same content have the same items in every bucket.
  lemma SameFlatSameData(bs: Buckets, bs': Buckets, b: Str)
    requires WellFormed(bs) && WellFormed(bs') && Flat(bs) == Flat(bs')
    ensures DataOf(bs, b) == DataOf(bs', b)
  {
    hide WellFormed, Flat, BucketForKey, HashKey;
    DataWithin(bs, bs', b);
    DataWithin(bs', bs, b);
  }

  lemma DataWithin(bs: Buckets, bs': Buckets, b: Str)
    requires WellFormed(bs) && WellFormed(bs') && Flat(bs) == Flat(bs')
    ensures forall n :: n in DataOf(bs, b) ==> n in DataOf(bs', b) && DataOf(bs', b)[n] == DataOf(bs, b)[n]
  {
    hide WellFormed, Flat, BucketForKey, HashKey;
    forall n | n in DataOf(bs, b) ensures n in DataOf(bs', b) && DataOf(bs', b)[n] == DataOf(bs, b)[n] {
      StoredIsFlat(bs, b, n);
      FindIsFlat(bs, bs[b].data[n].key);
      FindIsFlat(bs', bs[b].data[n].key);
    }
  }

  // What a patch of any snapshot leaves.
  lemma PatchedSnapshot(secrets: Secrets, key: Str, data: map<Str, DataItem>)
    requires Sound(secrets) && IsSnapshot(BucketForKey(key), data, key)
    ensures var secrets' := PatchedFor(secrets, key, data);
            Sound(secrets') && DataOf(View(secrets'), BucketForKey(key)) == data
  {
    hide BucketForKey, HashKey, RawBucketForKey, Patched, View, WellFormed, AllOurs, IsSnapshot;
    SoundMeans(secrets);
    var bs, b := View(secrets), BucketForKey(key);
    PatchReplaces(secrets, b, Bucket(LabelsFor(RawBucketForKey(key)), data));
    PlacedBucketIsWellFormed(bs, key, data);
    SoundIs(PatchedFor(secrets, key, data));
  }

  lemma SoundIs(secrets: Secrets)
    requires AllOurs(secrets) && WellFormed(View(secrets))
    ensures Sound(secrets)
  {}

  lemma PlacedBucketIsWellFormed(bs: Buckets, key: Str, data: map<Str, DataItem>)
    requires WellFormed(bs) && IsSnapshot(BucketForKey(key), data, key)
    ensures WellFormed(bs[BucketForKey(key) := Bucket(LabelsFor(RawBucketForKey(key)), data)])
  {
    var bs' := bs[BucketForKey(key) := Bucket(LabelsFor(RawBucketForKey(key)), data)];
    forall b | b in bs' ensures WellLabelled(bs', b) {
      if b in bs {
        assert WellLabelled(bs, b);
      }
    }
    forall b, n | b in bs' && n in bs'[b].data ensures Placed(bs', b, n) {
      if b in bs && n in bs[b].data {
        assert Placed(bs, b, n);
      }
    }
  }

  // A patch is the write it is meant to be exactly when the bucket it replaces is,
  // apart from the written entry, the one the write was computed from.
  lemma PatchAtomicIff(secrets: Secrets, e: Edit, data: map<Str, DataItem>)
    requires Sound(secrets) && IsSnapshot(BucketForKey(e.key), data, e.key)
    ensures Flat(View(PatchedFor(secrets, e.key, data))) == EditFlat(e, Flat(View(secrets)))
            <==> data == EditData(e, DataOf(View(secrets), BucketForKey(e.key)))
  {
    hide Flat, View, WellFormed, AllOurs, BucketForKey, HashKey, RawBucketForKey, EditFlat, EditData, PatchedFor,
         IsSnapshot;
    SoundMeans(secrets);
    var bs, b := View(secrets), BucketForKey(e.key);
    if data == EditData(e, DataOf(bs, b)) {
      PatchCommits(secrets, e, data);
    }
    if Flat(View(PatchedFor(secrets, e.key, data))) == EditFlat(e, Flat(bs)) {
      PatchedSnapshot(secrets, e.key, data);
      SoundMeans(PatchedFor(secrets, e.key, data));
      EditRefines(e, bs, Edited(e, bs));
      SameFlatSameData(View(PatchedFor(secrets, e.key, data)), Edited(e, bs), b);
    }
  }

  // Dropping a bucket is the write exactly when the write empties the bucket.
  lemma DropAtomicIff(secrets: Secrets, e: Edit)
    requires Sound(secrets)
    ensures Flat(View(secrets - {BucketForKey(e.key)})) == EditFlat(e, Flat(View(secrets)))
            <==> EditData(e, DataOf(View(secrets), BucketForKey(e.key))) == map[]
  {
    hide Flat, View, WellFormed, AllOurs, BucketForKey, HashKey, RawBucketForKey, EditFlat, EditData;
    SoundMeans(secrets);
    var bs, b := View(secrets), BucketForKey(e.key);
    if EditData(e, DataOf(bs, b)) == map[] {
      DropCommits(secrets, e);
    }
    if Flat(View(secrets - {b})) == EditFlat(e, Flat(bs)) {
      DeleteDrops(secrets, b);
      EditKeepsWellFormed(e, bs, bs - {b});
      EditRefines(e, bs, Edited(e, bs));
      SameFlatSameData(bs - {b}, Edited(e, bs), b);
    }
  }

  // Putting an emptied bucket back is a stutter exactly when the bucket holds no
  // item now.
  lemma RecreationStuttersIff(secrets: Secrets, key: Str)
    requires Sound(secrets)
    ensures Flat(View(PatchedFor(secrets, key, map[]))) == Flat(View(secrets))
            <==> DataOf(View(secrets), BucketForKey(key)) == map[]
  {
    hide Flat, View, WellFormed, AllOurs, BucketForKey, HashKey, RawBucketForKey, EditFlat, PatchedFor;
    SoundMeans(secrets);
    var bs, b := View(secrets), BucketForKey(key);
    var secrets' := PatchedFor(secrets, key, map[]);
    PatchedSnapshot(secrets, key, map[]);
    SoundMeans(secrets');
    if Flat(View(secrets')) == Flat(bs) {
      SameFlatSameData(View(secrets'), bs, b);
    }
    if DataOf(bs, b) == map[] {
      EmptyBucketIsAbsent(secrets, key);
    }
  }

  lemma EmptyBucketIsAbsent(secrets: Secrets, key: Str)
    requires Sound(secrets) && DataOf(View(secrets), BucketForKey(key)) == map[]
    ensures Flat(View(PatchedFor(secrets, key, map[]))) == Flat(View(secrets))
  {
    hide View, WellFormed, AllOurs, BucketForKey, HashKey, RawBucketForKey, PatchedFor;
    SoundMeans(secrets);
    RemoveFromEmpty(Remove(key));
    PatchCommits(secrets, Remove(key), map[]);
    FindIsFlat(View(secrets), key);
    assert key !in Flat(View(secrets));
  }

  // ---------- Runs ----------

  /** What holds of every state, however the lease moves. */
  ghost predicate Placement(s: State) {
    Sound(s.secrets) && forall n :: n in s.local ==> LocalPlaced(s.local[n])
  }

  ghost predicate LocalPlaced(l: Local) {
    l.Ready? ==> IsSnapshot(BucketForKey(l.w.edit.key), l.data, l.w.edit.key)
  }

  ghost predicate Refines(s: State) {
    Flat(View(s.secrets)) == Replay(s.log)
  }

  /** A commit finds its bucket, apart from the entry it writes, as the call read
      it. */
  predicate Guard(s: State, step: Step) {
    match step
    case Drop(n) => LocalOf(s, n).Ready? ==> EditData(LocalOf(s, n).w.edit, BucketOf(s, LocalOf(s, n).w)) == map[]
    case Patch(n) =>
      (match LocalOf(s, n)
       case Ready(w, data) => data == EditData(w.edit, BucketOf(s, w))
       case Emptied(w) => BucketOf(s, w) == map[]
       case _ => true)
    case _ => true
  }

  function BucketOf(s: State, w: Write): map<Str, DataItem> {
    DataOf(View(s.secrets), BucketForKey(w.edit.key))
  }

  ghost predicate RefinesThroughout(s: State, steps: seq<Step>)
    decreases |steps|
  {
    Refines(s) && (steps != [] ==> RefinesThroughout(Next(s, steps[0]), steps[1..]))
  }

  ghost predicate Guarded(s: State, steps: seq<Step>)
    decreases |steps|
  {
    steps != [] ==> Guard(s, steps[0]) && Guarded(Next(s, steps[0]), steps[1..])
  }

  lemma EditedSnapshot(key: Str, e: Edit, data: map<Str, DataItem>)
    requires IsSnapshot(BucketForKey(key), data, key) && e.key == key
    ensures IsSnapshot(BucketForKey(key), EditData(e, data), key)
  {}

  lemma StepKeepsPlacement(s: State, step: Step)
    requires Placement(s) && Enabled(s, step, false)
    ensures Placement(Next(s, step))
  {
    hide Sound, View, Flat, BucketForKey, HashKey, EditData, IsSnapshot, PatchedFor;
    match step
    case BeginReap(n, key, snap) => EditedSnapshot(key, Remove(key), snap);
    case Fetch(n) =>
      var key := LocalOf(s, n).req.key;
      SoundFind(s.secrets, key);
      match LocalOf(s, n).req {
        case PutCall(k, v, ttl) => EditedSnapshot(key, Put(k, v, ExpiryOf(ttl, s.clock)),
          DataOf(View(s.secrets), BucketForKey(key)));
        case DeleteCall(k) => EditedSnapshot(key, Remove(k), DataOf(View(s.secrets), BucketForKey(key)));
      }
    case Drop(n) => DropKeepsSound(s.secrets, LocalOf(s, n).w.edit.key);
    case Patch(n) =>
      var key := LocalOf(s, n).w.edit.key;
      if LocalOf(s, n).Ready? {
        PatchedSnapshot(s.secrets, key, LocalOf(s, n).data);
      } else {
        EmptySnapshot(key);
        PatchedSnapshot(s.secrets, key, map[]);
      }
    case _ =>
  }

  lemma EmptySnapshot(key: Str)
    ensures IsSnapshot(BucketForKey(key), map[], key)
  {}

  lemma DropKeepsSound(secrets: Secrets, key: Str)
    requires Sound(secrets)
    ensures Sound(secrets - {BucketForKey(key)})
  {
    hide BucketForKey, HashKey, RawBucketForKey;
    DeleteDrops(secrets, BucketForKey(key));
    EditKeepsWellFormed(Remove(key), View(secrets), View(secrets) - {BucketForKey(key)});
  }

  // However the lease moves, a step keeps the store equal to the committed writes
  // exactly when it meets its guard.
  lemma StepRefinesIff(s: State, step: Step)
    requires Placement(s) && Refines(s) && Enabled(s, step, false)
    ensures Refines(Next(s, step)) <==> Guard(s, step)
  {
    hide Sound, View, Flat, BucketForKey, HashKey, EditData, EditFlat, IsSnapshot, PatchedFor, Replay;
    if step.Drop? {
      var w := LocalOf(s, step.node).w;
      ReplayAppend(s.log, w);
      DropAtomicIff(s.secrets, w.edit);
    } else if step.Patch? {
      var w := LocalOf(s, step.node).w;
      if LocalOf(s, step.node).Ready? {
        ReplayAppend(s.log, w);
        PatchAtomicIff(s.secrets, w.edit, LocalOf(s, step.node).data);
      } else {
        RecreationStuttersIff(s.secrets, w.edit.key);
      }
    }
  }

  // A run refines the flat map at every point exactly when every commit in it
  // finds its bucket, apart from the entry it writes, as the call read it.
  lemma {:induction false} RunRefinesIff(s: State, steps: seq<Step>)
    requires Placement(s) && Refines(s) && Legal(s, steps, false)
    ensures RefinesThroughout(s, steps) <==> Guarded(s, steps)
    decreases |steps|
  {
    hide Placement, Refines, Guard, Next, Enabled;
    if steps != [] {
      StepRefinesIff(s, steps[0]);
      StepKeepsPlacement(s, steps[0]);
      if Guard(s, steps[0]) {
        RunRefinesIff(Next(s, steps[0]), steps[1..]);
      }
    }
  }

  lemma InitRefines(holder: Str, clock: int)
    ensures Placement(Init(holder, clock)) && Refines(Init(holder, clock))
    ensures AsksForRest(Init(holder, clock)) && ReadsOk(Init(holder, clock)) && AcksLogged(Init(holder, clock))
  {}

  // ---------- Reads ----------

  /** Writes nobody asked for are removals. */
  ghost predicate AsksForRest(s: State) {
    forall n :: n in s.local && s.local[n].Ready? && !s.local[n].w.asked ==> s.local[n].w.edit.Remove?
  }

  /** A commit nobody asked for finds its key gone or expired. */
  predicate ReapGuard(s: State, step: Step) {
    match step
    case Drop(n) => LocalOf(s, n).Ready? ==> ReapAllowed(s, LocalOf(s, n).w)
    case Patch(n) => LocalOf(s, n).Ready? ==> ReapAllowed(s, LocalOf(s, n).w)
    case _ => true
  }

  predicate ReapAllowed(s: State, w: Write) {
    !w.asked && w.edit.key in Replay(s.log) ==> Expired(Replay(s.log), w.edit.key, s.clock)
  }

  function LiveEntry(flat: FlatMap, k: Str, t: int): Option<Entry> {
    if k in flat && Live(flat[k].expiry, t) then Some(flat[k]) else None
  }

  /** The entry the last asked-for write to a key left, while it lives. */
  function AskedEntry(last: Option<Edit>, t: int): Option<Entry> {
    if last.Some? && last.value.Put? && Live(last.value.expiry, t)
    then Some(Entry(last.value.value, last.value.expiry)) else None
  }

  /** From now on every key has the entry that the last asked-for write left. */
  ghost predicate ReadsRight(s: State) {
    forall k, t :: s.clock <= t ==> LiveEntry(Flat(View(s.secrets)), k, t) == AskedEntry(LastAsked(s.log, k), t)
  }

  lemma StepKeepsAsksForRest(s: State, step: Step)
    requires AsksForRest(s) && Enabled(s, step, false)
    ensures AsksForRest(Next(s, step))
  {
    hide View, Flat, PatchedFor, EditData, IsSnapshot, BucketForKey;
  }

  // However the lease moves, a step keeps what reads rely on exactly when no
  // deferred delete in it removes a key that is stored and unexpired.
  lemma StepKeepsReadsIff(s: State, step: Step)
    requires AsksForRest(s) && ReadsOk(s) && Enabled(s, step, false)
    ensures ReadsOk(Next(s, step)) <==> ReapGuard(s, step)
  {
    hide Sound, View, Flat, BucketForKey, HashKey, EditData, IsSnapshot, PatchedFor, Replay, LastAsked;
    var s' := Next(s, step);
    if step.Drop? || (step.Patch? && LocalOf(s, step.node).Ready?) {
      var w := LocalOf(s, step.node).w;
      ReplayAppend(s.log, w);
      if ReapGuard(s, step) {
        forall k ensures ReadOk(Replay(s'.log), LastAsked(s'.log, k), k, s'.clock) {
          assert ReadOk(Replay(s.log), LastAsked(s.log, k), k, s.clock);
        }
      } else {
        assert ReadOk(Replay(s.log), LastAsked(s.log, w.edit.key), w.edit.key, s.clock);
        assert !ReadOk(Replay(s'.log), LastAsked(s'.log, w.edit.key), w.edit.key, s'.clock);
      }
    } else {
      forall k ensures ReadOk(Replay(s'.log), LastAsked(s'.log, k), k, s'.clock) {
        assert ReadOk(Replay(s.log), LastAsked(s.log, k), k, s.clock);
      }
    }
  }

  // What reads rely on makes them right; and a deferred delete that breaks it
  // makes one of them wrong at once.
  lemma ReadsOkIsRight(s: State)
    requires Refines(s) && ReadsOk(s)
    ensures ReadsRight(s)
  {
    hide View, Flat, Replay, LastAsked;
    forall k, t | s.clock <= t
      ensures LiveEntry(Flat(View(s.secrets)), k, t) == AskedEntry(LastAsked(s.log, k), t)
    {
      assert ReadOk(Replay(s.log), LastAsked(s.log, k), k, s.clock);
    }
  }

  lemma BadReapIsSeen(s: State, step: Step)
    requires AsksForRest(s) && ReadsOk(s) && Enabled(s, step, false)
    requires !ReapGuard(s, step) && Refines(Next(s, step))
    ensures !ReadsRight(Next(s, step))
  {
    hide View, Flat, BucketForKey, HashKey, EditData, IsSnapshot, PatchedFor, Replay, LastAsked;
    var s', w := Next(s, step), LocalOf(s, step.node).w;
    ReplayAppend(s.log, w);
    assert ReadOk(Replay(s.log), LastAsked(s.log, w.edit.key), w.edit.key, s.clock);
    assert LiveEntry(Flat(View(s'.secrets)), w.edit.key, s'.clock)
        != AskedEntry(LastAsked(s'.log, w.edit.key), s'.clock);
  }

  ghost predicate RightThroughout(s: State, steps: seq<Step>)
    decreases |steps|
  {
    Refines(s) && ReadsRight(s) && (steps != [] ==> RightThroughout(Next(s, steps[0]), steps[1..]))
  }

  ghost predicate ReapGuarded(s: State, steps: seq<Step>)
    decreases |steps|
  {
    steps != [] ==> ReapGuard(s, steps[0]) && ReapGuarded(Next(s, steps[0]), steps[1..])
  }

  // A run is at every point the flat map of the committed writes, with every read
  // right, exactly when every commit finds its bucket, apart from the entry it
  // writes, as the call read it, and no deferred delete removes a key that is
  // stored and unexpired.
  lemma {:induction false} RunIsRightIff(s: State, steps: seq<Step>)
    requires Placement(s) && Refines(s) && AsksForRest(s) && ReadsOk(s) && Legal(s, steps, false)
    ensures RightThroughout(s, steps) <==> Guarded(s, steps) && ReapGuarded(s, steps)
    decreases |steps|
  {
    hide Placement, Refines, Guard, ReapGuard, Next, Enabled, ReadsOk, ReadsRight, AsksForRest;
    ReadsOkIsRight(s);
    if steps != [] {
      var step, s' := steps[0], Next(s, steps[0]);
      StepRefinesIff(s, step);
      StepKeepsPlacement(s, step);
      StepKeepsAsksForRest(s, step);
      StepKeepsReadsIff(s, step);
      if Guard(s, step) && ReapGuard(s, step) {
        RunIsRightIff(s', steps[1..]);
      } else if Guard(s, step) {
        BadReapIsSeen(s, step);
      }
    }
  }

  lemma {:induction false} RunKeepsReads(s: State, steps: seq<Step>)
    requires Placement(s) && Refines(s) && AsksForRest(s) && ReadsOk(s) && Legal(s, steps, false)
    requires Guarded(s, steps) && ReapGuarded(s, steps)
    ensures Refines(After(s, steps)) && ReadsOk(After(s, steps))
    decreases |steps|
  {
    hide Placement, Refines, Guard, ReapGuard, Next, Enabled, ReadsOk, AsksForRest;
    if steps != [] {
      StepRefinesIff(s, steps[0]);
      StepKeepsPlacement(s, steps[0]);
      StepKeepsAsksForRest(s, steps[0]);
      StepKeepsReadsIff(s, steps[0]);
      RunKeepsReads(Next(s, steps[0]), steps[1..]);
    }
  }

  // In every such run, from now on, GetValue returns what the last asked-for write
  // to the key put, until that expires.
  lemma GuardedReadsReturnLastWrite(holder: Str, clock: int, steps: seq<Step>, k: Str, t: int)
    requires Legal(Init(holder, clock), steps, false)
    requires Guarded(Init(holder, clock), steps) && ReapGuarded(Init(holder, clock), steps)
    requires After(Init(holder, clock), steps).clock <= t
    ensures var s := After(Init(holder, clock), steps);
            Visible(Flat(View(s.secrets)), k, t) == Expected(LastAsked(s.log, k), t)
  {
    hide View, Flat, Replay, LastAsked, Placement, AsksForRest, Legal, After, Guarded, ReapGuarded, Init;
    InitRefines(holder, clock);
    RunKeepsReads(Init(holder, clock), steps);
    var s := After(Init(holder, clock), steps);
    assert ReadOk(Replay(s.log), LastAsked(s.log, k), k, s.clock);
  }

  /** Acknowledged writes, and those of emptied buckets not yet put back, are in
      the log. */
  ghost predicate AcksLogged(s: State) {
    && (forall i :: 0 <= i < |s.ended| && s.ended[i].Acked? ==> s.ended[i].w in s.log)
    && forall n :: n in s.local && s.local[n].Emptied? ==> s.local[n].w in s.log
  }

  // However the lease moves, an acknowledged write is in the log.
  lemma {:induction false} AcknowledgedIsLogged(s: State, steps: seq<Step>)
    requires AcksLogged(s) && Legal(s, steps, false)
    ensures AcksLogged(After(s, steps))
    decreases |steps|
  {
    hide View, Flat, PatchedFor, EditData, IsSnapshot, BucketForKey, DataOf;
    if steps != [] {
      StepKeepsAcksLogged(s, steps[0]);
      AcknowledgedIsLogged(Next(s, steps[0]), steps[1..]);
    }
  }

  lemma StepKeepsAcksLogged(s: State, step: Step)
    requires AcksLogged(s) && Enabled(s, step, false)
    ensures AcksLogged(Next(s, step))
  {
    hide View, Flat, PatchedFor, EditData, IsSnapshot, BucketForKey, DataOf;
    var s' := Next(s, step);
    assert s.log <= s'.log;
    assert forall w :: w in s.log ==> w in s'.log;
    if step.Drop? || (step.Patch? && LocalOf(s, step.node).Ready?) {
      assert s'.log[|s.log|] == LocalOf(s, step.node).w;
    }
  }

  // The lease standing still during calls is one way to meet every guard.
  lemma {:induction false} StableRunIsGuarded(s: State, steps: seq<Step>)
    requires Inv(s) && Legal(s, steps, true)
    ensures Legal(s, steps, false) && Guarded(s, steps) && ReapGuarded(s, steps)
    decreases |steps|
  {
    hide Inv, Next, Guard, ReapGuard, Enabled;
    if steps != [] {
      StableStepIsGuarded(s, steps[0]);
      StepKeepsInv(s, steps[0]);
      StableRunIsGuarded(Next(s, steps[0]), steps[1..]);
    }
  }

  lemma StableStepIsGuarded(s: State, step: Step)
    requires Inv(s) && Enabled(s, step, true)
    ensures Enabled(s, step, false) && Guard(s, step) && ReapGuard(s, step)
  {
    hide Sound, View, Flat, BucketForKey, HashKey, IsSnapshot, ReadsOk, Replay, DataOf;
    if step.BeginReap? {
      SoundFind(s.secrets, step.key);
    } else if step.Patch? || step.Drop? {
      assert step.node == s.holder;
    }
  }

  // ---------- Queries ----------

  /** The keys a step brings in are among `keys`; a deferred delete that need not be
      prompt brings in those of its snapshot. */
  predicate StepIn(step: Step, keys: set<Str>, stable: bool) {
    match step
    case Begin(_, req) => req.key in keys
    case BeginReap(_, key, snap) => key in keys && (stable || ItemsIn(snap, keys))
    case _ => true
  }

  predicate ItemsIn(data: map<Str, DataItem>, keys: set<Str>) {
    forall n :: n in data ==> data[n].key in keys
  }

  ghost predicate LocalIn(l: Local, keys: set<Str>) {
    match l
    case Checked(req) => req.key in keys
    case Ready(w, data) => w.edit.key in keys && ItemsIn(data, keys)
    case Emptied(w) => w.edit.key in keys
    case Idle => true
  }

  ghost predicate Spelled(s: State, keys: set<Str>) {
    && StoredIn(View(s.secrets), keys) && LabelsSpellKeys(View(s.secrets))
    && forall n :: n in s.local ==> LocalIn(s.local[n], keys)
  }

  lemma DataIsIn(bs: Buckets, b: Str, keys: set<Str>)
    requires StoredIn(bs, keys)
    ensures ItemsIn(DataOf(bs, b), keys)
  {}

  lemma EditIsIn(e: Edit, data: map<Str, DataItem>, keys: set<Str>)
    requires ItemsIn(data, keys) && e.key in keys
    ensures ItemsIn(EditData(e, data), keys)
  {}

  // Patching any snapshot over case-consistent keys leaves labels spelling keys.
  lemma PatchKeepsLabels(secrets: Secrets, key: Str, data: map<Str, DataItem>, keys: set<Str>)
    requires Sound(secrets) && StoredIn(View(secrets), keys) && LabelsSpellKeys(View(secrets))
    requires CaseConsistent(keys) && key in keys && ItemsIn(data, keys)
    requires IsSnapshot(BucketForKey(key), data, key)
    ensures var bs' := View(PatchedFor(secrets, key, data)); StoredIn(bs', keys) && LabelsSpellKeys(bs')
  {
    hide View, Patched, BucketForKey, HashKey, RawBucketForKey, AllOurs, WellFormed;
    SoundMeans(secrets);
    PatchReplaces(secrets, BucketForKey(key), Bucket(LabelsFor(RawBucketForKey(key)), data));
  }

  lemma DropKeepsLabels(secrets: Secrets, b: Str, keys: set<Str>)
    requires Sound(secrets) && StoredIn(View(secrets), keys) && LabelsSpellKeys(View(secrets))
    ensures StoredIn(View(secrets - {b}), keys) && LabelsSpellKeys(View(secrets - {b}))
  {
    hide RawBucketForKey, WellFormed;
    SoundMeans(secrets);
    DeleteDrops(secrets, b);
  }

  lemma StepKeepsSpelled(s: State, step: Step, stable: bool, keys: set<Str>)
    requires Placement(s) && Spelled(s, keys) && CaseConsistent(keys)
    requires Enabled(s, step, stable) && StepIn(step, keys, stable)
    ensures Spelled(Next(s, step), keys)
  {
    hide Sound, View, Flat, BucketForKey, HashKey, EditData, IsSnapshot, PatchedFor, StoredIn, LabelsSpellKeys,
      CaseConsistent, ItemsIn, DataOf;
    match step
    case BeginReap(n, key, snap) =>
      DataIsIn(View(s.secrets), BucketForKey(key), keys);
      EditIsIn(Remove(key), snap, keys);
    case Fetch(n) =>
      var data := DataOf(View(s.secrets), BucketForKey(LocalOf(s, n).req.key));
      DataIsIn(View(s.secrets), BucketForKey(LocalOf(s, n).req.key), keys);
      match LocalOf(s, n).req {
        case PutCall(k, v, ttl) => EditIsIn(Put(k, v, ExpiryOf(ttl, s.clock)), data, keys);
        case DeleteCall(k) => EditIsIn(Remove(k), data, keys);
      }
    case Drop(n) => DropKeepsLabels(s.secrets, BucketForKey(LocalOf(s, n).w.edit.key), keys);
    case Patch(n) =>
      var key := LocalOf(s, n).w.edit.key;
      if LocalOf(s, n).Ready? {
        PatchKeepsLabels(s.secrets, key, LocalOf(s, n).data, keys);
      } else {
        EmptySnapshot(key);
        NoItemsIn(keys);
        PatchKeepsLabels(s.secrets, key, map[], keys);
      }
    case _ =>
  }

  lemma NoItemsIn(keys: set<Str>)
    ensures ItemsIn(map[], keys)
  {}

  // A step with a standing lease is one with a moving lease.
  lemma StableStepIsStep(s: State, step: Step)
    requires Sound(s.secrets) && Enabled(s, step, true)
    ensures Enabled(s, step, false)
  {
    hide Sound, View, Flat, BucketForKey, HashKey, IsSnapshot, DataOf;
    if step.BeginReap? {
      SoundFind(s.secrets, step.key);
    }
  }

  lemma {:induction false} RunKeepsSpelled(s: State, steps: seq<Step>, stable: bool, keys: set<Str>)
    requires Placement(s) && Spelled(s, keys) && CaseConsistent(keys) && Legal(s, steps, stable)
    requires forall i :: 0 <= i < |steps| ==> StepIn(steps[i], keys, stable)
    ensures Placement(After(s, steps)) && Spelled(After(s, steps), keys)
    decreases |steps|
  {
    hide Sound, Next, Spelled, CaseConsistent, LocalPlaced, Enabled;
    if steps != [] {
      if stable {
        StableStepIsStep(s, steps[0]);
      }
      StepKeepsPlacement(s, steps[0]);
      StepKeepsSpelled(s, steps[0], stable, keys);
      RunKeepsSpelled(Next(s, steps[0]), steps[1..], stable, keys);
    }
  }

  lemma InitSpelled(holder: Str, clock: int, keys: set<Str>)
    ensures Spelled(Init(holder, clock), keys)
  {}

  // In every run, however the lease moves, over keys whose raw bucket names agree
  // when they agree up to case, every query returns exactly the stored, unexpired
  // keys with its prefix.
  lemma RunListsEverything(holder: Str, clock: int, steps: seq<Step>, stable: bool, keys: set<Str>)
    requires Legal(Init(holder, clock), steps, stable) && CaseConsistent(keys)
    requires forall i :: 0 <= i < |steps| ==> StepIn(steps[i], keys, stable)
    ensures var bs := View(After(Init(holder, clock), steps).secrets);
            forall prefix, now, key :: Listed(bs, prefix, now, key) <==> Match(bs, prefix, now, key)
  {
    hide Listed, Match, View, After, Legal, Init;
    InitRefines(holder, clock);
    InitSpelled(holder, clock, keys);
    RunKeepsSpelled(Init(holder, clock), steps, stable, keys);
    SoundMeans(After(Init(holder, clock), steps).secrets);
    SpelledLabelsListEverything(View(After(Init(holder, clock), steps).secrets));
  }

  // ---------- From a put to a read ----------

  /** A call that commits at `c`, after which no caller's write to its key does, in
      a run that meets both guards. */
  ghost predicate IsLastCall(init: State, run: seq<Step>, b: nat, f: nat, c: nat, n: Str, req: Request) {
    && Legal(init, run, false) && Guarded(init, run) && ReapGuarded(init, run)
    && IsCall(run, b, f, n, req)
    && f < c < |run| && (run[c] == Drop(n) || run[c] == Patch(n)) && Quiet(run, f + 1, c, n)
    && NoneAfter(init, run, c, req.key)
  }

  lemma LastCallDecides(holder: Str, clock: int, run: seq<Step>, b: nat, f: nat, c: nat, n: Str, req: Request)
    requires IsLastCall(Init(holder, clock), run, b, f, c, n, req)
    ensures var s, last := After(Init(holder, clock), run), LastAsked(After(Init(holder, clock), run).log, req.key);
            && last.Some? && Answers(last.value, req, StateAt(Init(holder, clock), run, f).clock)
            && ReadOk(Flat(View(s.secrets)), last, req.key, s.clock)
  {
    hide View, Flat, Replay, LastAsked, Placement, AsksForRest, Legal, After, Guarded, ReapGuarded, Init, Answers,
         NoneAfter, StateAt, ReadOk, IsCall, Quiet;
    InitRefines(holder, clock);
    AnswerIsLastAsked(Init(holder, clock), run, b, f, c, n, req, false);
    RunKeepsReads(Init(holder, clock), run);
  }

  // A value put with a ttl is read, and matches queries, up to that long after the
  // put read its bucket and no longer; one put without, for good; an empty value is
  // never read.
  lemma PutIsReadUntilItExpires(holder: Str, clock: int, run: seq<Step>, b: nat, f: nat, c: nat, n: Str,
      k: Str, v: Str, ttl: int, t: int)
    requires IsLastCall(Init(holder, clock), run, b, f, c, n, PutCall(k, v, ttl)) && run[c].Patch?
    requires After(Init(holder, clock), run).clock <= t
    ensures var bs, put := View(After(Init(holder, clock), run).secrets), StateAt(Init(holder, clock), run, f).clock;
            && Visible(Flat(bs), k, t) == (if v != [] && (ttl == 0 || t <= put + ttl) then Some(v) else None)
            && forall prefix :: Match(bs, prefix, t, k) <==> prefix <= k && (ttl == 0 || t <= put + ttl)
  {
    hide View, Flat, LastAsked, After, Init, StateAt, IsLastCall;
    LastCallDecides(holder, clock, run, b, f, c, n, PutCall(k, v, ttl));
  }

  // Over case-consistent keys the queries return it that long.
  lemma PutIsListedUntilItExpires(holder: Str, clock: int, run: seq<Step>, b: nat, f: nat, c: nat, n: Str,
      k: Str, v: Str, ttl: int, t: int, keys: set<Str>)
    requires IsLastCall(Init(holder, clock), run, b, f, c, n, PutCall(k, v, ttl)) && run[c].Patch?
    requires After(Init(holder, clock), run).clock <= t
    requires CaseConsistent(keys) && forall i :: 0 <= i < |run| ==> StepIn(run[i], keys, false)
    ensures var bs, put := View(After(Init(holder, clock), run).secrets), StateAt(Init(holder, clock), run, f).clock;
            forall prefix :: Listed(bs, prefix, t, k) <==> prefix <= k && (ttl == 0 || t <= put + ttl)
  {
    hide View, Flat, Listed, Match, After, Init, StateAt, Guarded, ReapGuarded, IsCall, Quiet, NoneAfter,
         CaseConsistent, StepIn;
    PutIsReadUntilItExpires(holder, clock, run, b, f, c, n, k, v, ttl, t);
    RunListsEverything(holder, clock, run, false, keys);
  }

  // A deleted key is gone, whether its deletion took one API call or two.
  lemma DeletedIsAbsent(holder: Str, clock: int, run: seq<Step>, b: nat, f: nat, c: nat, n: Str, k: Str)
    requires IsLastCall(Init(holder, clock), run, b, f, c, n, DeleteCall(k))
    ensures k !in Flat(View(After(Init(holder, clock), run).secrets))
  {
    hide View, Flat, LastAsked, After, Init, StateAt, IsLastCall;
    LastCallDecides(holder, clock, run, b, f, c, n, DeleteCall(k));
  }

  // ---------- Runs that lose a write ----------

  /** The write a put without a ttl makes. */
  function PutOf(k: Str, v: Str): Write {
    Write(Put(k, v, Never), true)
  }

  /** The data of a bucket with one key. */
  function One(k: Str, v: Str, x: Expiry): map<Str, DataItem> {
    map[HashKey(k) := DataItem(k, v, x)]
  }

  /** Two nodes between their reads and their patches of one empty bucket. */
  function Race(n1: Str, n2: Str, a: Str, b: Str, v: Str, u: Str, clock: int): State {
    State(map[], n2, clock,
          map[n1 := Ready(PutOf(a, v), One(a, v, Never)), n2 := Ready(PutOf(b, u), One(b, u, Never))], [], [])
  }

  lemma RaceIsReached(n1: Str, n2: Str, a: Str, b: Str, v: Str, u: Str, clock: int) returns (steps: seq<Step>)
    requires n1 != n2
    ensures Legal(Init(n1, clock), steps, false)
    ensures After(Init(n1, clock), steps) == Race(n1, n2, a, b, v, u, clock)
  {
    hide BucketForKey, HashKey, View;
    EmptyStore(BucketForKey(a));
    EmptyStore(BucketForKey(b));
    var s0 := Init(n1, clock);
    var c1, c2, c3, c4 := Begin(n1, PutCall(a, v, 0)), Fetch(n1), Elect(n2), Begin(n2, PutCall(b, u, 0));
    var s1 := s0.(local := map[n1 := Checked(PutCall(a, v, 0))]);
    var s2 := s0.(local := map[n1 := Ready(PutOf(a, v), One(a, v, Never))]);
    var s3 := s2.(holder := n2);
    var s4 := s3.(local := map[n1 := Ready(PutOf(a, v), One(a, v, Never)), n2 := Checked(PutCall(b, u, 0))]);
    assert Next(s0, c1) == s1 && Next(s1, c2) == s2 && Next(s2, c3) == s3 && Next(s3, c4) == s4;
    assert Next(s4, Fetch(n2)) == Race(n1, n2, a, b, v, u, clock);
    var r4 := [Fetch(n2)];
    Unroll(s4, Fetch(n2), [], false);
    Unroll(s3, c4, r4, false);
    Unroll(s2, c3, [c4] + r4, false);
    Unroll(s1, c2, [c3] + ([c4] + r4), false);
    Unroll(s0, c1, [c2] + ([c3] + ([c4] + r4)), false);
    steps := [c1] + ([c2] + ([c3] + ([c4] + r4)));
  }

  lemma RaceEnds(n1: Str, n2: Str, a: Str, b: Str, v: Str, u: Str, clock: int)
    requires n1 != n2
    ensures var s, steps := Race(n1, n2, a, b, v, u, clock), [Patch(n2), Patch(n1)];
            && Legal(s, steps, false)
            && After(s, steps) == s.(
                 secrets := PatchedFor(PatchedFor(map[], b, One(b, u, Never)), a, One(a, v, Never)),
                 local := map[n1 := Idle, n2 := Idle],
                 log := [PutOf(b, u), PutOf(a, v)], ended := [Acked(PutOf(b, u)), Acked(PutOf(a, v))])
  {
    hide BucketForKey, HashKey, RawBucketForKey, View, PatchedFor, EditData, DataOf, Flat;
    var s := Race(n1, n2, a, b, v, u, clock);
    assert HashKey(a) in One(a, v, Never) && HashKey(b) in One(b, u, Never);
    var s1 := s.(secrets := PatchedFor(map[], b, One(b, u, Never)),
                 local := map[n1 := Ready(PutOf(a, v), One(a, v, Never)), n2 := Idle],
                 log := [PutOf(b, u)], ended := [Acked(PutOf(b, u))]);
    assert Next(s, Patch(n2)) == s1;
    var s2 := s1.(secrets := PatchedFor(s1.secrets, a, One(a, v, Never)), local := map[n1 := Idle, n2 := Idle],
                  log := [PutOf(b, u), PutOf(a, v)], ended := [Acked(PutOf(b, u)), Acked(PutOf(a, v))]);
    assert Next(s1, Patch(n1)) == s2;
    Unroll(s1, Patch(n1), [], false);
    Unroll(s, Patch(n2), [Patch(n1)], false);
    assert [Patch(n2), Patch(n1)] == [Patch(n2)] + [Patch(n1)];
    assert [Patch(n1)] == [Patch(n1)] + [];
  }

  // Patches are unconditional: when the lease moves while a put is under way, an
  // acknowledged put of another key of the bucket can be lost.
  lemma MovedLeaseLosesWrite(n1: Str, n2: Str, a: Str, b: Str, v: Str, u: Str, clock: int) returns (steps: seq<Step>)
    requires n1 != n2 && a != b && BucketForKey(a) == BucketForKey(b)
    ensures Legal(Init(n1, clock), steps, false)
    ensures var s := After(Init(n1, clock), steps);
            && NoneBusy(s) && b !in Flat(View(s.secrets))
            && s.ended == [Acked(PutOf(b, u)), Acked(PutOf(a, v))]
  {
    hide Flat, BucketForKey, HashKey, View, PatchedFor, Next, Legal, After;
    var first := RaceIsReached(n1, n2, a, b, v, u, clock);
    RaceEnds(n1, n2, a, b, v, u, clock);
    RunConcat(Init(n1, clock), first, [Patch(n2), Patch(n1)], false);
    SecondPatchWins(a, b, One(a, v, Never), One(b, u, Never));
    steps := first + [Patch(n2), Patch(n1)];
  }

  lemma EmptyStore(bucket: Str)
    ensures DataOf(View(map[]), bucket) == map[]
  {}

  lemma SecondPatchWins(a: Str, b: Str, da: map<Str, DataItem>, db: map<Str, DataItem>)
    requires a != b && BucketForKey(a) == BucketForKey(b)
    requires da.Keys == {HashKey(a)}
    ensures b !in Flat(View(PatchedFor(PatchedFor(map[], b, db), a, da)))
  {
    hide Patched;
    var config := Bucket(LabelsFor(RawBucketForKey(b)), db);
    PatchReplaces(map[], BucketForKey(b), config);
    PatchReplaces(PatchedFor(map[], b, db), BucketForKey(a), Bucket(LabelsFor(RawBucketForKey(a)), da));
    if HashKey(b) == HashKey(a) {
      Base64.Injective(a, b);
      assert false;
    }
    assert Find(View(PatchedFor(PatchedFor(map[], b, db), a, da)), b) == None;
  }

  lemma {:induction false} GuardedConcat(s: State, first: seq<Step>, second: seq<Step>)
    ensures Guarded(s, first + second) <==> Guarded(s, first) && Guarded(After(s, first), second)
    decreases |first|
  {
    hide Next, Guard;
    if first == [] {
      assert first + second == second;
    } else {
      GuardedConcat(Next(s, first[0]), first[1..], second);
      assert (first + second)[1..] == first[1..] + second;
    }
  }

  lemma PutIsGuarded(s: State, n: Str, key: Str, value: Str, ttl: int)
    requires s.holder == n && LocalOf(s, n).Idle?
    ensures Guarded(s, PutSteps(n, key, value, ttl))
  {
    hide BucketForKey, HashKey, View, PatchedFor, DataOf, EditData;
    var s1 := Next(s, Begin(n, PutCall(key, value, ttl)));
    var s2 := Next(s1, Fetch(n));
    var steps := PutSteps(n, key, value, ttl);
    assert steps[1..] == [Fetch(n), Patch(n)] && steps[1..][1..] == [Patch(n)] && steps[1..][1..][1..] == [];
    assert Guard(s2, Patch(n));
    assert Guarded(s2, [Patch(n)]);
    assert Guarded(s1, [Fetch(n), Patch(n)]);
  }

  /** A store with one key, after the given history and at the given time. */
  ghost predicate HoldsOne(s: State, n: Str, k: Str, v: Str, x: Expiry) {
    && s.holder == n && LocalOf(s, n).Idle? && Placement(s)
    && DataOf(View(s.secrets), BucketForKey(k)) == One(k, v, x)
  }

  lemma PutOverOne(s: State, n: Str, k: Str, v: Str, ttl: int)
    requires s.holder == n && LocalOf(s, n).Idle? && Placement(s)
    requires DataOf(View(s.secrets), BucketForKey(k)).Keys <= {HashKey(k)}
    ensures HoldsOne(AfterPut(s, n, k, v, ttl), n, k, v, ExpiryOf(ttl, s.clock))
  {
    hide BucketForKey, HashKey, RawBucketForKey, View, PatchedFor, Sound, DataOf;
    var e := Put(k, v, ExpiryOf(ttl, s.clock));
    var data := DataOf(View(s.secrets), BucketForKey(k));
    assert EditData(e, data) == One(k, v, ExpiryOf(ttl, s.clock));
    PatchCommits(s.secrets, e, EditData(e, data));
  }

  /** The steps of a deferred delete of a bucket's one key. */
  function ReapSteps(n: Str, k: Str, snap: map<Str, DataItem>): seq<Step> {
    [BeginReap(n, k, snap)] + ([Drop(n)] + [Patch(n)])
  }

  lemma ReapOfOne(s: State, n: Str, k: Str, v: Str, x: Expiry, v0: Str, x0: Expiry)
    requires HoldsOne(s, n, k, v, x)
    ensures var steps := ReapSteps(n, k, One(k, v0, x0));
            && Legal(s, steps, false) && Guarded(s, steps)
            && After(s, steps).log == s.log + [Write(Remove(k), false)]
            && s.ended <= After(s, steps).ended
  {
    hide BucketForKey, View, Patched, PatchedFor, Sound, DataOf, HashKey;
    var snap, w := One(k, v0, x0), Write(Remove(k), false);
    assert EditData(Remove(k), snap) == map[] && EditData(Remove(k), One(k, v, x)) == map[];
    OneIsSnapshot(k, v0, x0);
    var s1 := s.(local := s.local[n := Ready(w, map[])]);
    assert Next(s, BeginReap(n, k, snap)) == s1;
    var s2 := s1.(secrets := s.secrets - {BucketForKey(k)}, log := s.log + [w], local := s1.local[n := Emptied(w)]);
    assert Next(s1, Drop(n)) == s2;
    DropCommits(s.secrets, Remove(k));
    assert Guard(s1, Drop(n)) && Guard(s2, Patch(n));
    var s3 := Next(s2, Patch(n));
    Unroll(s2, Patch(n), [], false);
    assert [Patch(n)] == [Patch(n)] + [];
    Unroll(s1, Drop(n), [Patch(n)], false);
    Unroll(s, BeginReap(n, k, snap), [Drop(n)] + [Patch(n)], false);
    GuardedStep(s2, Patch(n), []);
    GuardedStep(s1, Drop(n), [Patch(n)]);
    GuardedStep(s, BeginReap(n, k, snap), [Drop(n)] + [Patch(n)]);
  }

  lemma GuardedStep(s: State, step: Step, rest: seq<Step>)
    ensures Guarded(s, [step] + rest) <==> Guard(s, step) && Guarded(Next(s, step), rest)
  {
    assert ([step] + rest)[1..] == rest;
  }

  lemma OneIsSnapshot(k: Str, v: Str, x: Expiry)
    ensures IsSnapshot(BucketForKey(k), One(k, v, x), k)
  {}

  /** A put that is to expire after 5, a wait of 10, a put for good, and then the
      deferred delete that a read in between had started. */
  function ReapedPutSteps(n: Str, k: Str, v: Str, v': Str, clock: int): seq<Step> {
    PutSteps(n, k, v, 5) + ([Tick(10)] + (PutSteps(n, k, v', 0) + ReapSteps(n, k, One(k, v, At(clock + 5)))))
  }

  // A late deferred delete can lose an acknowledged put of its own key although
  // every commit finds its bucket as the call read it, apart from that entry, on
  // one node that leads all along.
  lemma LateReapLosesPut(n: Str, k: Str, v: Str, v': Str, clock: int)
    ensures var s0, steps := Init(n, clock), ReapedPutSteps(n, k, v, v', clock);
            var s, w := After(s0, steps), PutOf(k, v');
            && Legal(s0, steps, false) && Guarded(s0, steps)
            && Acked(w) in s.ended && LastAsked(s.log, k) == Some(w.edit)
            && k !in Flat(View(s.secrets))
  {
    hide View, Flat, BucketForKey, HashKey, PatchedFor, Patched, Sound, DataOf, Legal, After, Guarded, PutSteps,
         ReapSteps;
    var s0 := Init(n, clock);
    InitRefines(n, clock);
    EmptyStore(BucketForKey(k));
    var first, second, reap := PutSteps(n, k, v, 5), PutSteps(n, k, v', 0), ReapSteps(n, k, One(k, v, At(clock + 5)));
    var s1 := AfterPut(s0, n, k, v, 5);
    PutRuns(s0, n, k, v, 5, false);
    PutIsGuarded(s0, n, k, v, 5);
    PutOverOne(s0, n, k, v, 5);
    var s2 := s1.(clock := s1.clock + 10);
    var s3 := AfterPut(s2, n, k, v', 0);
    PutRuns(s2, n, k, v', 0, false);
    PutIsGuarded(s2, n, k, v', 0);
    PutOverOne(s2, n, k, v', 0);
    assert s3.ended[|s3.ended| - 1] == Acked(PutOf(k, v'));
    ReapOfOne(s3, n, k, v', Never, v, At(clock + 5));
    RunConcat(s2, second, reap, false);
    GuardedConcat(s2, second, reap);
    assert Next(s1, Tick(10)) == s2;
    Unroll(s1, Tick(10), second + reap, false);
    GuardedStep(s1, Tick(10), second + reap);
    RunConcat(s0, first, [Tick(10)] + (second + reap), false);
    GuardedConcat(s0, first, [Tick(10)] + (second + reap));
    var s := After(s3, reap);
    LostAfterReap(s3, s, k, v');
    GuardedRunRefines(s0, ReapedPutSteps(n, k, v, v', clock));
  }

  lemma LostAfterReap(s: State, s': State, k: Str, v: Str)
    requires s.log != [] && s.log[|s.log| - 1] == PutOf(k, v)
    requires s'.log == s.log + [Write(Remove(k), false)]
    ensures LastAsked(s'.log, k) == Some(Put(k, v, Never)) && k !in Replay(s'.log)
  {
    ReplayAppend(s.log, Write(Remove(k), false));
  }

  lemma {:induction false} GuardedRunRefines(s: State, steps: seq<Step>)
    requires Placement(s) && Refines(s) && Legal(s, steps, false) && Guarded(s, steps)
    ensures Refines(After(s, steps))
    decreases |steps|
  {
    hide Placement, Refines, Guard, Next, Enabled;
    if steps != [] {
      StepRefinesIff(s, steps[0]);
      StepKeepsPlacement(s, steps[0]);
      GuardedRunRefines(Next(s, steps[0]), steps[1..]);
    }
  }
}
