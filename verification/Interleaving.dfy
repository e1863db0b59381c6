/**
  Several nodes writing through one API server, one API call at a time. A call is
  a leader check, a read of the bucket, for an emptied bucket a deletion, and a
  patch; steps of different nodes and of the elector come in any order. The
  per-node mutex lets a node run one call at a time.

  The premise under which the calls are atomic here is that the lease does not
  move while a call is between its leader check and its patch, and that a deferred
  delete runs while its node still leads and its snapshot is still current. Module
  MovingLease drops it.
 */
module Interleaving {
  import opened Text
  import opened Kube
  import opened BucketNames
  import opened Store

  datatype Request = PutCall(key: Str, value: Str, ttl: int) | DeleteCall(key: Str)

  /** An edit, and whether a caller asked for it; deferred deletes are not asked for. */
  datatype Write = Write(edit: Edit, asked: bool)

  /** Where a node is in its current call. */
  datatype Local =
    | Idle
    | Checked(req: Request)
    | Ready(w: Write, data: map<Str, DataItem>)
    | Emptied(w: Write)

  /** How a call ended, with what it had committed. */
  datatype Ended = Refused | Missing | Acked(w: Write) | Broken(committed: seq<Write>)

  /** `log` and `ended` are history: the writes committed so far, and the calls
      that have returned. */
  datatype State = State(
    secrets: Secrets,
    holder: Str,
    clock: int,
    local: map<Str, Local>,
    log: seq<Write>,
    ended: seq<Ended>)

  datatype Step =
    | Tick(d: nat)
    | Elect(id: Str)
    | Begin(node: Str, req: Request)
    | BeginReap(node: Str, key: Str, snap: map<Str, DataItem>)
    | Fetch(node: Str)
    | Drop(node: Str)
    | Patch(node: Str)
    | Fail(node: Str)

  function LocalOf(s: State, n: Str): Local {
    if n in s.local then s.local[n] else Idle
  }

  ghost predicate NoneBusy(s: State) {
    forall n :: n in s.local ==> s.local[n].Idle?
  }

  /** With `stable` the lease moves only while no call is under way, and a deferred
      delete runs on the leader with a current snapshot; without, on any node with
      any earlier one. */
  ghost predicate Enabled(s: State, step: Step, stable: bool) {
    match step
    case Tick(_) => true
    case Elect(_) => stable ==> NoneBusy(s)
    case Begin(n, _) => LocalOf(s, n).Idle?
    case BeginReap(n, key, snap) =>
      && LocalOf(s, n).Idle?
      && if stable then
           && s.holder == n && snap == DataOf(View(s.secrets), BucketForKey(key))
           && Expired(Flat(View(s.secrets)), key, s.clock)
         else IsSnapshot(BucketForKey(key), snap, key)
    case Fetch(n) => LocalOf(s, n).Checked?
    case Drop(n) => LocalOf(s, n).Ready? && LocalOf(s, n).data == map[]
    case Patch(n) => (LocalOf(s, n).Ready? && LocalOf(s, n).data != map[]) || LocalOf(s, n).Emptied?
    case Fail(n) => !LocalOf(s, n).Idle?
  }

  function Next(s: State, step: Step): State {
    match step
    case Tick(d) => s.(clock := s.clock + d)
    case Elect(id) => s.(holder := id)
    case Begin(n, req) =>
      if s.holder != n then s.(ended := s.ended + [Refused])
      else s.(local := s.local[n := Checked(req)])
    case BeginReap(n, key, snap) =>
      s.(local := s.local[n := Ready(Write(Remove(key), false), EditData(Remove(key), snap))])
    case Fetch(n) => if LocalOf(s, n).Checked? then AfterFetch(s, n, LocalOf(s, n).req) else s
    case Drop(n) =>
      if LocalOf(s, n).Ready? then
        var w := LocalOf(s, n).w;
        s.(secrets := s.secrets - {BucketForKey(w.edit.key)}, log := s.log + [w], local := s.local[n := Emptied(w)])
      else s
    case Patch(n) =>
      (match LocalOf(s, n)
       case Ready(w, data) =>
         s.(secrets := PatchedFor(s.secrets, w.edit.key, data), log := s.log + [w],
         local := s.local[n := Idle], ended := s.ended + [Acked(w)])
       case Emptied(w) =>
         s.(secrets := PatchedFor(s.secrets, w.edit.key, map[]),
         local := s.local[n := Idle], ended := s.ended + [Acked(w)])
       case _ => s)
    case Fail(n) =>
      s.(local := s.local[n := Idle],
      ended := s.ended + [Broken(if LocalOf(s, n).Emptied? then [LocalOf(s, n).w] else [])])
  }

  function AfterFetch(s: State, n: Str, req: Request): State {
    var data := DataOf(View(s.secrets), BucketForKey(req.key));
    match req
    case PutCall(k, v, ttl) =>
      var e := Put(k, v, ExpiryOf(ttl, s.clock));
      s.(local := s.local[n := Ready(Write(e, true), EditData(e, data))])
    case DeleteCall(k) =>
      if BucketForKey(k) !in s.secrets then s.(local := s.local[n := Idle], ended := s.ended + [Missing])
      else s.(local := s.local[n := Ready(Write(Remove(k), true), EditData(Remove(k), data))])
  }

  function PatchedFor(secrets: Secrets, key: Str, data: map<Str, DataItem>): Secrets {
    Patched(secrets, FIELD_OWNER, BucketForKey(key), Bucket(LabelsFor(RawBucketForKey(key)), data))
  }

  function Init(holder: Str, clock: int): State {
    State(map[], holder, clock, map[], [], [])
  }

  ghost predicate Legal(s: State, steps: seq<Step>, stable: bool)
    decreases |steps|
  {
    steps != [] ==> Enabled(s, steps[0], stable) && Legal(Next(s, steps[0]), steps[1..], stable)
  }

  function After(s: State, steps: seq<Step>): State
    decreases |steps|
  {
    if steps == [] then s else After(Next(s, steps[0]), steps[1..])
  }

  // ---------- What the log says ----------

  /** The flat map the committed writes make, one after the other. */
  function Replay(log: seq<Write>): FlatMap {
    if log == [] then map[]
    else EditFlat(log[|log| - 1].edit, Replay(log[..|log| - 1]))
  }

  /** The last asked-for write to a key. */
  function LastAsked(log: seq<Write>, key: Str): Option<Edit> {
    if log == [] then None
    else
      var w := log[|log| - 1];
      if w.asked && w.edit.key == key then Some(w.edit) else LastAsked(log[..|log| - 1], key)
  }

  /** What a read at `t` ought to return, given the last write. */
  function Expected(last: Option<Edit>, t: int): Option<Str> {
    if last.Some? && last.value.Put? && Live(last.value.expiry, t) && last.value.value != []
    then Some(last.value.value) else None
  }

  function Committed(ended: seq<Ended>): seq<Write> {
    if ended == [] then []
    else Committed(ended[..|ended| - 1]) + CommittedBy(ended[|ended| - 1])
  }

  function CommittedBy(e: Ended): seq<Write> {
    match e
    case Acked(w) => [w]
    case Broken(ws) => ws
    case _ => []
  }

  /** The write of a call that has dropped an emptied bucket and not yet returned. */
  function InFlight(s: State): seq<Write> {
    if LocalOf(s, s.holder).Emptied? then [LocalOf(s, s.holder).w] else []
  }

  // ---------- The invariant ----------

  ghost predicate Inv(s: State) {
    && Sound(s.secrets)
    && Flat(View(s.secrets)) == Replay(s.log)
    && OnlyHolderBusy(s)
    && LocalOk(s, LocalOf(s, s.holder))
    && s.log == Committed(s.ended) + InFlight(s)
    && ReadsOk(s)
  }

  ghost predicate OnlyHolderBusy(s: State) {
    forall n :: n in s.local && n != s.holder ==> s.local[n].Idle?
  }

  ghost predicate LocalOk(s: State, l: Local) {
    match l
    case Ready(w, data) =>
      && data == EditData(w.edit, DataOf(View(s.secrets), BucketForKey(w.edit.key)))
      && (!w.asked ==> w.edit.Remove? && Expired(Flat(View(s.secrets)), w.edit.key, s.clock))
    case Emptied(w) =>
      && w.edit.Remove? && w.edit.key !in Replay(s.log)
      && DataOf(View(s.secrets), BucketForKey(w.edit.key)) == map[]
    case _ => true
  }

  ghost predicate ReadsOk(s: State) {
    forall k :: ReadOk(Replay(s.log), LastAsked(s.log, k), k, s.clock)
  }

  /** Stored entries are the last asked-for writes; a written entry goes missing
      only after it has expired. */
  predicate ReadOk(flat: FlatMap, last: Option<Edit>, k: Str, clock: int) {
    if last.Some? && last.value.Put? then
      if k in flat then flat[k] == Entry(last.value.value, last.value.expiry) else !Live(last.value.expiry, clock)
    else k !in flat
  }

  lemma ReplayAppend(log: seq<Write>, w: Write)
    ensures Replay(log + [w]) == EditFlat(w.edit, Replay(log))
    ensures forall k :: LastAsked(log + [w], k) == if w.asked && w.edit.key == k then Some(w.edit)
            else LastAsked(log, k)
  {
    assert (log + [w])[..|log|] == log;
  }

  lemma CommittedAppend(ended: seq<Ended>, e: Ended)
    ensures Committed(ended + [e]) == Committed(ended) + CommittedBy(e)
  {
    assert (ended + [e])[..|ended|] == ended;
  }

  // Committing a write keeps what reads may rely on.
  lemma ReadsOkAppend(s: State, w: Write)
    requires ReadsOk(s)
    requires !w.asked ==> w.edit.Remove? && Expired(Replay(s.log), w.edit.key, s.clock)
    ensures forall k :: ReadOk(EditFlat(w.edit, Replay(s.log)), LastAsked(s.log + [w], k), k, s.clock)
  {
    ReplayAppend(s.log, w);
    forall k ensures ReadOk(EditFlat(w.edit, Replay(s.log)), LastAsked(s.log + [w], k), k, s.clock) {
      assert ReadOk(Replay(s.log), LastAsked(s.log, k), k, s.clock);
    }
  }

  // What a patch of an edited bucket does to the store and to the flat map.
  lemma PatchCommits(secrets: Secrets, e: Edit, data: map<Str, DataItem>)
    requires Sound(secrets) && data == EditData(e, DataOf(View(secrets), BucketForKey(e.key)))
    ensures var secrets' := PatchedFor(secrets, e.key, data);
            && Sound(secrets') && Flat(View(secrets')) == EditFlat(e, Flat(View(secrets)))
            && DataOf(View(secrets'), BucketForKey(e.key)) == data
  {
    var config := Bucket(LabelsFor(RawBucketForKey(e.key)), data);
    PatchReplaces(secrets, BucketForKey(e.key), config);
    var secrets' := PatchedFor(secrets, e.key, data);
    assert View(secrets') == Edited(e, View(secrets));
    SoundEdit(secrets, e, secrets');
  }

  lemma DropCommits(secrets: Secrets, e: Edit)
    requires Sound(secrets) && EditData(e, DataOf(View(secrets), BucketForKey(e.key))) == map[]
    ensures var secrets' := secrets - {BucketForKey(e.key)};
            && Sound(secrets') && Flat(View(secrets')) == EditFlat(e, Flat(View(secrets)))
            && DataOf(View(secrets'), BucketForKey(e.key)) == map[] && e.Remove?
  {
    DeleteDrops(secrets, BucketForKey(e.key));
    SoundEdit(secrets, e, secrets - {BucketForKey(e.key)});
    assert e.Put? ==> HashKey(e.key) in EditData(e, DataOf(View(secrets), BucketForKey(e.key)));
  }

  lemma TickKeepsInv(s: State, d: nat)
    requires Inv(s)
    ensures Inv(Next(s, Tick(d)))
  {
    hide Sound, View, Flat, EditData;
    var s' := Next(s, Tick(d));
    forall k ensures ReadOk(Replay(s'.log), LastAsked(s'.log, k), k, s'.clock) {
      assert ReadOk(Replay(s.log), LastAsked(s.log, k), k, s.clock);
    }
    assert LocalOf(s', s'.holder) == LocalOf(s, s.holder);
  }

  lemma ElectKeepsInv(s: State, id: Str)
    requires Inv(s) && NoneBusy(s)
    ensures Inv(Next(s, Elect(id)))
  {
    hide Sound, View, Flat, EditData, ReadOk;
  }

  lemma BeginKeepsInv(s: State, n: Str, req: Request)
    requires Inv(s) && LocalOf(s, n).Idle?
    ensures Inv(Next(s, Begin(n, req)))
  {
    hide Sound, View, Flat, EditData, ReadOk, Committed;
    CommittedAppend(s.ended, Refused);
  }

  lemma BeginReapKeepsInv(s: State, n: Str, key: Str, snap: map<Str, DataItem>)
    requires Inv(s) && Enabled(s, BeginReap(n, key, snap), true)
    ensures Inv(Next(s, BeginReap(n, key, snap)))
  {
    hide Sound, View, Flat, ReadOk, Committed, DataOf;
  }

  lemma FetchKeepsInv(s: State, n: Str)
    requires Inv(s) && LocalOf(s, n).Checked?
    ensures Inv(Next(s, Fetch(n)))
  {
    hide Sound, View, Flat, ReadOk, Committed, DataOf;
    CommittedAppend(s.ended, Missing);
  }

  lemma DropKeepsInv(s: State, n: Str)
    requires Inv(s) && Enabled(s, Drop(n), true)
    ensures Inv(Next(s, Drop(n)))
  {
    hide Sound, View, Flat, ReadOk, Committed, DataOf;
    var w := LocalOf(s, n).w;
    DropCommits(s.secrets, w.edit);
    ReplayAppend(s.log, w);
    ReadsOkAppend(s, w);
  }

  lemma PatchReadyKeepsInv(s: State, n: Str)
    requires Inv(s) && LocalOf(s, n).Ready?
    ensures Inv(Next(s, Patch(n)))
  {
    hide Sound, View, Flat, ReadOk, Committed, DataOf, PatchedFor, EditData, Replay, BucketForKey, LastAsked, Expired;
    var w := LocalOf(s, n).w;
    CommittedAppend(s.ended, Acked(w));
    PatchCommits(s.secrets, w.edit, LocalOf(s, n).data);
    ReplayAppend(s.log, w);
    ReadsOkAppend(s, w);
  }

  lemma PatchEmptiedKeepsInv(s: State, n: Str)
    requires Inv(s) && LocalOf(s, n).Emptied?
    ensures Inv(Next(s, Patch(n)))
  {
    hide Sound, View, Flat, ReadOk, Committed, DataOf, PatchedFor, Replay, BucketForKey, LastAsked, Expired, HashKey;
    var w := LocalOf(s, n).w;
    CommittedAppend(s.ended, Acked(w));
    RemoveFromEmpty(w.edit);
    PatchCommits(s.secrets, w.edit, map[]);
    assert Flat(View(Next(s, Patch(n)).secrets)) == Replay(s.log);
  }

  lemma RemoveFromEmpty(e: Edit)
    ensures e.Remove? ==> EditData(e, map[]) == map[]
  {}

  lemma FailKeepsInv(s: State, n: Str)
    requires Inv(s) && !LocalOf(s, n).Idle?
    ensures Inv(Next(s, Fail(n)))
  {
    hide Sound, View, Flat, ReadOk, Committed, DataOf;
    CommittedAppend(s.ended, Broken(if LocalOf(s, n).Emptied? then [LocalOf(s, n).w] else []));
  }

  lemma StepKeepsInv(s: State, step: Step)
    requires Inv(s) && Enabled(s, step, true)
    ensures Inv(Next(s, step))
  {
    hide Inv, Next;
    match step
    case Tick(d) => TickKeepsInv(s, d);
    case Elect(id) => ElectKeepsInv(s, id);
    case Begin(n, req) => BeginKeepsInv(s, n, req);
    case BeginReap(n, key, snap) => BeginReapKeepsInv(s, n, key, snap);
    case Fetch(n) => FetchKeepsInv(s, n);
    case Drop(n) => DropKeepsInv(s, n);
    case Patch(n) =>
      if LocalOf(s, n).Ready? {
        PatchReadyKeepsInv(s, n);
      } else {
        PatchEmptiedKeepsInv(s, n);
      }
    case Fail(n) => FailKeepsInv(s, n);
  }

  lemma {:induction false} RunKeepsInv(s: State, steps: seq<Step>)
    requires Inv(s) && Legal(s, steps, true)
    ensures Inv(After(s, steps))
    decreases |steps|
  {
    hide Inv, Next;
    if steps != [] {
      StepKeepsInv(s, steps[0]);
      RunKeepsInv(Next(s, steps[0]), steps[1..]);
    }
  }

  lemma InitInv(holder: Str, clock: int)
    ensures Inv(Init(holder, clock))
  {}

  // ---------- What holds of every run ----------

  ghost predicate Reachable(s: State, holder: Str, clock: int, steps: seq<Step>) {
    Legal(Init(holder, clock), steps, true) && s == After(Init(holder, clock), steps)
  }

  lemma ReachableInv(s: State, holder: Str, clock: int, steps: seq<Step>)
    requires Reachable(s, holder, clock, steps)
    ensures Inv(s)
  {
    InitInv(holder, clock);
    RunKeepsInv(Init(holder, clock), steps);
  }

  // In every run the buckets stand for the flat map the committed writes make in
  // order. An acknowledged call is in that order once; a refused call is not in
  // it; of the failed calls only deletions that had emptied a bucket are.
  lemma RunRefinesFlatMap(s: State, holder: Str, clock: int, steps: seq<Step>)
    requires Reachable(s, holder, clock, steps)
    ensures Flat(View(s.secrets)) == Replay(s.log)
    ensures s.log == Committed(s.ended) + InFlight(s)
    ensures NoneBusy(s) ==> s.log == Committed(s.ended)
  {
    ReachableInv(s, holder, clock, steps);
  }

  // Each step is one atomic write to the flat map or leaves it as it is; the
  // second API call of an emptied bucket is such a stutter.
  lemma StepIsAtomic(s: State, step: Step)
    requires Inv(s) && Enabled(s, step, true)
    ensures var s', commits := Next(s, step), step.Drop? || (step.Patch? && LocalOf(s, step.node).Ready?);
            && s'.log == (if commits then s.log + [LocalOf(s, step.node).w] else s.log)
            && Flat(View(s'.secrets)) == (if commits then EditFlat(LocalOf(s, step.node).w.edit, Flat(View(s.secrets)))
                                          else Flat(View(s.secrets)))
  {
    hide Sound, View, Flat, EditData, ReadsOk, Committed, DataOf, PatchedFor, Replay;
    StepKeepsInv(s, step);
    if step.Drop? || (step.Patch? && LocalOf(s, step.node).Ready?) {
      ReplayAppend(s.log, LocalOf(s, step.node).w);
    }
  }

  // In every run, from now on, a read returns what the last asked-for write to
  // the key put, until that expires, whatever deferred deletes and writes to
  // other keys of the bucket took place.
  lemma ReadsReturnLastWrite(s: State, holder: Str, clock: int, steps: seq<Step>, k: Str, t: int)
    requires Reachable(s, holder, clock, steps) && s.clock <= t
    ensures Visible(Flat(View(s.secrets)), k, t) == Expected(LastAsked(s.log, k), t)
  {
    hide Sound, View, Flat, Replay, LastAsked;
    ReachableInv(s, holder, clock, steps);
    assert ReadOk(Replay(s.log), LastAsked(s.log, k), k, s.clock);
  }

  lemma {:induction false} RunGrows(s: State, steps: seq<Step>)
    ensures s.log <= After(s, steps).log && s.clock <= After(s, steps).clock
    decreases |steps|
  {
    hide View, PatchedFor, EditData, DataOf;
    if steps != [] {
      RunGrows(Next(s, steps[0]), steps[1..]);
    }
  }

  lemma {:induction false} LastAskedSuffix(log: seq<Write>, log': seq<Write>, k: Str)
    requires log <= log'
    requires forall i :: |log| <= i < |log'| && log'[i].asked && log'[i].edit.key == k ==> !log'[i].edit.Put?
    ensures LastAsked(log', k) == LastAsked(log, k) || (LastAsked(log', k).Some? && LastAsked(log', k).value.Remove?)
  {
    if log' == log {
    } else {
      LastAskedSuffix(log, log'[..|log'| - 1], k);
    }
  }

  // A key that reads as absent stays absent until some caller puts it again.
  lemma AbsentUntilPut(s: State, holder: Str, clock: int, before: seq<Step>, after: seq<Step>, k: Str, t: int)
    requires Reachable(s, holder, clock, before) && Legal(s, after, true)
    requires Visible(Flat(View(s.secrets)), k, s.clock) == None
    requires var log' := After(s, after).log;
             forall i :: |s.log| <= i < |log'| && log'[i].asked && log'[i].edit.key == k ==> !log'[i].edit.Put?
    requires After(s, after).clock <= t
    ensures Visible(Flat(View(After(s, after).secrets)), k, t) == None
  {
    hide Sound, View, Flat, Replay, LastAsked, Legal, After;
    ReachableInv(s, holder, clock, before);
    RunKeepsInv(s, after);
    RunGrows(s, after);
    var s' := After(s, after);
    LastAskedSuffix(s.log, s'.log, k);
    assert ReadOk(Replay(s.log), LastAsked(s.log, k), k, s.clock);
    assert ReadOk(Replay(s'.log), LastAsked(s'.log, k), k, s'.clock);
  }

  /** The steps of a put. */
  function PutSteps(n: Str, key: Str, value: Str, ttl: int): seq<Step> {
    [Begin(n, PutCall(key, value, ttl))] + ([Fetch(n)] + [Patch(n)])
  }

  /** The state after a put that nothing interrupts. */
  function AfterPut(s: State, n: Str, key: Str, value: Str, ttl: int): State {
    var w := Write(Put(key, value, ExpiryOf(ttl, s.clock)), true);
    var data := EditData(w.edit, DataOf(View(s.secrets), BucketForKey(key)));
    s.(secrets := PatchedFor(s.secrets, key, data), local := s.local[n := Idle],
       log := s.log + [w], ended := s.ended + [Acked(w)])
  }

  lemma PutRuns(s: State, n: Str, key: Str, value: Str, ttl: int, stable: bool)
    requires s.holder == n && LocalOf(s, n).Idle?
    ensures Legal(s, PutSteps(n, key, value, ttl), stable)
    ensures After(s, PutSteps(n, key, value, ttl)) == AfterPut(s, n, key, value, ttl)
  {
    hide BucketForKey, HashKey, View, PatchedFor, DataOf;
    var e := Put(key, value, ExpiryOf(ttl, s.clock));
    var data := EditData(e, DataOf(View(s.secrets), BucketForKey(key)));
    assert HashKey(key) in data;
    var s1 := s.(local := s.local[n := Checked(PutCall(key, value, ttl))]);
    var s2 := s.(local := s.local[n := Ready(Write(e, true), data)]);
    assert Next(s, Begin(n, PutCall(key, value, ttl))) == s1;
    assert Next(s1, Fetch(n)) == s2;
    assert Next(s2, Patch(n)) == AfterPut(s, n, key, value, ttl);
    Unroll(s2, Patch(n), [], stable);
    assert [Patch(n)] == [Patch(n)] + [];
    Unroll(s1, Fetch(n), [Patch(n)], stable);
    Unroll(s, Begin(n, PutCall(key, value, ttl)), [Fetch(n)] + [Patch(n)], stable);
  }

  lemma Unroll(s: State, step: Step, rest: seq<Step>, stable: bool)
    ensures After(s, [step] + rest) == After(Next(s, step), rest)
    ensures Legal(s, [step] + rest, stable) <==> Enabled(s, step, stable) && Legal(Next(s, step), rest, stable)
  {
    assert ([step] + rest)[1..] == rest;
  }

  /** The API calls that commit data as computed. */
  function CommitSteps(n: Str, data: map<Str, DataItem>): seq<Step> {
    if data == map[] then [Drop(n)] + [Patch(n)] else [Patch(n)]
  }

  lemma CommitAlone(s: State, n: Str, w: Write, data: map<Str, DataItem>)
    requires Sound(s.secrets) && LocalOf(s, n) == Ready(w, data)
    requires data == EditData(w.edit, DataOf(View(s.secrets), BucketForKey(w.edit.key)))
    ensures var s' := After(s, CommitSteps(n, data));
            && Legal(s, CommitSteps(n, data), true) && View(s'.secrets) == Edited(w.edit, View(s.secrets))
            && s'.log == s.log + [w] && s'.ended == s.ended + [Acked(w)] && LocalOf(s', n).Idle?
  {
    hide Flat, BucketForKey, HashKey, RawBucketForKey, WellFormed, AllOurs, View, Patched, EditData, DataOf;
    SoundMeans(s.secrets);
    var b, config := BucketForKey(w.edit.key), EditedBucket(w.edit, View(s.secrets));
    assert [Patch(n)] == [Patch(n)] + [];
    if data == map[] {
      var s1 := Next(s, Drop(n));
      DeleteDrops(s.secrets, b);
      PatchReplaces(s1.secrets, b, config);
      DropThenSet(View(s.secrets), b, config);
      Unroll(s1, Patch(n), [], true);
      Unroll(s, Drop(n), [Patch(n)], true);
    } else {
      PatchReplaces(s.secrets, b, config);
      Unroll(s, Patch(n), [], true);
    }
  }

  // A put, a deletion or a deferred delete that nothing interrupts has the effect
  // the storage interface promises of the call as a whole.
  lemma PutAlone(s: State, n: Str, key: Str, value: Str, ttl: int)
    requires Inv(s) && s.holder == n && LocalOf(s, n).Idle?
    ensures var e := Put(key, value, if ttl == 0 then Never else At(s.clock + ttl));
            var s' := After(s, PutSteps(n, key, value, ttl));
            && Legal(s, PutSteps(n, key, value, ttl), true)
            && View(s'.secrets) == Edited(e, View(s.secrets)) && s'.ended == s.ended + [Acked(Write(e, true))]
  {
    hide Flat, Replay, Committed, BucketForKey, HashKey, RawBucketForKey, WellFormed, AllOurs, View, Patched,
      Legal, After, PutSteps, ReadsOk;
    SoundMeans(s.secrets);
    PutRuns(s, n, key, value, ttl, true);
    var data := EditData(Put(key, value, ExpiryOf(ttl, s.clock)), DataOf(View(s.secrets), BucketForKey(key)));
    PatchReplaces(s.secrets, BucketForKey(key), Bucket(LabelsFor(RawBucketForKey(key)), data));
  }

  /** The steps of a deletion; an emptied bucket takes two API calls. */
  function DeleteSteps(n: Str, key: Str, left: map<Str, DataItem>): seq<Step> {
    [Begin(n, DeleteCall(key))] + ([Fetch(n)] + CommitSteps(n, left))
  }

  lemma DeleteAlone(s: State, n: Str, key: Str)
    requires Inv(s) && s.holder == n && LocalOf(s, n).Idle? && BucketForKey(key) in s.secrets
    ensures var steps := DeleteSteps(n, key, EditedBucket(Remove(key), View(s.secrets)).data);
            var s' := After(s, steps);
            && Legal(s, steps, true) && View(s'.secrets) == Edited(Remove(key), View(s.secrets))
            && Flat(View(s'.secrets)) == Flat(View(s.secrets)) - {key}
            && s'.ended == s.ended + [Acked(Write(Remove(key), true))]
  {
    hide Flat, Replay, Committed, BucketForKey, HashKey, View, WellFormed, EditData, ReadsOk, DataOf, CommitSteps,
         Sound;
    var data := EditedBucket(Remove(key), View(s.secrets)).data;
    var s1 := Next(s, Begin(n, DeleteCall(key)));
    var s2 := Next(s1, Fetch(n));
    CommitAlone(s2, n, Write(Remove(key), true), data);
    SoundMeans(s.secrets);
    EditRefines(Remove(key), View(s.secrets), Edited(Remove(key), View(s.secrets)));
    Unroll(s1, Fetch(n), CommitSteps(n, data), true);
    Unroll(s, Begin(n, DeleteCall(key)), [Fetch(n)] + CommitSteps(n, data), true);
  }

  lemma ReapAlone(s: State, n: Str, key: Str)
    requires Inv(s) && s.holder == n && LocalOf(s, n).Idle?
    requires var flat := Flat(View(s.secrets)); key in flat && flat[key].expiry.At? && flat[key].expiry.time < s.clock
    ensures var snap := DataOf(View(s.secrets), BucketForKey(key));
            var steps := [BeginReap(n, key, snap)] + CommitSteps(n, EditData(Remove(key), snap));
            var s' := After(s, steps);
            && Legal(s, steps, true) && View(s'.secrets) == Reaped(View(s.secrets), snap, key)
            && Flat(View(s'.secrets)) == Flat(View(s.secrets)) - {key}
            && s'.log == s.log + [Write(Remove(key), false)]
  {
    hide Flat, Replay, Committed, BucketForKey, HashKey, View, WellFormed, ReadsOk, CommitSteps, Sound, DataOf;
    var snap := DataOf(View(s.secrets), BucketForKey(key));
    var s1 := Next(s, BeginReap(n, key, snap));
    CommitAlone(s1, n, Write(Remove(key), false), EditData(Remove(key), snap));
    SoundMeans(s.secrets);
    EditRefines(Remove(key), View(s.secrets), Edited(Remove(key), View(s.secrets)));
    Unroll(s, BeginReap(n, key, snap), CommitSteps(n, EditData(Remove(key), snap)), true);
  }

  // When the second API call for an emptied bucket fails, the deletion reports a failure
  // although the key is gone, and the bucket with it.
  lemma DeleteLastFailsAfterCommit(s: State, n: Str, key: Str)
    requires Inv(s) && s.holder == n && LocalOf(s, n).Idle? && BucketForKey(key) in s.secrets
    requires EditedBucket(Remove(key), View(s.secrets)).data == map[]
    ensures var e, steps := Remove(key), [Begin(n, DeleteCall(key))] + ([Fetch(n)] + ([Drop(n)] + [Fail(n)]));
            && Legal(s, steps, true)
            && After(s, steps).secrets == s.secrets - {BucketForKey(key)}
            && Flat(View(After(s, steps).secrets)) == Flat(View(s.secrets)) - {key}
            && After(s, steps).ended == s.ended + [Broken([Write(e, true)])]
  {
    hide Flat, Replay, Committed, BucketForKey, HashKey, RawBucketForKey, WellFormed, AllOurs, View, Patched, EditData,
         ReadsOk, DataOf, PatchedFor;
    SoundMeans(s.secrets);
    var e := Remove(key);
    var s1 := Next(s, Begin(n, DeleteCall(key)));
    var s2 := Next(s1, Fetch(n));
    assert LocalOf(s2, n) == Ready(Write(e, true), map[]) && s2.secrets == s.secrets;
    var s3 := Next(s2, Drop(n));
    DropCommits(s.secrets, e);
    Unroll(s3, Fail(n), [], true);
    assert [Fail(n)] == [Fail(n)] + [];
    Unroll(s2, Drop(n), [Fail(n)], true);
    Unroll(s1, Fetch(n), [Drop(n)] + [Fail(n)], true);
    Unroll(s, Begin(n, DeleteCall(key)), [Fetch(n)] + ([Drop(n)] + [Fail(n)]), true);
  }

  /** Node `n` is in its call now and after each of the steps. */
  ghost predicate UnderWay(s: State, steps: seq<Step>, n: Str)
    decreases |steps|
  {
    !LocalOf(s, n).Idle? && (steps != [] ==> UnderWay(Next(s, steps[0]), steps[1..], n))
  }

  /** What a call on `key` has done so far to the content it began with. */
  ghost predicate SoFar(s: State, n: Str, key: Str, began: FlatMap) {
    match LocalOf(s, n)
    case Idle => false
    case Checked(req) => req.key == key && Flat(View(s.secrets)) == began
    case Ready(w, _) => w.edit.key == key && Flat(View(s.secrets)) == began
    case Emptied(w) => w.edit.key == key && Flat(View(s.secrets)) == began - {key}
  }

  lemma StepKeepsSoFar(s: State, step: Step, n: Str, key: Str, began: FlatMap)
    requires Inv(s) && Enabled(s, step, true) && SoFar(s, n, key, began)
    requires !LocalOf(Next(s, step), n).Idle?
    ensures SoFar(Next(s, step), n, key, began)
  {
    hide Sound, View, Flat, EditData, ReadsOk, Committed, DataOf, PatchedFor, Replay, BucketForKey;
    assert n == s.holder;
    StepIsAtomic(s, step);
    if step.Drop? {
      DropCommits(s.secrets, LocalOf(s, step.node).w.edit);
    }
  }

  lemma {:induction false} RunKeepsSoFar(s: State, steps: seq<Step>, n: Str, key: Str, began: FlatMap)
    requires Inv(s) && Legal(s, steps, true) && UnderWay(s, steps, n) && SoFar(s, n, key, began)
    ensures Inv(After(s, steps)) && SoFar(After(s, steps), n, key, began)
    decreases |steps|
  {
    hide Inv, Next, SoFar, Enabled;
    if steps != [] {
      StepKeepsInv(s, steps[0]);
      StepKeepsSoFar(s, steps[0], n, key, began);
      RunKeepsSoFar(Next(s, steps[0]), steps[1..], n, key, began);
    }
  }

  // A call that fails has changed the content since it began exactly when it had
  // dropped an emptied bucket and its key was stored.
  lemma FailedCallChangedIff(s: State, n: Str, req: Request, steps: seq<Step>)
    requires Inv(s) && s.holder == n && LocalOf(s, n).Idle?
    requires var s1 := Next(s, Begin(n, req)); Legal(s1, steps, true) && UnderWay(s1, steps, n)
    ensures var failing := After(Next(s, Begin(n, req)), steps);
            var failed := Next(failing, Fail(n));
            && Enabled(failing, Fail(n), true)
            && (Flat(View(failed.secrets)) != Flat(View(s.secrets))
                <==> LocalOf(failing, n).Emptied? && req.key in Flat(View(s.secrets)))
  {
    hide Sound, View, Flat, EditData, ReadsOk, Committed, DataOf, PatchedFor, Replay, BucketForKey, After, Legal,
         UnderWay;
    StepKeepsInv(s, Begin(n, req));
    RunKeepsSoFar(Next(s, Begin(n, req)), steps, n, req.key, Flat(View(s.secrets)));
    var flat := Flat(View(s.secrets));
    assert req.key in flat ==> req.key !in flat - {req.key};
    assert req.key !in flat ==> flat - {req.key} == flat;
  }

  // ---------- Calls in a run ----------

  function StateAt(s: State, run: seq<Step>, i: nat): State
    requires i <= |run|
  {
    After(s, run[..i])
  }

  lemma {:induction false} StepAt(s: State, run: seq<Step>, i: nat, stable: bool)
    requires i < |run|
    ensures StateAt(s, run, i + 1) == Next(StateAt(s, run, i), run[i])
    ensures Legal(s, run, stable) ==> Enabled(StateAt(s, run, i), run[i], stable)
    decreases i
  {
    hide Next, Enabled;
    if i == 0 {
      assert run[..0] == [] && run[..1] == [run[0]] + [];
      Unroll(s, run[0], [], stable);
    } else {
      StepAt(Next(s, run[0]), run[1..], i - 1, stable);
      assert run[..i][1..] == run[1..][..i - 1] && run[..i + 1][1..] == run[1..][..i];
    }
  }

  predicate ByNode(step: Step, n: Str) {
    match step
    case Tick(_) => false
    case Elect(_) => false
    case _ => step.node == n
  }

  /** Node `n` makes no step from `i` until `j`. */
  ghost predicate Quiet(run: seq<Step>, i: nat, j: nat, n: Str)
    requires j <= |run|
  {
    forall m :: i <= m < j ==> !ByNode(run[m], n)
  }

  lemma OtherNodeKeepsLocal(s: State, step: Step, n: Str)
    requires !ByNode(step, n)
    ensures LocalOf(Next(s, step), n) == LocalOf(s, n)
  {
    hide View, EditData, DataOf, PatchedFor, BucketForKey;
  }

  lemma {:induction false} QuietKeepsLocal(s: State, run: seq<Step>, i: nat, j: nat, n: Str)
    requires i <= j <= |run| && Quiet(run, i, j, n)
    ensures LocalOf(StateAt(s, run, j), n) == LocalOf(StateAt(s, run, i), n)
    decreases j - i
  {
    hide Next, After;
    if i < j {
      QuietKeepsLocal(s, run, i, j - 1, n);
      StepAt(s, run, j - 1, false);
      OtherNodeKeepsLocal(StateAt(s, run, j - 1), run[j - 1], n);
    }
  }

  /** The edit that a request read at a time asks for. */
  predicate Answers(e: Edit, req: Request, fetched: int) {
    match req
    case PutCall(k, v, ttl) => e == Put(k, v, if ttl == 0 then Never else At(fetched + ttl))
    case DeleteCall(k) => e == Remove(k)
  }

  /** A request begun at `b` whose bucket is read at `f`. */
  ghost predicate IsCall(run: seq<Step>, b: nat, f: nat, n: Str, req: Request) {
    && b < f < |run| && run[b] == Begin(n, req) && run[f] == Fetch(n) && Quiet(run, b + 1, f, n)
  }

  // In every run, whatever happens meanwhile, a call ends as missing its key
  // exactly when it is a deletion and finds no bucket; any other call goes on to
  // write the edit asked for, computed from the bucket as read.
  lemma FetchAnswers(s: State, run: seq<Step>, b: nat, f: nat, n: Str, req: Request, stable: bool)
    requires Legal(s, run, stable) && IsCall(run, b, f, n, req)
    ensures var at, next := StateAt(s, run, f), StateAt(s, run, f + 1);
            var missing := req.DeleteCall? && BucketForKey(req.key) !in at.secrets;
            && (next.ended == at.ended + [Missing] <==> missing)
            && next.secrets == at.secrets && next.log == at.log
            && if missing then LocalOf(next, n).Idle?
               else && LocalOf(next, n).Ready? && LocalOf(next, n).w.asked && next.ended == at.ended
                    && Answers(LocalOf(next, n).w.edit, req, at.clock)
                    && LocalOf(next, n).data
                       == EditData(LocalOf(next, n).w.edit, DataOf(View(at.secrets), BucketForKey(req.key)))
  {
    hide View, EditData, DataOf, PatchedFor, After, Legal, BucketForKey;
    StepAt(s, run, b, stable);
    QuietKeepsLocal(s, run, b + 1, f, n);
    StepAt(s, run, f, stable);
    assert |StateAt(s, run, f).ended + [Missing]| > |StateAt(s, run, f).ended|;
  }

  // And what it commits at `c`, in its one or first API call that writes, is that
  // edit, which the last call acknowledges.
  lemma CommitAnswers(s: State, run: seq<Step>, b: nat, f: nat, c: nat, n: Str, req: Request, stable: bool)
    requires Legal(s, run, stable) && IsCall(run, b, f, n, req)
    requires f < c < |run| && (run[c] == Drop(n) || run[c] == Patch(n)) && Quiet(run, f + 1, c, n)
    ensures var at, next := StateAt(s, run, c), StateAt(s, run, c + 1);
            && next.log != [] && next.log == at.log + [next.log[|next.log| - 1]]
            && var w := next.log[|next.log| - 1];
               && w.asked && Answers(w.edit, req, StateAt(s, run, f).clock)
               && (run[c].Drop? ==> LocalOf(next, n) == Emptied(w) && next.ended == at.ended)
               && (run[c].Patch? ==> LocalOf(next, n) == Idle && next.ended == at.ended + [Acked(w)])
  {
    hide View, EditData, DataOf, PatchedFor, After, Legal, BucketForKey, Answers;
    FetchAnswers(s, run, b, f, n, req, stable);
    QuietKeepsLocal(s, run, f + 1, c, n);
    StepAt(s, run, c, stable);
  }

  // The second API call for an emptied bucket commits nothing more.
  lemma SecondCallAnswers(s: State, run: seq<Step>, c: nat, d: nat, n: Str, w: Write, stable: bool)
    requires Legal(s, run, stable) && c <= d < |run| && Quiet(run, c, d, n)
    requires LocalOf(StateAt(s, run, c), n) == Emptied(w) && ByNode(run[d], n)
    ensures var at, next := StateAt(s, run, d), StateAt(s, run, d + 1);
            && next.log == at.log && LocalOf(next, n).Idle?
            && next.ended == at.ended + [if run[d] == Patch(n) then Acked(w) else Broken([w])]
  {
    hide View, EditData, DataOf, PatchedFor, After, Legal, BucketForKey;
    QuietKeepsLocal(s, run, c, d, n);
    StepAt(s, run, d, stable);
  }

  lemma {:induction false} LastAskedKept(log: seq<Write>, log': seq<Write>, k: Str)
    requires log <= log'
    requires forall i :: |log| <= i < |log'| ==> !(log'[i].asked && log'[i].edit.key == k)
    ensures LastAsked(log', k) == LastAsked(log, k)
  {
    if log' != log {
      LastAskedKept(log, log'[..|log'| - 1], k);
    }
  }

  lemma {:induction false} RunConcat(s: State, first: seq<Step>, second: seq<Step>, stable: bool)
    ensures After(s, first + second) == After(After(s, first), second)
    ensures Legal(s, first + second, stable) <==> Legal(s, first, stable) && Legal(After(s, first), second, stable)
    decreases |first|
  {
    hide Next, Enabled;
    if first == [] {
      assert first + second == second;
    } else {
      RunConcat(Next(s, first[0]), first[1..], second, stable);
      assert (first + second)[1..] == first[1..] + second;
    }
  }

  /** No caller's write to the key is committed after step `c` of the run. */
  ghost predicate NoneAfter(s: State, run: seq<Step>, c: nat, k: Str)
    requires c < |run|
  {
    var log, log' := StateAt(s, run, c + 1).log, After(s, run).log;
    forall i :: |log| <= i < |log'| ==> !(log'[i].asked && log'[i].edit.key == k)
  }

  // So a request answered by a write stays the last asked-for one for its key
  // until another is committed.
  lemma AnswerIsLastAsked(s: State, run: seq<Step>, b: nat, f: nat, c: nat, n: Str, req: Request, stable: bool)
    requires Legal(s, run, stable) && IsCall(run, b, f, n, req)
    requires f < c < |run| && (run[c] == Drop(n) || run[c] == Patch(n)) && Quiet(run, f + 1, c, n)
    requires NoneAfter(s, run, c, req.key)
    ensures var last := LastAsked(After(s, run).log, req.key);
            last.Some? && Answers(last.value, req, StateAt(s, run, f).clock)
  {
    hide After, Legal, Next, Enabled, Quiet;
    CommitAnswers(s, run, b, f, c, n, req, stable);
    assert run == run[..c + 1] + run[c + 1..];
    RunConcat(s, run[..c + 1], run[c + 1..], stable);
    RunGrows(StateAt(s, run, c + 1), run[c + 1..]);
    LastAskedKept(StateAt(s, run, c + 1).log, After(s, run).log, req.key);
  }
}
