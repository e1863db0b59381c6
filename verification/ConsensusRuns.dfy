/**
  Runs of consensus operations by any number of nodes over one peer store, while
  the lease moves freely. Each event has the effect that the contract of the
  method of module Consensus states.
 */
module ConsensusRuns {
  import opened Text
  import opened Kube
  import opened Peers
  import Storage

  datatype Node = Node(isObserver: bool, started: bool, self: Option<Peer>)

  datatype State = State(peers: PeerMap, holder: Str, nodes: map<Str, Node>)

  datatype Event =
    | Elect(holder: Str)
    | Start(node: Str)
    | AddVoter(node: Str, peer: Peer)
    | AddObserver(node: Str, peer: Peer)
    | DemoteVoter(node: Str, id: Str)
    | RemovePeer(node: Str, id: Str)
    | GetLeader(node: Str, order: seq<Str>)
    | Bootstrap(node: Str, address: Str)

  ghost predicate Enabled(s: State, e: Event) {
    e.Elect? || (e.node in s.nodes && (e.GetLeader? ==> IsOrder(e.order, s.peers.Keys)))
  }

  ghost predicate Succeeds(s: State, e: Event) {
    e.Bootstrap? && e.node in s.nodes && Bootstraps(s.nodes[e.node].isObserver, s.nodes[e.node].started, s.peers)
  }

  ghost function Next(sha1: Hash, s: State, e: Event): State
    requires Enabled(s, e)
  {
    match e
    case Elect(id) => s.(holder := id)
    case Start(n) => s.(nodes := s.nodes[n := s.nodes[n].(started := true)])
    case AddVoter(n, p) => s.(peers := WithVoter(sha1, s.nodes[n].isObserver, s.peers, p))
    case AddObserver(n, p) => s.(peers := WithObserver(sha1, s.nodes[n].isObserver, n, s.peers, p))
    case DemoteVoter(n, id) => s.(peers := Demoted(sha1, s.nodes[n].isObserver, s.peers, id))
    case RemovePeer(n, id) => s.(peers := Without(sha1, s.nodes[n].isObserver, s.peers, id))
    case GetLeader(n, order) =>
      var node := s.nodes[n];
      var self' := FindLeader(node.isObserver, n, s.holder, node.self, InOrder(order, s.peers)).1;
      s.(nodes := s.nodes[n := node.(self := self')])
    case Bootstrap(n, address) =>
      s.(peers := Bootstrapped(sha1, s.nodes[n].isObserver, s.nodes[n].started, s.peers, n, address))
  }

  /** A run from a store without peers and nodes without a cached self. */
  ghost predicate IsRun(sha1: Hash, states: seq<State>, events: seq<Event>) {
    && |states| == |events| + 1
    && states[0].peers == map[]
    && (forall n :: n in states[0].nodes ==> states[0].nodes[n].self == None)
    && forall i :: 0 <= i < |events| ==> IsStep(sha1, states[i], events[i], states[i + 1])
  }

  ghost predicate IsStep(sha1: Hash, s: State, e: Event, s': State) {
    Enabled(s, e) && s' == Next(sha1, s, e)
  }

  /** No record says leader, every record is under its hash, and a cached self is
      the node's own and kept by voters only. */
  ghost predicate Inv(sha1: Hash, s: State) {
    && Registered(sha1, s.peers)
    && forall n :: n in s.nodes ==> SelfOk(n, s.nodes[n])
  }

  predicate SelfOk(n: Str, node: Node) {
    node.self.Some? ==> node.self.value.id == n && !node.isObserver
  }

  lemma StepKeepsInv(sha1: Hash, s: State, e: Event)
    requires Inv(sha1, s) && Enabled(s, e)
    ensures Inv(sha1, Next(sha1, s, e))
  {
    if e.GetLeader? {
      var node := s.nodes[e.node];
      ListedIds(sha1, s.peers, e.order, s.holder);
      ScanFinds(node.isObserver, e.node, s.holder, node.self, InOrder(e.order, s.peers));
    }
  }

  lemma {:induction false} RunKeepsInv(sha1: Hash, states: seq<State>, events: seq<Event>, k: nat)
    requires IsRun(sha1, states, events) && k < |states|
    ensures Inv(sha1, states[k])
  {
    hide Next, Inv;
    if k == 0 {
      InitInv(sha1, states[0]);
    } else {
      RunKeepsInv(sha1, states, events, k - 1);
      assert IsStep(sha1, states[k - 1], events[k - 1], states[k]);
      StepKeepsInv(sha1, states[k - 1], events[k - 1]);
    }
  }

  lemma InitInv(sha1: Hash, s: State)
    requires s.peers == map[] && forall n :: n in s.nodes ==> s.nodes[n].self == None
    ensures Inv(sha1, s)
  {}

  // On a voter, in any reachable state and for any list order, the leader is the
  // stored record of the lease's holder, shown as leader when that is another node,
  // or this node's record as cached when it leads; and there is none exactly when
  // there is neither.
  lemma VoterFindsHolder(sha1: Hash, states: seq<State>, events: seq<Event>, k: nat, n: Str, order: seq<Str>)
    requires Injective(sha1) && IsRun(sha1, states, events) && k < |states|
    requires n in states[k].nodes && !states[k].nodes[n].isObserver && IsOrder(order, states[k].peers.Keys)
    ensures var s := states[k];
            var found := FindLeader(false, n, s.holder, s.nodes[n].self, InOrder(order, s.peers)).0;
            && (found.Some? ==> found.value.id == s.holder)
            && (found.Some? <==> sha1(s.holder) in s.peers || (s.holder == n && s.nodes[n].self.Some?))
            && found == if s.holder == n && s.nodes[n].self.Some? then s.nodes[n].self
                        else if sha1(s.holder) !in s.peers then None
                        else var p := s.peers[sha1(s.holder)];
                             Some(Peer(s.holder, p.address, if s.holder == n then p.status else ClusterLeader))
  {
    RunKeepsInv(sha1, states, events, k);
    VoterFindsHolderIn(sha1, states[k], n, order);
  }

  lemma VoterFindsHolderIn(sha1: Hash, s: State, n: Str, order: seq<Str>)
    requires Injective(sha1) && Inv(sha1, s) && n in s.nodes && IsOrder(order, s.peers.Keys)
    ensures var found := FindLeader(false, n, s.holder, s.nodes[n].self, InOrder(order, s.peers)).0;
            found == if s.holder == n && s.nodes[n].self.Some? then s.nodes[n].self
                     else if sha1(s.holder) !in s.peers then None
                     else var p := s.peers[sha1(s.holder)];
                          Some(Peer(s.holder, p.address, if s.holder == n then p.status else ClusterLeader))
  {
    hide Injective, ScanForLeader;
    var list := InOrder(order, s.peers);
    ListedIds(sha1, s.peers, order, s.holder);
    ScanFinds(false, n, s.holder, s.nodes[n].self, list);
    if sha1(s.holder) in s.peers {
      assert sha1(s.holder) in order;
      var i :| 0 <= i < |order| && order[i] == sha1(s.holder);
      assert list[i].id == s.holder;
      assert forall j :: 0 <= j < i ==> list[j].id != list[i].id;
    }
  }

  // A cached self is the node's record as stored when its first GetLeader found the
  // node leading and registered; nothing replaces it afterwards.
  lemma {:induction false} CachedSelfIsFirst(sha1: Hash, states: seq<State>, events: seq<Event>, k: nat, n: Str)
    returns (m: nat)
    requires Injective(sha1) && IsRun(sha1, states, events) && k < |states|
    requires n in states[k].nodes && states[k].nodes[n].self.Some?
    ensures m < k && events[m].GetLeader? && events[m].node == n && n in states[m].nodes
    ensures states[m].holder == n && states[m].nodes[n].self == None
    ensures sha1(n) in states[m].peers && states[k].nodes[n].self == Some(states[m].peers[sha1(n)])
  {
    hide Inv, Injective, FindLeader;
    assert k > 0;
    var s, e := states[k - 1], events[k - 1];
    assert IsStep(sha1, s, e, states[k]);
    RunKeepsInv(sha1, states, events, k - 1);
    if s.nodes[n].self.Some? {
      m := CachedSelfIsFirst(sha1, states, events, k - 1, n);
      if e.GetLeader? && e.node == n {
        SelfAfterGetLeader(sha1, s, n, e.order);
      }
    } else {
      m := k - 1;
      SelfAfterGetLeader(sha1, s, n, e.order);
    }
  }

  lemma SelfAfterGetLeader(sha1: Hash, s: State, n: Str, order: seq<Str>)
    requires Injective(sha1) && Inv(sha1, s) && n in s.nodes && IsOrder(order, s.peers.Keys)
    ensures var node := s.nodes[n];
            FindLeader(node.isObserver, n, s.holder, node.self, InOrder(order, s.peers)).1
            == if node.self.None? && !node.isObserver && s.holder == n && sha1(n) in s.peers
               then Some(s.peers[sha1(n)]) else node.self
  {
    hide Injective, ScanForLeader;
    var node, list := s.nodes[n], InOrder(order, s.peers);
    ListedIds(sha1, s.peers, order, s.holder);
    ScanFinds(node.isObserver, n, s.holder, node.self, list);
    if !node.isObserver {
      VoterFindsHolderIn(sha1, s, n, order);
    }
  }

  // So the leader found can be out of date: after the node's record is changed,
  // it still answers with the record cached before.
  lemma CachedSelfIsStale(sha1: Hash, n: Str, a: Str, a': Str) returns (states: seq<State>, events: seq<Event>)
    ensures IsRun(sha1, states, events) && |states| == 4
    ensures var s := states[3];
            && s.holder == n && n in s.nodes && s.peers == map[sha1(n) := Peer(n, a', ClusterVoter)]
            && FindLeader(false, n, n, s.nodes[n].self, InOrder([sha1(n)], s.peers)).0 == Some(Peer(n, a, ClusterVoter))
  {
    var h, p := sha1(n), Peer(n, a, ClusterVoter);
    var node := Node(false, true, None);
    var s0 := State(map[], n, map[n := node]);
    var s1 := s0.(peers := map[h := p]);
    var s2 := s1.(nodes := map[n := node.(self := Some(p))]);
    var s3 := s2.(peers := map[h := Peer(n, a', ClusterVoter)]);
    events := [Bootstrap(n, a), GetLeader(n, [h]), AddVoter(n, Peer(n, a', ClusterNode))];
    states := [s0, s1, s2, s3];
    assert IsStep(sha1, s0, events[0], s1);
    assert InOrder([h], s1.peers) == [p];
    assert IsStep(sha1, s1, events[1], s2);
    assert IsStep(sha1, s2, events[2], s3);
  }

  // An observer finds the first voter in list order, or none when there is none.
  lemma ObserverFindsFirstVoter(sha1: Hash, states: seq<State>, events: seq<Event>, k: nat, n: Str, order: seq<Str>)
    requires IsRun(sha1, states, events) && k < |states|
    requires n in states[k].nodes && states[k].nodes[n].isObserver && IsOrder(order, states[k].peers.Keys)
    ensures var s := states[k];
            var list := InOrder(order, s.peers);
            var found := FindLeader(true, n, s.holder, s.nodes[n].self, list).0;
            && (found.None? <==> forall m :: m in s.peers ==> !s.peers[m].status.ClusterVoter?)
            && (found.Some? ==> exists i :: 0 <= i < |list| && list[i] == found.value && IsFirstVoter(list, i))
  {
    var s := states[k];
    RunKeepsInv(sha1, states, events, k);
    ListedIds(sha1, s.peers, order, s.holder);
    ScanFinds(true, n, s.holder, s.nodes[n].self, InOrder(order, s.peers));
    forall i | 0 <= i < |order| ensures order[i] in s.peers {
      assert order[i] in order;
    }
    forall m | m in s.peers ensures exists i :: 0 <= i < |order| && order[i] == m {
      assert m in order;
    }
  }

  // ---------- Lease and start ----------

  // The holder is the one last elected.
  lemma {:induction false} HolderIsLastElected(sha1: Hash, states: seq<State>, events: seq<Event>, m: nat, k: nat)
    requires IsRun(sha1, states, events) && m < k < |states|
    requires events[m].Elect? && forall i :: m < i < k ==> !events[i].Elect?
    ensures states[k].holder == events[m].holder
  {
    assert IsStep(sha1, states[k - 1], events[k - 1], states[k]);
    if m < k - 1 {
      HolderIsLastElected(sha1, states, events, m, k - 1);
    }
  }

  // A node is started exactly when it was from the beginning or has been since.
  lemma {:induction false} StartedIff(sha1: Hash, states: seq<State>, events: seq<Event>, k: nat, n: Str)
    requires IsRun(sha1, states, events) && k < |states|
    ensures n in states[k].nodes <==> n in states[0].nodes
    ensures n in states[k].nodes ==>
              (states[k].nodes[n].started
               <==> states[0].nodes[n].started || exists i :: 0 <= i < k && events[i] == Start(n))
  {
    if k > 0 {
      StartedIff(sha1, states, events, k - 1, n);
      assert IsStep(sha1, states[k - 1], events[k - 1], states[k]);
    }
  }

  // ---------- Records ----------

  function RecordOf(sha1: Hash, s: State, id: Str): Option<Peer> {
    if sha1(id) in s.peers then Some(s.peers[sha1(id)]) else None
  }

  /** The event is a permitted call on the record of an ID. */
  predicate Touches(s: State, e: Event, id: Str) {
    !e.Elect? && e.node in s.nodes
    && match e
       case AddVoter(n, p) => p.id == id && !s.nodes[n].isObserver
       case AddObserver(n, p) => p.id == id && (s.nodes[n].isObserver ==> id == n)
       case DemoteVoter(n, id') => id' == id && !s.nodes[n].isObserver
       case RemovePeer(n, id') => id' == id && !s.nodes[n].isObserver
       case Bootstrap(n, _) => n == id && s.nodes[n].started && !s.nodes[n].isObserver && s.peers == map[]
       case _ => false
  }

  /** What such a call leaves. */
  function Left(before: Option<Peer>, e: Event): Option<Peer> {
    match e
    case AddVoter(_, p) => Some(Peer(p.id, p.address, ClusterVoter))
    case AddObserver(_, p) => Some(Peer(p.id, p.address, ClusterObserver))
    case DemoteVoter(_, _) => if before.Some? then Some(Peer(before.value.id, before.value.address, ClusterObserver))
                              else None
    case RemovePeer(_, _) => None
    case Bootstrap(n, address) => Some(Peer(n, address, ClusterVoter))
    case _ => before
  }

  lemma RecordAfterStep(sha1: Hash, s: State, e: Event, id: Str)
    requires Injective(sha1) && Enabled(s, e)
    ensures RecordOf(sha1, Next(sha1, s, e), id)
            == if Touches(s, e, id) then Left(RecordOf(sha1, s, id), e) else RecordOf(sha1, s, id)
  {}

  // In every run the record of an ID is what the last permitted call on it left;
  // before any such call there is none.
  lemma RecordIsLastWrite(sha1: Hash, states: seq<State>, events: seq<Event>, m: nat, k: nat, id: Str)
    requires Injective(sha1) && IsRun(sha1, states, events) && m < k < |states|
    requires Touches(states[m], events[m], id) && Untouched(states, events, m + 1, k, id)
    ensures RecordOf(sha1, states[k], id) == Left(RecordOf(sha1, states[m], id), events[m])
  {
    hide Next, Touches, Left, Injective, RecordOf, Untouched;
    assert IsStep(sha1, states[m], events[m], states[m + 1]);
    RecordAfterStep(sha1, states[m], events[m], id);
    UntouchedIsKept(sha1, states, events, m + 1, k, id);
  }

  ghost predicate Untouched(states: seq<State>, events: seq<Event>, i: nat, k: nat, id: Str)
    requires k <= |states| && k <= |events|
  {
    forall j :: i <= j < k ==> !Touches(states[j], events[j], id)
  }

  lemma {:induction false} UntouchedIsKept(sha1: Hash, states: seq<State>, events: seq<Event>, i: nat, k: nat, id: Str)
    requires Injective(sha1) && IsRun(sha1, states, events) && i <= k < |states|
    requires Untouched(states, events, i, k, id)
    ensures RecordOf(sha1, states[k], id) == RecordOf(sha1, states[i], id)
  {
    hide Next, Touches, Left, Injective, RecordOf;
    if i < k {
      UntouchedIsKept(sha1, states, events, i, k - 1, id);
      assert IsStep(sha1, states[k - 1], events[k - 1], states[k]);
      RecordAfterStep(sha1, states[k - 1], events[k - 1], id);
    }
  }

  lemma NoneBeforeFirstWrite(sha1: Hash, states: seq<State>, events: seq<Event>, k: nat, id: Str)
    requires Injective(sha1) && IsRun(sha1, states, events) && k < |states|
    requires Untouched(states, events, 0, k, id)
    ensures RecordOf(sha1, states[k], id) == None
  {
    hide Injective, IsStep, Untouched;
    UntouchedIsKept(sha1, states, events, 0, k, id);
  }

  // An observer's calls leave every record as it is, except that they can make
  // its own an observer's; they remove none.
  lemma ObserverTouchesOnlyItself(sha1: Hash, s: State, e: Event)
    requires Enabled(s, e) && !e.Elect? && s.nodes[e.node].isObserver
    ensures var s' := Next(sha1, s, e);
            || s'.peers == s.peers
            || (e.AddObserver? && e.peer.id == e.node
                && s'.peers == s.peers[sha1(e.node) := e.peer.(status := ClusterObserver)])
  {}

  /** What Status reports field by field. */
  ghost predicate StatusSays(sha1: Hash, s: State, n: Str, address: Str, list: seq<Peer>, report: Option<Report>)
    requires n in s.nodes
  {
    var node, me := s.nodes[n], [Peer(n, address, ClusterNode)];
    && (!node.started ==> report == Some(Report(false, ClusterNode, me, ErrClosed)))
    && (node.started && sha1(n) !in s.peers ==> report == Some(Report(false, ClusterNode, me, ErrNotVoter)))
    && (node.started && sha1(n) in s.peers && !node.isObserver ==>
          && report.Some? && report.value.status == (if s.holder == n then ClusterLeader else ClusterVoter)
          && report.value.message == NoMessage && |report.value.peers| == |list|
          && forall i :: 0 <= i < |list| ==>
               var p := list[i];
               report.value.peers[i]
               == Peer(p.id, p.address, if p.id == n && s.holder == n then ClusterLeader else p.status))
  }

  /** Status panics exactly on started observers that are registered, and otherwise
      reports writable exactly when the node is started, registered and leads. Then
      it lists itself, and nobody else, as leader, GetLeader returns it, and no write
      is refused for leadership; otherwise it lists no leader. */
  ghost predicate StatusAgrees(sha1: Hash, s: State, n: Str, list: seq<Peer>, report: Option<Report>)
    requires n in s.nodes
  {
    var node := s.nodes[n];
    && (report.None? <==> node.started && node.isObserver && sha1(n) in s.peers)
    && (report.Some? ==> (report.value.isWritable <==> node.started && sha1(n) in s.peers && s.holder == n))
    && (report.Some? && report.value.isWritable ==>
          && (exists i :: IsOnlyLeader(report.value.peers, i) && report.value.peers[i].id == n)
          && (var found := FindLeader(false, n, s.holder, node.self, list).0; found.Some? && found.value.id == n))
    && (report.Some? && !report.value.isWritable ==>
          forall i :: 0 <= i < |report.value.peers| ==> !report.value.peers[i].status.ClusterLeader?)
    && (node.started && !node.isObserver && sha1(n) in s.peers ==>
          (report.value.isWritable <==> Storage.WriteRefusal(true, s.holder, n) != Some(Storage.NotLeader)))
  }

  lemma StatusInState(sha1: Hash, s: State, n: Str, address: Str, order: seq<Str>)
    requires Injective(sha1) && Inv(sha1, s) && n in s.nodes && IsOrder(order, s.peers.Keys)
    ensures var node, list := s.nodes[n], InOrder(order, s.peers);
            var report := StatusOf(n, address, node.isObserver, node.started, s.holder, list);
            StatusAgrees(sha1, s, n, list, report) && StatusSays(sha1, s, n, address, list, report)
  {
    hide Injective, ScanForLeader, Registered;
    var node, list := s.nodes[n], InOrder(order, s.peers);
    ListedIds(sha1, s.peers, order, n);
    if node.started && !node.isObserver && HasPeer(list, n) {
      ScanFinds(false, n, s.holder, node.self, list);
      if s.holder == n {
        var i :| 0 <= i < |list| && list[i].id == n;
        assert IsOnlyLeader(Shown(list, n, true), i);
      }
    }
  }

  // So it is in every run, on every node and for any list order.
  lemma StatusAgreesWithLease(sha1: Hash, states: seq<State>, events: seq<Event>, k: nat, n: Str, address: Str,
      order: seq<Str>)
    requires Injective(sha1) && IsRun(sha1, states, events) && k < |states|
    requires n in states[k].nodes && IsOrder(order, states[k].peers.Keys)
    ensures var s := states[k];
            var node, list := s.nodes[n], InOrder(order, s.peers);
            var report := StatusOf(n, address, node.isObserver, node.started, s.holder, list);
            StatusAgrees(sha1, s, n, list, report) && StatusSays(sha1, s, n, address, list, report)
  {
    hide StatusAgrees, StatusSays, StatusOf, Inv, Injective;
    RunKeepsInv(sha1, states, events, k);
    StatusInState(sha1, states[k], n, address, order);
  }

  ghost predicate IsOnlyLeader(list: seq<Peer>, i: int) {
    && 0 <= i < |list| && list[i].status.ClusterLeader?
    && forall j :: 0 <= j < |list| && j != i ==> !list[j].status.ClusterLeader?
  }

  // The store is emptied only by RemovePeer.
  lemma {:induction false} EmptiedByRemoval(sha1: Hash, states: seq<State>, events: seq<Event>, i: nat, j: nat)
    returns (m: nat)
    requires IsRun(sha1, states, events) && i <= j < |states|
    requires states[i].peers != map[] && states[j].peers == map[]
    ensures i <= m < j && events[m].RemovePeer? && states[m].peers != map[] && states[m + 1].peers == map[]
    decreases j - i
  {
    assert i < j;
    assert IsStep(sha1, states[i], events[i], states[i + 1]);
    if states[i + 1].peers == map[] {
      m := i;
      NonEmptyAfter(sha1, states[i], events[i]);
    } else {
      m := EmptiedByRemoval(sha1, states, events, i + 1, j);
    }
  }

  lemma NonEmptyAfter(sha1: Hash, s: State, e: Event)
    requires Enabled(s, e) && s.peers != map[]
    ensures e.RemovePeer? || Next(sha1, s, e).peers != map[]
  {
    var peers := Next(sha1, s, e).peers;
    match e
    case AddVoter(_, p) => assert peers == s.peers || sha1(p.id) in peers;
    case AddObserver(_, p) => assert peers == s.peers || sha1(p.id) in peers;
    case DemoteVoter(_, id) => assert peers == s.peers || sha1(id) in peers;
    case _ =>
  }

  // Between two successful bootstraps the peer set was emptied by RemovePeer.
  lemma BootstrapsAreSeparated(sha1: Hash, states: seq<State>, events: seq<Event>, i: nat, j: nat) returns (m: nat)
    requires IsRun(sha1, states, events) && i < j < |events|
    requires Succeeds(states[i], events[i]) && Succeeds(states[j], events[j])
    ensures i < m < j && events[m].RemovePeer? && states[m].peers != map[] && states[m + 1].peers == map[]
  {
    assert IsStep(sha1, states[i], events[i], states[i + 1]);
    assert sha1(events[i].node) in states[i + 1].peers;
    m := EmptiedByRemoval(sha1, states, events, i + 1, j);
  }

  // A successful bootstrap registers exactly this node, as a voter; any other
  // bootstrap changes nothing.
  lemma BootstrapEffect(sha1: Hash, s: State, n: Str, address: Str)
    requires Enabled(s, Bootstrap(n, address))
    ensures var s' := Next(sha1, s, Bootstrap(n, address));
            if Succeeds(s, Bootstrap(n, address)) then s'.peers.Keys == {sha1(n)}
              && !s'.peers[sha1(n)].status.ClusterLeader?
            else s' == s
    ensures s.peers != map[] ==> Next(sha1, s, Bootstrap(n, address)) == s
  {}
}
