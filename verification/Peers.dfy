/**
  Stored peers, and what the consensus calls do to them, as functions of values.
  `sha1` stands for the hash that names peer objects; it is any injective function.
 */
module Peers {
  import opened Text
  import opened Kube

  datatype ClusterStatus = ClusterNode | ClusterLeader | ClusterVoter | ClusterObserver

  datatype Peer = Peer(id: Str, address: Str, status: ClusterStatus)

  /** Peer objects by name. */
  type PeerMap = map<Str, Peer>

  type Hash = Str -> Str

  ghost predicate Injective(sha1: Hash) {
    forall x, y :: sha1(x) == sha1(y) ==> x == y
  }

  /** Every record sits under the hash of its ID, and none is stored as leader. */
  ghost predicate Registered(sha1: Hash, peers: PeerMap) {
    forall n :: n in peers ==> n == sha1(peers[n].id) && !peers[n].status.ClusterLeader?
  }

  // ---------- What the calls do to the records ----------

  function WithVoter(sha1: Hash, isObserver: bool, peers: PeerMap, p: Peer): PeerMap {
    if isObserver then peers else peers[sha1(p.id) := p.(status := ClusterVoter)]
  }

  /** An observer may only add itself. */
  function WithObserver(sha1: Hash, isObserver: bool, nodeId: Str, peers: PeerMap, p: Peer): PeerMap {
    if isObserver && p.id != nodeId then peers else peers[sha1(p.id) := p.(status := ClusterObserver)]
  }

  function Demoted(sha1: Hash, isObserver: bool, peers: PeerMap, id: Str): PeerMap {
    if isObserver || sha1(id) !in peers then peers
    else peers[sha1(id) := peers[sha1(id)].(status := ClusterObserver)]
  }

  function Without(sha1: Hash, isObserver: bool, peers: PeerMap, id: Str): PeerMap {
    if isObserver then peers else peers - {sha1(id)}
  }

  /** Only a started voter that finds no peers bootstraps. */
  predicate Bootstraps(isObserver: bool, started: bool, peers: PeerMap) {
    started && peers == map[] && !isObserver
  }

  function Bootstrapped(sha1: Hash, isObserver: bool, started: bool, peers: PeerMap, nodeId: Str,
      address: Str): PeerMap {
    if Bootstraps(isObserver, started, peers) then map[sha1(nodeId) := Peer(nodeId, address, ClusterVoter)] else peers
  }

  // ---------- Listing ----------

  function InOrder(names: seq<Str>, peers: PeerMap): (list: seq<Peer>)
    requires forall n :: n in names ==> n in peers
    ensures |list| == |names|
    ensures forall i :: 0 <= i < |names| ==> list[i] == peers[names[i]]
  {
    seq(|names|, i requires 0 <= i < |names| => peers[names[i]])
  }

  predicate HasPeer(list: seq<Peer>, id: Str) {
    exists i :: 0 <= i < |list| && list[i].id == id
  }

  // ---------- Finding the leader ----------

  /** The loop of GetLeader: the peer returned, and the node's cached self after. */
  function ScanForLeader(isObserver: bool, nodeId: Str, holder: Str, self: Option<Peer>, list: seq<Peer>)
    : (Option<Peer>, Option<Peer>)
  {
    if list == [] then (None, self)
    else
      var p := list[0];
      if !isObserver && holder == p.id && holder == nodeId then (Some(p), Some(p))
      else if !isObserver && holder == p.id then (Some(p.(status := ClusterLeader)), self)
      else if isObserver && p.status.ClusterVoter? then (Some(p), self)
      else if p.status.ClusterLeader? then (Some(p), self)
      else ScanForLeader(isObserver, nodeId, holder, self, list[1..])
  }

  function FindLeader(isObserver: bool, nodeId: Str, holder: Str, self: Option<Peer>, list: seq<Peer>)
    : (Option<Peer>, Option<Peer>)
  {
    if !isObserver && holder == nodeId && self.Some? then (self, self)
    else ScanForLeader(isObserver, nodeId, holder, self, list)
  }

  /** A peer the scan stops at. */
  predicate Wanted(isObserver: bool, holder: Str, p: Peer) {
    p.status.ClusterLeader? || if isObserver then p.status.ClusterVoter? else p.id == holder
  }

  ghost predicate IsFirstWanted(isObserver: bool, holder: Str, list: seq<Peer>, i: int) {
    && 0 <= i < |list| && Wanted(isObserver, holder, list[i])
    && forall j :: 0 <= j < i ==> !Wanted(isObserver, holder, list[j])
  }

  // Of any list the scan returns the first peer it is after, with its own ID and
  // address, shown as leader when it holds the lease and is another node; a node
  // that finds itself so caches its record.
  lemma {:induction false} ScanReturnsFirst(isObserver: bool, nodeId: Str, holder: Str, self: Option<Peer>,
      list: seq<Peer>)
    ensures var (found, self') := ScanForLeader(isObserver, nodeId, holder, self, list);
            && (found.None? <==> forall i :: 0 <= i < |list| ==> !Wanted(isObserver, holder, list[i]))
            && (found.None? ==> self' == self)
            && forall i :: IsFirstWanted(isObserver, holder, list, i) ==>
                 var p, held := list[i], !isObserver && list[i].id == holder;
                 && found == Some(Peer(p.id, p.address, if held && holder != nodeId then ClusterLeader else p.status))
                 && self' == (if held && holder == nodeId then Some(p) else self)
  {
    if list != [] {
      var rest := list[1..];
      ScanReturnsFirst(isObserver, nodeId, holder, self, rest);
      assert forall i :: 0 <= i < |rest| ==> rest[i] == list[i + 1];
      if !Wanted(isObserver, holder, list[0]) {
        forall i | IsFirstWanted(isObserver, holder, list, i) ensures IsFirstWanted(isObserver, holder, rest, i - 1) {
          assert forall j :: 0 <= j < i - 1 ==> rest[j] == list[j + 1];
        }
      }
    }
  }

  // The scan of a list without stored leaders: a voter finds the holder's record
  // wherever it stands in the list, an observer finds the first voter.
  lemma {:induction false} ScanFinds(isObserver: bool, nodeId: Str, holder: Str, self: Option<Peer>, list: seq<Peer>)
    requires forall i :: 0 <= i < |list| ==> !list[i].status.ClusterLeader?
    ensures var (found, self') := ScanForLeader(isObserver, nodeId, holder, self, list);
            if isObserver then
              && self' == self
              && (found.None? <==> forall i :: 0 <= i < |list| ==> !list[i].status.ClusterVoter?)
              && (found.Some? ==> exists i :: 0 <= i < |list| && list[i] == found.value && IsFirstVoter(list, i))
            else
              && (found.Some? <==> HasPeer(list, holder))
              && (forall i :: 0 <= i < |list| && list[i].id == holder
                              && (forall j :: 0 <= j < i ==> list[j].id != holder) ==>
                    found == Some(Peer(holder, list[i].address,
                                       if holder != nodeId then ClusterLeader else list[i].status)))
              && (found.Some? ==> found.value.id == holder
                                  && (found.value.status.ClusterLeader? <==> holder != nodeId))
              && (found.None? || holder != nodeId ==> self' == self)
              && (found.Some? && holder == nodeId ==> self' == found)
  {
    if list != [] {
      ScanFinds(isObserver, nodeId, holder, self, list[1..]);
      var (found, self') := ScanForLeader(isObserver, nodeId, holder, self, list);
      assert forall i :: 0 <= i < |list[1..]| ==> list[1..][i] == list[i + 1];
      if isObserver {
        if list[0].status.ClusterVoter? {
          assert IsFirstVoter(list, 0);
        } else if found.Some? {
          var i :| 0 <= i < |list[1..]| && list[1..][i] == found.value && IsFirstVoter(list[1..], i);
          assert IsFirstVoter(list, i + 1) && list[i + 1] == found.value;
        }
      }
      HasPeerTail(list, holder);
    }
  }

  lemma HasPeerTail(list: seq<Peer>, id: Str)
    requires list != []
    ensures HasPeer(list, id) <==> list[0].id == id || HasPeer(list[1..], id)
  {
    if HasPeer(list, id) && list[0].id != id {
      var i :| 0 <= i < |list| && list[i].id == id;
      assert list[1..][i - 1].id == id;
    }
    if HasPeer(list[1..], id) {
      var i :| 0 <= i < |list[1..]| && list[1..][i].id == id;
      assert list[i + 1].id == id;
    }
  }

  ghost predicate IsFirstVoter(list: seq<Peer>, i: int) {
    0 <= i < |list| && list[i].status.ClusterVoter? && forall j :: 0 <= j < i ==> !list[j].status.ClusterVoter?
  }

  /** The peers Status lists: the records, with this node shown as leader if it is. */
  function Shown(list: seq<Peer>, nodeId: Str, isLeader: bool): (out: seq<Peer>)
    ensures |out| == |list|
    ensures forall i :: 0 <= i < |list| ==> out[i] == ShownPeer(list[i], nodeId, isLeader)
  {
    seq(|list|, i requires 0 <= i < |list| => ShownPeer(list[i], nodeId, isLeader))
  }

  function ShownPeer(p: Peer, nodeId: Str, isLeader: bool): Peer {
    if p.id == nodeId && isLeader then p.(status := ClusterLeader) else p
  }

  datatype Message = NoMessage | ErrClosed | ErrNotVoter

  datatype Report = Report(isWritable: bool, status: ClusterStatus, peers: seq<Peer>, message: Message)

  /** What Status reports. On a registered observer it calls an elector that is not
      there; None stands for that panic. */
  function StatusOf(nodeId: Str, address: Str, isObserver: bool, started: bool, holder: Str,
      list: seq<Peer>): Option<Report> {
    var me := [Peer(nodeId, address, ClusterNode)];
    if !started then Some(Report(false, ClusterNode, me, ErrClosed))
    else if !HasPeer(list, nodeId) then Some(Report(false, ClusterNode, me, ErrNotVoter))
    else if isObserver then None
    else
      var leads := holder == nodeId;
      Some(Report(leads, if leads then ClusterLeader else ClusterVoter, Shown(list, nodeId, leads), NoMessage))
  }

  // IDs in a listing are distinct, and an ID is listed when its hash is a name.
  lemma ListedIds(sha1: Hash, peers: PeerMap, names: seq<Str>, id: Str)
    requires Registered(sha1, peers) && IsOrder(names, peers.Keys)
    ensures var list := InOrder(names, peers);
            && (forall i, j :: 0 <= i < j < |list| ==> list[i].id != list[j].id)
            && (forall i :: 0 <= i < |list| ==> !list[i].status.ClusterLeader?)
            && (Injective(sha1) ==> (HasPeer(list, id) <==> sha1(id) in peers))
  {
    var list := InOrder(names, peers);
    forall i | 0 <= i < |names| ensures names[i] == sha1(list[i].id) && !list[i].status.ClusterLeader? {
      assert names[i] in names;
    }
    if Injective(sha1) && sha1(id) in peers {
      assert sha1(id) in names;
      var i :| 0 <= i < |names| && names[i] == sha1(id);
      assert list[i].id == id;
    }
    if HasPeer(list, id) {
      var i :| 0 <= i < |list| && list[i].id == id;
      assert names[i] in names;
    }
  }
}
