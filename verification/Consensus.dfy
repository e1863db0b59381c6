/**
  The consensus interface of one node, and the parts of the provider that rest
  on it. Peers in memory are objects shared by reference; the server keeps
  records. API calls do not fail here.
 */
module Consensus {
  import opened Text
  import opened Kube
  import opened Election
  import opened Peers

  datatype Error = NotStorageNode | NodeNotFound | NoLeader | NotFoundByServer | AlreadyBootstrapped | Closed

  datatype Result<T> = Ok(value: T) | Err(error: Error)

  class StoragePeer {
    var id: Str
    var address: Str
    var status: ClusterStatus

    constructor (record: Peer)
      ensures Record() == record
    {
      id, address, status := record.id, record.address, record.status;
    }

    function Record(): Peer
      reads this
    {
      Peer(id, address, status)
    }
  }

  /** The peer objects on the API server. Only this provider's field owner
      applies them, so applying a record replaces it. */
  class PeerServer {
    var peers: PeerMap

    constructor ()
      ensures peers == map[]
    {
      peers := map[];
    }

    /** New objects for all records, in some order. */
    method List() returns (items: seq<StoragePeer>, ghost names: seq<Str>)
      ensures IsOrder(names, peers.Keys) && |items| == |names|
      ensures forall i :: 0 <= i < |items| ==> fresh(items[i]) && items[i].Record() == peers[names[i]]
      ensures forall i, j :: 0 <= i < j < |items| ==> items[i] != items[j]
    {
      items, names := [], [];
      var todo := peers.Keys;
      while todo != {}
        invariant todo <= peers.Keys && |items| == |names|
        invariant forall i, j :: 0 <= i < j < |names| ==> names[i] != names[j]
        invariant forall n :: n in names <==> n in peers && n !in todo
        invariant forall i :: 0 <= i < |items| ==>
                                names[i] in peers && fresh(items[i]) && items[i].Record() == peers[names[i]]
        invariant forall i, j :: 0 <= i < j < |items| ==> items[i] != items[j]
      {
        var n :| n in todo;
        todo := todo - {n};
        var item := new StoragePeer(peers[n]);
        items, names := items + [item], names + [n];
      }
    }
  }

  ghost function Records(items: seq<StoragePeer>): (list: seq<Peer>)
    reads items
    ensures |list| == |items|
    ensures forall i :: 0 <= i < |items| ==> list[i] == items[i].Record()
  {
    seq(|items|, i requires 0 <= i < |items| reads items => items[i].Record())
  }

  ghost function SelfOf(self: StoragePeer?): Option<Peer>
    reads self
  {
    if self == null then None else Some(self.Record())
  }

  class Consensus {
    const nodeId: Str
    const isObserver: bool
    const sha1: Hash
    const server: PeerServer
    const elector: Elector
    var self: StoragePeer?

    constructor (nodeId: Str, isObserver: bool, sha1: Hash, server: PeerServer, elector: Elector)
      ensures this.nodeId == nodeId && this.isObserver == isObserver && this.sha1 == sha1
      ensures this.server == server && this.elector == elector && self == null
    {
      this.nodeId, this.isObserver, this.sha1, this.server, this.elector := nodeId, isObserver, sha1, server, elector;
      self := null;
    }

    predicate IsLeader()
      reads this, elector
    {
      if isObserver then false else elector.IsLeader(nodeId)
    }

    method GetPeer(id: Str) returns (r: Result<StoragePeer>)
      requires Registered(sha1, server.peers) && Injective(sha1)
      ensures if sha1(id) in server.peers then r.Ok? && r.value.Record() == server.peers[sha1(id)]
              else r == Err(NodeNotFound)
    {
      var items, names := server.List();
      ListedIds(sha1, server.peers, names, id);
      for i := 0 to |items|
        invariant forall j :: 0 <= j < i ==> InOrder(names, server.peers)[j].id != id
      {
        if items[i].id == id {
          assert names[i] in names;
          return Ok(items[i]);
        }
      }
      return Err(NodeNotFound);
    }

    // The order in which peers are listed is `names`.
    method GetLeader() returns (r: Result<StoragePeer>, ghost names: seq<Str>)
      modifies this`self
      ensures IsOrder(names, server.peers.Keys)
      ensures var (found, self') := FindLeader(isObserver, nodeId, elector.holder, old(SelfOf(self)),
                                                    InOrder(names, server.peers));
              && SelfOf(self) == self'
              && (match found case Some(p) => r.Ok? && r.value.Record() == p case None => r == Err(NoLeader))
    {
      var items;
      items, names := server.List();
      if IsLeader() {
        if self != null {
          return Ok(self), names;
        }
      }
      ghost var list := InOrder(names, server.peers);
      ghost var me := SelfOf(self);
      assert list[0..] == list;
      for i := 0 to |items|
        invariant self == old(self) && SelfOf(self) == me
        invariant forall j :: i <= j < |items| ==> items[j].Record() == list[j] && fresh(items[j])
        invariant ScanForLeader(isObserver, nodeId, elector.holder, me, list)
                  == ScanForLeader(isObserver, nodeId, elector.holder, me, list[i..])
      {
        assert list[i..][0] == list[i] && list[i..][1..] == list[i + 1..];
        var peer := items[i];
        if !isObserver && elector.holder == peer.id && IsLeader() {
          self := peer;
          return Ok(peer), names;
        }
        if !isObserver && elector.holder == peer.id {
          peer.status := ClusterLeader;
          return Ok(peer), names;
        }
        if isObserver && peer.status == ClusterVoter {
          return Ok(peer), names;
        }
        if peer.status == ClusterLeader {
          return Ok(peer), names;
        }
      }
      return Err(NoLeader), names;
    }

    method AddVoter(peer: StoragePeer) returns (r: Result<()>)
      modifies server, peer`status
      ensures r == if isObserver then Err(NotStorageNode) else Ok(())
      ensures peer.status == if r.Ok? then ClusterVoter else old(peer.status)
      ensures server.peers == WithVoter(sha1, isObserver, old(server.peers), old(peer.Record()))
      ensures server.peers == if r.Err? then old(server.peers)
                              else old(server.peers)[sha1(peer.id) := Peer(peer.id, peer.address, ClusterVoter)]
    {
      if isObserver {
        return Err(NotStorageNode);
      }
      peer.status := ClusterVoter;
      server.peers := server.peers[sha1(peer.id) := peer.Record()];
      return Ok(());
    }

    method AddObserver(peer: StoragePeer) returns (r: Result<()>)
      modifies server, peer`status
      ensures r == if isObserver && peer.id != nodeId then Err(NotStorageNode) else Ok(())
      ensures peer.status == if r.Ok? then ClusterObserver else old(peer.status)
      ensures server.peers == WithObserver(sha1, isObserver, nodeId, old(server.peers), old(peer.Record()))
      ensures server.peers == if r.Err? then old(server.peers)
                              else old(server.peers)[sha1(peer.id) := Peer(peer.id, peer.address, ClusterObserver)]
    {
      if isObserver {
        if peer.id != nodeId {
          return Err(NotStorageNode);
        }
      }
      peer.status := ClusterObserver;
      server.peers := server.peers[sha1(peer.id) := peer.Record()];
      return Ok(());
    }

    method DemoteVoter(peer: StoragePeer) returns (r: Result<()>)
      modifies server
      ensures r == if isObserver then Err(NotStorageNode)
                   else if sha1(peer.id) !in old(server.peers) then Err(NotFoundByServer) else Ok(())
      ensures server.peers == Demoted(sha1, isObserver, old(server.peers), peer.id)
      ensures server.peers == if r.Err? then old(server.peers)
                              else var stored := old(server.peers)[sha1(peer.id)];
                                   old(server.peers)[sha1(peer.id) := Peer(stored.id, stored.address, ClusterObserver)]
    {
      if isObserver {
        return Err(NotStorageNode);
      }
      if sha1(peer.id) !in server.peers {
        return Err(NotFoundByServer);
      }
      var stpeer := server.peers[sha1(peer.id)];
      stpeer := stpeer.(status := ClusterObserver);
      server.peers := server.peers[sha1(peer.id) := stpeer];
      return Ok(());
    }

    // An observer is let past the first check for its own record, and refused by
    // the second.
    method RemovePeer(peer: StoragePeer) returns (r: Result<()>)
      modifies server
      ensures r == if isObserver then Err(NotStorageNode) else Ok(())
      ensures server.peers == Without(sha1, isObserver, old(server.peers), peer.id)
      ensures server.peers == if r.Err? then old(server.peers) else old(server.peers) - {sha1(peer.id)}
    {
      if isObserver {
        if peer.id != nodeId {
          return Err(NotStorageNode);
        }
      }
      r := RemovePeerByIDHash(sha1(peer.id));
    }

    method RemovePeerByIDHash(idHash: Str) returns (r: Result<()>)
      modifies server
      ensures r == if isObserver then Err(NotStorageNode) else Ok(())
      ensures server.peers == if r.Ok? then old(server.peers) - {idHash} else old(server.peers)
    {
      if isObserver {
        return Err(NotStorageNode);
      }
      server.peers := server.peers - {idHash};
      return Ok(());
    }

    method ContainsPeer(peers: seq<StoragePeer>, id: Str) returns (found: bool)
      ensures found == HasPeer(Records(peers), id)
    {
      for i := 0 to |peers|
        invariant forall j :: 0 <= j < i ==> peers[j].id != id
      {
        if peers[i].id == id {
          assert Records(peers)[i].id == id;
          return true;
        }
      }
      return false;
    }
  }

  datatype StorageStatus = StorageStatus(isWritable: bool, status: ClusterStatus, peers: seq<StoragePeer>,
    message: Message) {
    ghost function Value(): Report
      reads peers
    {
      Report(isWritable, status, Records(peers), message)
    }
  }

  ghost function ValueOf(report: Option<StorageStatus>): Option<Report>
    reads if report.Some? then report.value.peers else []
  {
    match report
    case Some(r) => Some(r.Value())
    case None => None
  }

  class Provider {
    const consensus: Consensus
    const address: Str
    var started: bool

    constructor (consensus: Consensus, address: Str)
      ensures this.consensus == consensus && this.address == address && !started
    {
      this.consensus, this.address, started := consensus, address, false;
    }

    method Start() returns (ok: bool)
      modifies this`started
      ensures started && ok == !old(started)
    {
      ok := !started;
      started := true;
    }

    // The record asks for the leader status; it is stored as a voter.
    method Bootstrap(listenAddress: Str) returns (r: Result<()>)
      modifies consensus.server
      ensures r == if !started then Err(Closed)
                   else if old(consensus.server.peers) != map[] then Err(AlreadyBootstrapped)
                   else if consensus.isObserver then Err(NotStorageNode) else Ok(())
      ensures r.Ok? <==> Bootstraps(consensus.isObserver, started, old(consensus.server.peers))
      ensures consensus.server.peers ==
              Bootstrapped(consensus.sha1, consensus.isObserver, started, old(consensus.server.peers),
                consensus.nodeId, listenAddress)
      ensures consensus.server.peers ==
              if r.Err? then old(consensus.server.peers)
              else map[consensus.sha1(consensus.nodeId) := Peer(consensus.nodeId, listenAddress, ClusterVoter)]
    {
      if !started {
        return Err(Closed);
      }
      var items, names := consensus.server.List();
      assert consensus.server.peers != map[] ==> exists n :: n in consensus.server.peers;
      if |items| > 0 {
        assert names[0] in names;
        return Err(AlreadyBootstrapped);
      }
      assert consensus.server.peers == map[];
      var me := new StoragePeer(Peer(consensus.nodeId, listenAddress, ClusterLeader));
      r := consensus.AddVoter(me);
    }

    // The order in which peers are listed is `names`; None stands for a panic.
    method Status() returns (report: Option<StorageStatus>, ghost names: seq<Str>)
      ensures IsOrder(names, consensus.server.peers.Keys)
      ensures ValueOf(report) == StatusOf(consensus.nodeId, address, consensus.isObserver, started,
                                          consensus.elector.holder, InOrder(names, consensus.server.peers))
    {
      var peers;
      peers, names := consensus.server.List();
      var me := new StoragePeer(Peer(consensus.nodeId, address, ClusterNode));
      assert Records([me]) == [Peer(consensus.nodeId, address, ClusterNode)];
      if !started {
        return Some(StorageStatus(false, ClusterNode, [me], ErrClosed)), names;
      }
      ghost var list := InOrder(names, consensus.server.peers);
      assert Records(peers) == list;
      var contained := consensus.ContainsPeer(peers, consensus.nodeId);
      if !contained {
        return Some(StorageStatus(false, ClusterNode, [me], ErrNotVoter)), names;
      }
      if consensus.isObserver {
        return None, names;
      }
      var out := ShowPeers(peers, list);
      var leads := consensus.elector.IsLeader(consensus.nodeId);
      return Some(StorageStatus(leads, if leads then ClusterLeader else ClusterVoter, out, NoMessage)), names;
    }

    /** The function literal that builds the list of peers. */
    method ShowPeers(peers: seq<StoragePeer>, ghost list: seq<Peer>) returns (out: seq<StoragePeer>)
      requires Records(peers) == list
      requires forall i, j :: 0 <= i < j < |peers| ==> peers[i] != peers[j]
      modifies peers`status
      ensures Records(out) == Shown(list, consensus.nodeId, consensus.IsLeader())
    {
      ghost var shown := Shown(list, consensus.nodeId, consensus.IsLeader());
      out := [];
      for i := 0 to |peers|
        invariant out == peers[..i]
        invariant forall j :: 0 <= j < i ==> peers[j].Record() == shown[j]
        invariant forall j :: i <= j < |peers| ==> peers[j].Record() == list[j]
      {
        var pr := peers[i];
        if pr.id == consensus.nodeId && consensus.IsLeader() {
          pr.status := ClusterLeader;
        }
        out := out + [pr];
      }
      assert out == peers;
    }
  }
}
