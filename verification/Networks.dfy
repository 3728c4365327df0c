/** A network as the mutable object it is; every handler is proved against its step. */
module Networks {
  import opened Wrappers
  import opened RaftMessages
  import opened NetStateSpec
  import opened NetworkStates
  import opened NetworkSpec

  class Network {
    const id: NodeId
    const info: NodeInfo
    const state: NetworkState
    var nodes: map<NodeId, NodeRef>
    var metrics: Option<Metrics>
    var raft: Option<RaftAddress>
    /** The node actors started so far; an actor's address is its position. */
    var actors: seq<Actor>
    /** Connected ids whose cluster change is still to be passed to the leader. */
    var changes: seq<NodeId>
    /** New proximities that are still to be sent to node actors, oldest first. */
    var updates: seq<(Address, Proximity)>
    /** Targets of snapshot calls that were let in and are still to be forwarded. */
    var snapshots: seq<NodeId>

    ghost function State(): Net
      reads this, state
    {
      Net(id, info, state.State(), nodes, metrics, raft, actors, changes, updates, snapshots)
    }

    constructor (id: NodeId, info: NodeInfo, now: Time)
      ensures fresh(state)
      ensures State() == New(id, info, now)
    {
      this.id, this.info := id, info;
      state := new NetworkState(now);
      nodes := map[id := NodeRef(id, Some(info), None)];
      metrics, raft, actors, changes, updates, snapshots := None, None, [], [], [], [];
    }

    /** Add the configured seed nodes under the ids of their cluster addresses. */
    method ConfigureWith(seeds: seq<NodeInfo>, idOf: string -> NodeId)
      modifies this`nodes
      ensures State() == NetworkSpec.ConfigureWith(old(State()), seeds, idOf)
    {
      var n := 0;
      while n < |seeds|
        invariant 0 <= n <= |seeds|
        invariant NetworkSpec.ConfigureWith(State(), seeds[n..], idOf) ==
                  NetworkSpec.ConfigureWith(old(State()), seeds, idOf)
      {
        assert seeds[n..][1..] == seeds[n + 1..];
        var nodeId := idOf(seeds[n].clusterAddress);
        nodes := nodes[nodeId := NodeRef(nodeId, Some(seeds[n]), None)];
        n := n + 1;
      }
    }

    /** Start a node's actor where one is due, and lift the node's isolation. */
    method RegisterNode(nodeId: NodeId, nodeInfo: NodeInfo)
      modifies this`nodes, this`actors, state
      ensures State() == NetworkSpec.RegisterNode(old(State()), nodeId, nodeInfo)
    {
      if nodeId !in nodes {
        nodes := nodes[nodeId := NodeRef(nodeId, Some(nodeInfo), None)];
      }
      var ref := nodes[nodeId];
      if !(ref.info == Some(nodeInfo) && ref.addr.Some?) {
        ref := ref.(info := Some(nodeInfo));
        match DetermineProximity(id, nodeId, nodeInfo, raft) {
          case Some(proximity) =>
            ref := ref.(addr := Some(|actors|));
            actors := actors + [StartActor(nodeId, id, proximity)];
          case None =>
        }
        nodes := nodes[nodeId := ref];
      }
      state.RestoreNode(nodeId);
    }

    /** Register every node that was configured, each once, by increasing id. */
    method Started() returns (ghost order: seq<NodeId>)
      modifies this`nodes, this`actors, state
      ensures Visits(order, old(nodes)) && forall j, k :: 0 <= j < k < |order| ==> order[j] < order[k]
      ensures State() == StartNodes(old(State()), old(nodes), order)
    {
      var configured := nodes;
      var left := configured.Keys;
      order := [];
      while left != {}
        invariant left <= configured.Keys
        invariant forall i :: i in order <==> i in configured.Keys - left
        invariant forall j, k :: 0 <= j < k < |order| ==> order[j] < order[k]
        invariant forall i, j :: i in order && j in left ==> i < j
        invariant State() == StartNodes(old(State()), configured, order)
        decreases left
      {
        var nodeId := Least(left);
        forall j | 0 <= j < |order| ensures order[j] < nodeId {
          assert order[j] in order;
        }
        left := left - {nodeId};
        StartOneMore(old(State()), configured, order, nodeId);
        if configured[nodeId].info.Some? {
          RegisterNode(nodeId, configured[nodeId].info.value);
        }
        order := order + [nodeId];
      }
    }

    /** The network must have an entry for itself: without one this is a panic. */
    method RegisterRaft(raftAddress: RaftAddress)
      requires id in nodes
      modifies this, state
      ensures NetworkSpec.RegisterRaft(old(State()), raftAddress) == Some(State())
    {
      raft := Some(raftAddress);
      var ref := nodes[id];
      if ref.info.Some? {
        if ref.addr.Some? {
          var proximity := DetermineProximity(id, ref.id, ref.info.value, raft);
          if proximity.Some? {
            updates := updates + [(ref.addr.value, proximity.value)];
          }
        } else {
          RegisterNode(ref.id, ref.info.value);
        }
      }
    }

    /** Continue registering Raft: the oldest new proximity is sent. */
    method SendNextProximity()
      modifies this`updates, this`actors
      ensures State() == SendProximity(old(State()))
    {
      if updates != [] {
        var (addr, proximity) := updates[0];
        updates := updates[1..];
        Send(addr, UpdateProximity(proximity));
      }
    }

    /** Put a message into an actor's mailbox. */
    method Send(addr: Address, msg: NodeMessage)
      modifies this`actors
      ensures State() == NetworkSpec.Send(old(State()), addr, msg)
    {
      if addr < |actors| {
        actors := actors[addr := actors[addr].(inbox := actors[addr].inbox + [msg])];
      }
    }

    /** A metrics message that asks for an illegal status change is a panic. */
    method HandleMetrics(msg: Metrics, now: Time)
      requires state.log != []
      requires !(state.status == Down && msg.state == NonVoter)
      modifies this`metrics, state
      ensures OnMetrics(old(State()), msg, now) == Some(State())
    {
      match (state.status, msg.state) {
        case (Joining, NonVoter) =>
        case (Joining, _) =>
          var _ := state.Advance(Up, now);
        case (WeaklyUp, NonVoter) =>
        case (WeaklyUp, _) =>
          var _ := state.Advance(Up, now);
        case (Up, NonVoter) =>
          var _ := state.Advance(Leaving, now);
        case (_, _) =>
      }
      metrics := Some(msg);
    }

    method HandleNodeStatusChange(nodeId: NodeId, status: NodeStatus)
      modifies state
      ensures State() == OnNodeStatus(old(State()), nodeId, status)
    {
      if nodeId in nodes {
        match status {
          case Initialized => state.IsolateNode(nodeId);
          case WeaklyConnected => state.IsolateNode(nodeId);
          case Connected => state.RestoreNode(nodeId);
          case Failure(_) =>
          case Disconnected => state.IsolateNode(nodeId);
        }
      }
    }

    method HandleConnectNode(nodeId: NodeId, nodeInfo: NodeInfo)
      modifies this, state
      ensures State() == ConnectNode(old(State()), nodeId, nodeInfo)
    {
      if !(nodeId in nodes && nodes[nodeId].info == Some(nodeInfo)) {
        RegisterNode(nodeId, nodeInfo);
      }
      changes := changes + [nodeId];
    }

    /** Continue a connect; true: it is acknowledged. */
    method DelegateToLeader(k: nat) returns (acknowledged: bool)
      requires k < |changes|
      modifies this`changes, this`actors
      ensures State() == DelegateChange(old(State()), k)
      ensures acknowledged <==> ConnectAcknowledged(old(State()))
    {
      var command := ChangeClusterConfig([changes[k]], []);
      changes := changes[..k] + changes[k + 1..];
      acknowledged := true;
      if metrics.Some? && metrics.value.currentLeader.Some? && metrics.value.currentLeader.value in nodes {
        var ref := nodes[metrics.value.currentLeader.value];
        if ref.id == id {
          if ref.addr.Some? {
            Send(ref.addr.value, command);
          } else {
            acknowledged := false;
          }
        } else if ref.info.None? {
          acknowledged := false;
        }
      }
    }

    /** The first stage of a snapshot call. */
    method HandleInstallSnapshot(target: NodeId, leader: NodeId) returns (admitted: bool)
      modifies this`snapshots
      ensures State() == AdmitSnapshot(old(State()), target, leader)
      ensures admitted <==> SnapshotAdmitted(old(State()), target, leader)
    {
      admitted := target in nodes && target !in state.isolatedNodes && leader !in state.isolatedNodes;
      if admitted {
        snapshots := snapshots + [target];
      }
    }

    /** The second stage: the actor the call is sent to. A target without an address is a panic. */
    method ForwardInstallSnapshot(k: nat) returns (addr: Address)
      requires k < |snapshots| && snapshots[k] in nodes && nodes[snapshots[k]].addr.Some?
      modifies this`snapshots
      ensures ForwardSnapshot(old(State()), k) == Some(State())
      ensures SnapshotGate(old(State()), old(snapshots)[k]) == Forward(addr)
    {
      addr := nodes[snapshots[k]].addr.value;
      snapshots := snapshots[..k] + snapshots[k + 1..];
    }

    /** The leader as the metrics and the registry have it. */
    method ResolveLeader() returns (leader: Leader)
      ensures leader == LeaderDelegate(State())
    {
      if metrics.None? || metrics.value.currentLeader.None? || metrics.value.currentLeader.value !in nodes {
        return NoElectedLeader;
      }
      var ref := nodes[metrics.value.currentLeader.value];
      if ref.id == id {
        leader := if ref.addr.Some? then Delegate(ref.addr.value) else Unknown;
      } else {
        leader := if ref.info.Some? then NotLeader(ref.id, ref.info.value.clusterAddress) else Unknown;
      }
    }

    /** The second stage of a client request: look another leader's actor up. */
    method ContinueClientRequest(resolved: Leader) returns (leader: Leader)
      ensures leader == ContinueRoute(resolved, State())
    {
      leader := resolved;
      if resolved.NotLeader? && resolved.leaderId in nodes && nodes[resolved.leaderId].addr.Some? {
        leader := Delegate(nodes[resolved.leaderId].addr.value);
      }
    }

    method HandleDisconnectNode(nodeId: NodeId)
      modifies this`nodes
      ensures State() == DisconnectNode(old(State()), nodeId)
    {
      nodes := nodes - {nodeId};
    }
  }

  /** The smallest of some ids. */
  method Least(ids: set<NodeId>) returns (least: NodeId)
    requires ids != {}
    ensures least in ids && forall i :: i in ids ==> least <= i
  {
    least :| least in ids;
    var rest := ids - {least};
    while rest != {}
      invariant rest <= ids && least in ids
      invariant forall i :: i in ids && i !in rest ==> least <= i
      decreases rest
    {
      var i :| i in rest;
      if i < least {
        least := i;
      }
      rest := rest - {i};
    }
  }

  lemma {:induction false} StartOneMore(net: Net, configured: map<NodeId, NodeRef>, order: seq<NodeId>, id: NodeId)
    ensures StartNodes(net, configured, order + [id]) ==
            var net' := StartNodes(net, configured, order);
            if id in configured && configured[id].info.Some?
            then NetworkSpec.RegisterNode(net', id, configured[id].info.value) else net'
    decreases |order|
  {
    if order == [] {
      assert (order + [id])[1..] == [];
    } else {
      assert (order + [id])[1..] == order[1..] + [id];
      var first := order[0];
      StartOneMore(
        if first in configured && configured[first].info.Some?
        then NetworkSpec.RegisterNode(net, first, configured[first].info.value) else net,
        configured, order[1..], id);
    }
  }
}
