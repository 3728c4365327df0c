/** A node actor as a mutable object: what it does when it gets to a message, a timer or a finished task. */
module Nodes {
  import opened Wrappers
  import opened RaftMessages
  import opened NetworkSpec

  class Node {
    const id: NodeId
    const localId: NodeId
    var proximity: Proximity
    var status: NodeStatus
    /** The actor's own outstanding work: connect messages, retry timers, answered connects. */
    var connects: nat
    var timers: nat
    var tasks: nat
    /** Status messages sent to the network, and config changes proposed to the local Raft. */
    var sent: seq<NodeStatus>
    var proposals: seq<(seq<NodeId>, seq<NodeId>)>
    var mailbox: seq<NodeMessage>

    /** The actor, with none of its words handled by the network. */
    ghost function State(): Actor
      reads this
    {
      Actor(id, localId, proximity, status, connects, timers, tasks, sent, 0, mailbox, proposals)
    }

    constructor (id: NodeId, localId: NodeId, proximity: Proximity)
      ensures State() == StartActor(id, localId, proximity)
    {
      this.id, this.localId, this.proximity := id, localId, proximity;
      status, connects, timers, tasks := Initialized, 1, 0, 0;
      sent, proposals, mailbox := [], [], [];
    }

    /** Asking for Initialized is a panic. */
    method ApplyStatusChange(status: NodeStatus)
      requires status != Initialized
      modifies this`sent
      ensures NetworkSpec.ApplyStatusChange(old(State()), status) == Some(State())
    {
      var newStatus := status;
      if status.Failure? && 3 < status.attempts {
        newStatus := Disconnected;
      }
      sent := sent + [newStatus];
    }

    /** A connect message; `reachable` is what a remote node's server would answer. */
    method HandleConnect(reachable: bool)
      requires connects > 0
      modifies this
      ensures NetworkSpec.HandleConnect(old(State()), reachable) == Some(State())
    {
      connects := connects - 1;
      if IsConnected(status) {
        tasks := tasks + 1;
        return;
      }
      if proximity.Local? || reachable {
        tasks := tasks + 1;
        ApplyStatusChange(WeaklyConnected);
      } else {
        timers := timers + 1;
        ApplyStatusChange(if status.Failure? then Failure(status.attempts + 1) else Failure(1));
      }
    }

    method HandleConnectResult()
      requires tasks > 0
      modifies this
      ensures NetworkSpec.FinishConnect(old(State())) == Some(State())
    {
      tasks := tasks - 1;
      ApplyStatusChange(Connected);
    }

    method RetryConnect()
      requires timers > 0
      modifies this`timers, this`connects
      ensures State() == NetworkSpec.RetryDue(old(State()))
    {
      timers := timers - 1;
      connects := connects + 1;
    }

    method DisconnectNode()
      modifies this`sent
      ensures NetworkSpec.DisconnectActor(old(State())) == Some(State())
    {
      if IsConnected(status) {
        ApplyStatusChange(Disconnected);
      }
    }

    /** The oldest message of the mailbox. A cluster change for a remote node is not implemented: a panic. */
    method HandleMessage()
      requires mailbox != []
      requires mailbox[0].ChangeClusterConfig? ==> proximity.Local?
      modifies this
      ensures NetworkSpec.HandleMessage(old(State())) == Some(State())
    {
      var msg := mailbox[0];
      mailbox := mailbox[1..];
      match msg
      case UpdateProximity(p) =>
        proximity := p;
      case Disconnect =>
        DisconnectNode();
      case ChangeClusterConfig(toAdd, toRemove) =>
        proposals := proposals + [(toAdd, toRemove)];
    }
  }
}
