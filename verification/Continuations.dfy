/**
 Handlers that are continued later: when the continuation of a snapshot call
 panics and that of a client request misses the leader, told from what was
 handled in between.
 */
module Continuations {
  import opened Wrappers
  import opened RaftMessages
  import opened NetStateSpec
  import opened NetworkSpec
  import opened Registry
  import opened Routing
  import RunFacts

  /** The node is disconnected by one of these messages, and not connected again after that. */
  ghost predicate Dropped(evs: seq<Event>, id: NodeId) {
    exists j :: DroppedAt(evs, id, j)
  }

  ghost predicate DroppedAt(evs: seq<Event>, id: NodeId, j: nat) {
    && j < |evs| && evs[j] == DisconnectArrived(id)
    && forall k :: j < k < |evs| ==> !(evs[k].ConnectArrived? && evs[k].id == id)
  }

  ghost predicate RaftComes(evs: seq<Event>) {
    exists j :: 0 <= j < |evs| && evs[j].RaftRegistered?
  }

  /** A registered node is not registered any more exactly when it was dropped. */
  lemma {:induction false} DroppedIsLast(evs: seq<Event>, id: NodeId, info: NodeInfo)
    ensures Dropped(evs, id) <==> RunFacts.LastSaid(evs, id, Some(info)).None?
    decreases |evs|
  {
    if evs != [] {
      var last := |evs| - 1;
      DroppedIsLast(evs[..last], id, info);
      if evs[last] == DisconnectArrived(id) {
        assert DroppedAt(evs, id, last);
      } else {
        DroppedFront(evs, id);
      }
    }
  }

  lemma DroppedFront(evs: seq<Event>, id: NodeId)
    requires evs != [] && evs[|evs| - 1] != DisconnectArrived(id)
    ensures Dropped(evs, id) <==>
            Dropped(evs[..|evs| - 1], id) && !(evs[|evs| - 1].ConnectArrived? && evs[|evs| - 1].id == id)
  {
    var front := evs[..|evs| - 1];
    if j: nat :| DroppedAt(evs, id, j) {
      assert DroppedAt(front, id, j);
    }
    if !(evs[|evs| - 1].ConnectArrived? && evs[|evs| - 1].id == id) {
      if j: nat :| DroppedAt(front, id, j) {
        assert DroppedAt(evs, id, j);
      }
    }
  }

  lemma {:induction false} RaftKept(net: Net, evs: seq<Event>)
    requires Run(net, evs).Some?
    ensures Run(net, evs).value.raft.Some? <==> net.raft.Some? || RaftComes(evs)
    decreases |evs|
  {
    if evs != [] {
      var next := Step(net, evs[0]).value;
      RunFacts.Latest(net, evs[0]);
      RaftKept(next, evs[1..]);
      if j :| 0 <= j < |evs| && evs[j].RaftRegistered? {
        assert j > 0 ==> evs[1..][j - 1].RaftRegistered?;
      }
      if j :| 0 <= j < |evs| - 1 && evs[1..][j].RaftRegistered? {
        assert evs[j + 1].RaftRegistered?;
      }
    }
  }

  /**
   A snapshot call that was let in panics when it is continued, after whatever
   other messages, exactly when its target was disconnected in between and not
   connected again, or is the own node and Raft is still not registered. So with
   Raft registered, and the target left connected, it never does.
   */
  lemma ForwardingPanics(net: Net, target: NodeId, leader: NodeId, evs: seq<Event>, k: nat)
    requires Inv(net) && SnapshotAdmitted(net, target, leader)
    requires Run(AdmitSnapshot(net, target, leader), evs).Some?
    requires var end := Run(AdmitSnapshot(net, target, leader), evs).value;
             k < |end.snapshots| && end.snapshots[k] == target
    ensures Step(Run(AdmitSnapshot(net, target, leader), evs).value, SnapshotForwarded(k)).None? <==>
            Dropped(evs, target) || (target == net.id && net.raft.None? && !RaftComes(evs))
  {
    var let := AdmitSnapshot(net, target, leader);
    var end := Run(let, evs).value;
    SnapshotsKeep(net, net.snapshots + [target]);
    assert EntryOk(net, target);
    RunKeeps(let, evs);
    RunSameId(let, evs);
    RunFacts.RegistryIsHistory(let, evs, target);
    DroppedIsLast(evs, target, net.nodes[target].info.value);
    RaftKept(let, evs);
    SnapshotForwardedKeeps(end, k);
  }

  /** The place in the queue of the call at place n after a message; None once it was forwarded. */
  function Moved(net: Net, ev: Event, n: nat): Option<nat> {
    if ev.SnapshotForwarded? && ev.k < |net.snapshots| && ev.k <= n then (if ev.k == n then None else Some(n - 1))
    else Some(n)
  }

  function Place(net: Net, evs: seq<Event>, n: nat): Option<nat>
    decreases |evs|
  {
    if evs == [] || Step(net, evs[0]).None? then Some(n)
    else match Moved(net, evs[0], n)
      case None => None
      case Some(m) => Place(Step(net, evs[0]).value, evs[1..], m)
  }

  lemma StepStays(net: Net, ev: Event, n: nat)
    requires n < |net.snapshots| && Step(net, ev).Some? && Moved(net, ev, n).Some?
    ensures var m, queue := Moved(net, ev, n).value, Step(net, ev).value.snapshots;
            m < |queue| && queue[m] == net.snapshots[n]
  {
    if WorkOf(ev).Some? {
      WorkIsStep(net, ev);
    }
  }

  /** A call that was let in waits until it is forwarded. */
  lemma {:induction false} CallStays(net: Net, evs: seq<Event>, n: nat)
    requires n < |net.snapshots| && Run(net, evs).Some? && Place(net, evs, n).Some?
    ensures var m, queue := Place(net, evs, n).value, Run(net, evs).value.snapshots;
            m < |queue| && queue[m] == net.snapshots[n]
    decreases |evs|
  {
    if evs != [] {
      StepStays(net, evs[0], n);
      CallStays(Step(net, evs[0]).value, evs[1..], Moved(net, evs[0], n).value);
    }
  }

  /* ---------- client requests ---------- */

  /**
   A client request misses a registered leader, with a not-leader error, exactly
   when the leader is another node that was disconnected before the request was
   continued and not connected again.
   */
  lemma LeaderMissed(net: Net, evs: seq<Event>)
    requires Inv(net) && Run(net, evs).Some?
    ensures ClientRoute(net, Run(net, evs).value).NotLeader? <==>
            var leader := RegisteredLeader(net);
            leader.Some? && leader.value != net.id && Dropped(evs, leader.value)
  {
    var later := Run(net, evs).value;
    RunKeeps(net, evs);
    RunSameId(net, evs);
    LeaderResolved(net, later);
    if RegisteredLeader(net).Some? {
      var leader := RegisteredLeader(net).value;
      assert EntryOk(net, leader);
      RunFacts.RegistryIsHistory(net, evs, leader);
      DroppedIsLast(evs, leader, net.nodes[leader].info.value);
    }
  }

  /* ---------- asking for the current leader ---------- */

  /** The last metrics message among these names this leader. */
  ghost predicate Names(evs: seq<Event>, leader: NodeId) {
    exists last :: NamesAt(evs, leader, last)
  }

  ghost predicate NamesAt(evs: seq<Event>, leader: NodeId, last: nat) {
    && last < |evs| && evs[last].MetricsArrived? && evs[last].metrics.currentLeader == Some(leader)
    && forall k :: last < k < |evs| ==> !evs[k].MetricsArrived?
  }

  function LastMetrics(evs: seq<Event>): (last: nat)
    ensures last <= |evs|
    ensures last > 0 ==> evs[last - 1].MetricsArrived?
    ensures forall k :: last <= k < |evs| ==> !evs[k].MetricsArrived?
  {
    if evs == [] then 0
    else if evs[|evs| - 1].MetricsArrived? then |evs| else LastMetrics(evs[..|evs| - 1])
  }

  /** A network that had no metrics knows exactly the leader that the last metrics message named. */
  lemma KnownIsNamed(net: Net, evs: seq<Event>, leader: NodeId)
    requires net.metrics.None? && Run(net, evs).Some?
    ensures KnownLeader(Run(net, evs).value) == Some(leader) <==> Names(evs, leader)
  {
    var last := LastMetrics(evs);
    if last == 0 {
      RunFacts.Unchanged(net, evs);
    } else {
      RunFacts.LatestKept(net, evs, last - 1);
      assert evs[last - 1].metrics.currentLeader == Some(leader) ==> NamesAt(evs, leader, last - 1);
      if j: nat :| NamesAt(evs, leader, j) {
        assert j == last - 1;
      }
    }
  }

  /** The network at each time, with the messages handled by then. */
  function NetAt(net: Net, handled: nat -> seq<Event>): nat -> Net {
    (time: nat) => var end := Run(net, handled(time)); if end.Some? then end.value else net
  }

  lemma {:induction false} BootKnowsNothing(net: Net, configured: map<NodeId, NodeRef>, order: seq<NodeId>)
    ensures StartNodes(net, configured, order).metrics == net.metrics
    decreases |order|
  {
    if order != [] {
      if order[0] in configured && configured[order[0]].info.Some? {
        var info := configured[order[0]].info.value;
        RegisterStatus(net, order[0], info);
        BootKnowsNothing(RegisterNode(net, order[0], info), configured, order[1..]);
      } else {
        BootKnowsNothing(net, configured, order[1..]);
      }
    }
  }

  ghost predicate NoneNamed(evs: seq<Event>) {
    forall leader: NodeId :: !Names(evs, leader)
  }

  lemma NoneKnown(net: Net, evs: seq<Event>)
    requires net.metrics.None? && Run(net, evs).Some?
    ensures KnownLeader(Run(net, evs).value).None? <==> NoneNamed(evs)
  {
    var known := KnownLeader(Run(net, evs).value);
    if known.Some? {
      KnownIsNamed(net, evs, known.value);
    } else {
      forall leader: NodeId ensures !Names(evs, leader) {
        KnownIsNamed(net, evs, leader);
      }
    }
  }

  /**
   A query for the current leader, told from the messages handled by each time it
   is handled: it panics exactly when by none of these times the last metrics
   message named a leader.
   */
  lemma QueryPanics(net: Net, handled: nat -> seq<Event>, time: nat, attempts: nat)
    requires net.metrics.None? && forall t: nat :: Run(net, handled(t)).Some?
    ensures AskLeader(NetAt(net, handled), time, attempts) == NoRetryLeft <==>
            forall t: nat :: time <= t <= time + attempts ==> NoneNamed(handled(t))
  {
    var nets := NetAt(net, handled);
    LeaderAnswered(nets, time, attempts);
    forall t: nat ensures KnownLeader(nets(t)).None? <==> NoneNamed(handled(t)) {
      assert Run(net, handled(t)).Some?;
      NoneKnown(net, handled(t));
    }
  }

  /** Otherwise it answers the leader named by the last metrics message, at the first time one is named. */
  lemma QueryAnswers(
    net: Net, handled: nat -> seq<Event>, time: nat, attempts: nat, t: nat, leader: NodeId)
    requires net.metrics.None? && forall u: nat :: Run(net, handled(u)).Some?
    requires time <= t <= time + attempts && Names(handled(t), leader)
    requires forall u: nat :: time <= u < t ==> NoneNamed(handled(u))
    ensures AskLeader(NetAt(net, handled), time, attempts) == CurrentLeader(leader)
  {
    var nets := NetAt(net, handled);
    LeaderAnswered(nets, time, attempts);
    assert Run(net, handled(t)).Some?;
    KnownIsNamed(net, handled(t), leader);
    assert KnownLeader(nets(t)) == Some(leader);
    forall u: nat | time <= u < t ensures KnownLeader(nets(u)).None? {
      assert Run(net, handled(u)).Some?;
      NoneKnown(net, handled(u));
    }
  }

  /** A fresh query is handled four times at most, and panics exactly if no leader is named at any of them. */
  lemma FreshQueryPanics(net: Net, handled: nat -> seq<Event>, time: nat)
    requires net.metrics.None? && Run(net, handled(time)).Some? && Run(net, handled(time + 1)).Some?
    requires Run(net, handled(time + 2)).Some? && Run(net, handled(time + 3)).Some?
    ensures AskLeader(NetAt(net, handled), time, LEADER_ATTEMPTS) == NoRetryLeft <==>
            && NoneNamed(handled(time)) && NoneNamed(handled(time + 1))
            && NoneNamed(handled(time + 2)) && NoneNamed(handled(time + 3))
  {
    KnownAt(net, handled, time);
    KnownAt(net, handled, time + 1);
    KnownAt(net, handled, time + 2);
    KnownAt(net, handled, time + 3);
    FourHandlings(NetAt(net, handled), time);
  }

  lemma KnownAt(net: Net, handled: nat -> seq<Event>, time: nat)
    requires net.metrics.None? && Run(net, handled(time)).Some?
    ensures KnownLeader(NetAt(net, handled)(time)).None? <==> NoneNamed(handled(time))
  {
    NoneKnown(net, handled(time));
  }

  lemma FourHandlings(nets: nat -> Net, time: nat)
    ensures AskLeader(nets, time, LEADER_ATTEMPTS) == NoRetryLeft <==>
            && KnownLeader(nets(time)).None? && KnownLeader(nets(time + 1)).None?
            && KnownLeader(nets(time + 2)).None? && KnownLeader(nets(time + 3)).None?
  {
    var t1, t2, t3 := time + 1, time + 2, time + 3;
    assert AskLeader(nets, t3, 0) == NoRetryLeft <==> KnownLeader(nets(t3)).None?;
    assert AskLeader(nets, t2, 1) == NoRetryLeft <==>
           KnownLeader(nets(t2)).None? && AskLeader(nets, t3, 0) == NoRetryLeft;
    assert AskLeader(nets, t1, 2) == NoRetryLeft <==>
           KnownLeader(nets(t1)).None? && AskLeader(nets, t2, 1) == NoRetryLeft;
  }

  /** A network that has just started has no metrics. */
  lemma BootHasNoMetrics(
    id: NodeId, info: NodeInfo, seeds: seq<NodeInfo>, idOf: string -> NodeId, order: seq<NodeId>, now: Time)
    ensures Boot(id, info, seeds, idOf, order, now).metrics == None
  {
    var net := ConfigureWith(New(id, info, now), seeds, idOf);
    ConfigureKeeps(New(id, info, now), seeds, idOf);
    BootKnowsNothing(net, net.nodes, order);
  }

  /* ---------- the panics happen ---------- */

  function Alone(id: NodeId, info: NodeInfo, idOf: string -> NodeId, now: Time): Net {
    Boot(id, info, [], idOf, [id], now)
  }

  lemma AloneShape(id: NodeId, info: NodeInfo, idOf: string -> NodeId, now: Time)
    ensures var boot := Alone(id, info, idOf, now);
            && Inv(boot) && boot.id == id && boot.raft.None? && boot.snapshots == [] && boot.state.isolated == {}
            && boot.nodes == map[id := NodeRef(id, Some(info), None)]
  {
    var net := New(id, info, now);
    BootOk(id, info, [], idOf, [id], now);
    assert Alone(id, info, idOf, now) == StartNodes(RegisterNode(net, id, info), net.nodes, [id][1..]);
  }

  lemma RunTo(net: Net, evs: seq<Event>, next: Net)
    requires evs != [] && Step(net, evs[0]) == Some(next)
    ensures Run(net, evs) == Run(next, evs[1..])
  {
  }

  /** A Raft registered after the own node was disconnected. */
  lemma RaftPanics(id: NodeId, info: NodeInfo, idOf: string -> NodeId, now: Time, raft: RaftAddress)
    ensures var boot := Alone(id, info, idOf, now);
            && Run(boot, [DisconnectArrived(id)]).Some?
            && Run(boot, [DisconnectArrived(id), RaftRegistered(raft)]).None?
  {
    AloneShape(id, info, idOf, now);
    var boot := Alone(id, info, idOf, now);
    var evs := [DisconnectArrived(id), RaftRegistered(raft)];
    assert [DisconnectArrived(id)][1..] == [];
    RunTo(boot, evs, DisconnectNode(boot, id));
    assert evs[1..][0] == RaftRegistered(raft);
  }

  /** A snapshot for the own node that is continued before Raft is registered, unless Raft comes in between. */
  lemma OwnSnapshotPanics(
    id: NodeId, info: NodeInfo, idOf: string -> NodeId, now: Time, leader: NodeId, raft: RaftAddress)
    ensures var boot := Alone(id, info, idOf, now);
            && Run(boot, [SnapshotArrived(id, leader), SnapshotForwarded(0)]).None?
            && Run(boot, [SnapshotArrived(id, leader), RaftRegistered(raft), SnapshotForwarded(0)]).Some?
  {
    AloneShape(id, info, idOf, now);
    var boot := Alone(id, info, idOf, now);
    var let := AdmitSnapshot(boot, id, leader);
    var short := [SnapshotArrived(id, leader), SnapshotForwarded(0)];
    var long := [SnapshotArrived(id, leader), RaftRegistered(raft), SnapshotForwarded(0)];
    RunTo(boot, short, let);
    RunTo(boot, long, let);
    SnapshotsKeep(boot, boot.snapshots + [id]);
    SnapshotForwardedKeeps(let, 0);
    assert short[1..][0] == SnapshotForwarded(0);
    RaftRegisteredKeeps(let, raft);
    var known := RegisterRaft(let, raft).value;
    assert long[1..][0] == RaftRegistered(raft);
    RunTo(let, long[1..], known);
    RaftLeaves(let, raft);
    SnapshotForwardedKeeps(known, 0);
    RunTo(known, long[1..][1..], ForwardSnapshot(known, 0).value);
    assert long[1..][1..][1..] == [];
  }

  lemma RaftLeaves(net: Net, raft: RaftAddress)
    requires net.id in net.nodes && RegisterRaft(net, raft).Some?
    ensures var net' := RegisterRaft(net, raft).value;
            && net'.snapshots == net.snapshots && net'.raft == Some(raft) && net'.id == net.id
            && net.nodes.Keys <= net'.nodes.Keys
            && (net.nodes[net.id].id == net.id ==> net'.nodes.Keys == net.nodes.Keys)
  {
  }

  /** With Raft registered: a snapshot for another node that is disconnected before the call is continued. */
  lemma DisconnectedSnapshotPanics(
    info: NodeInfo, other: NodeInfo, idOf: string -> NodeId, now: Time, raft: RaftAddress)
    ensures var boot := Alone(1, info, idOf, now);
            var evs := [RaftRegistered(raft), ConnectArrived(3, other), SnapshotArrived(3, 1), DisconnectArrived(3)];
            && Run(boot, evs).Some? && Run(boot, evs).value.raft.Some?
            && Step(Run(boot, evs).value, SnapshotForwarded(0)).None?
  {
    AloneShape(1, info, idOf, now);
    var boot := Alone(1, info, idOf, now);
    var evs := [RaftRegistered(raft), ConnectArrived(3, other), SnapshotArrived(3, 1), DisconnectArrived(3)];
    RaftRegisteredKeeps(boot, raft);
    RaftLeaves(boot, raft);
    RaftIsolates(boot, raft);
    var net1 := RegisterRaft(boot, raft).value;
    RegisteredThenDropped(net1, other);
    RunTo(boot, evs, net1);
    assert evs[1..] == [ConnectArrived(3, other), SnapshotArrived(3, 1), DisconnectArrived(3)];
  }

  lemma RegisteredThenDropped(net: Net, other: NodeInfo)
    requires net.snapshots == [] && net.state.isolated == {}
    ensures var evs := [ConnectArrived(3, other), SnapshotArrived(3, 1), DisconnectArrived(3)];
            var end := Run(net, evs);
            && end.Some? && end.value.raft == net.raft
            && end.value.snapshots == [3] && 3 !in end.value.nodes
  {
    var evs := [ConnectArrived(3, other), SnapshotArrived(3, 1), DisconnectArrived(3)];
    RegisterStatus(net, 3, other);
    var net2 := ConnectNode(net, 3, other);
    var net3 := AdmitSnapshot(net2, 3, 1);
    var net4 := DisconnectNode(net3, 3);
    RunTo(net, evs, net2);
    RunTo(net2, evs[1..], net3);
    RunTo(net3, evs[2..], net4);
    assert evs[3..] == [];
  }

  lemma RaftIsolates(net: Net, raft: RaftAddress)
    requires RegisterRaft(net, raft).Some?
    ensures RegisterRaft(net, raft).value.state.isolated <= net.state.isolated
  {
  }

  /** A client request that misses its leader: the leader is disconnected before the request is continued. */
  lemma LeaderMissedHappens(id: NodeId, info: NodeInfo, idOf: string -> NodeId, now: Time, leader: NodeInfo)
    requires id != 3
    ensures var boot := Alone(id, info, idOf, now);
            var evs := [ConnectArrived(3, leader), MetricsArrived(Metrics(Follower, Some(3)), now)];
            && Run(boot, evs).Some?
            && ClientRoute(Run(boot, evs).value, Run(boot, evs).value).Delegate?
            && ClientRoute(Run(boot, evs).value, DisconnectNode(Run(boot, evs).value, 3)) ==
               NotLeader(3, leader.clusterAddress)
  {
    AloneShape(id, info, idOf, now);
    var boot := Alone(id, info, idOf, now);
    var m := Metrics(Follower, Some(3));
    var evs := [ConnectArrived(3, leader), MetricsArrived(m, now)];
    var net1 := ConnectNode(boot, 3, leader);
    ConnectKeeps(boot, 3, leader);
    MetricsKeep(net1, m, now);
    var net2 := OnMetrics(net1, m, now).value;
    RunTo(boot, evs, net1);
    RunTo(net1, evs[1..], net2);
    assert evs[2..] == [];
    DisconnectKeeps(net2, 3);
    LeaderResolved(net2, net2);
    LeaderResolved(net2, DisconnectNode(net2, 3));
  }
}
