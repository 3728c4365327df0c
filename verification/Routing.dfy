/** Where a network sends Raft calls, client requests and cluster changes. */
module Routing {
  import opened Wrappers
  import opened RaftMessages
  import opened NetworkSpec
  import opened Registry

  /** The one condition under which a call is passed on: target registered, neither end isolated. */
  predicate Open(net: Net, target: NodeId, sender: NodeId) {
    target in net.nodes && target !in net.state.isolated && sender !in net.state.isolated
  }

  /**
   All three handlers let a call in under the same condition, once Raft is
   registered or for another node; the first two forward it at once, to the
   target's registered actor. A snapshot call is let in under that condition
   always, and goes to the actor registered when it is continued, or panics if
   there is none by then. Before Raft is registered the first two refuse calls
   for the own node.
   */
  lemma GatesAgree(net: Net, later: Net, target: NodeId, sender: NodeId)
    requires Inv(net) && Inv(later) && later.id == net.id
    ensures AppendEntriesGate(net, target, sender) == VoteGate(net, target, sender)
    ensures net.raft.Some? || target != net.id ==>
              && (Open(net, target, sender) ==>
                    && net.nodes[target].addr.Some?
                    && VoteGate(net, target, sender) == Forward(net.nodes[target].addr.value)
                    && net.actors[net.nodes[target].addr.value].id == target)
              && (!Open(net, target, sender) ==> VoteGate(net, target, sender) == Refuse)
              && InstallSnapshotGate(net, net, target, sender) == VoteGate(net, target, sender)
    ensures net.raft.None? && target == net.id ==> VoteGate(net, target, sender) == Refuse
    ensures InstallSnapshotGate(net, later, target, sender) ==
            if !Open(net, target, sender) then Refuse
            else if NoAddress(later, target) then Panic
            else Forward(later.nodes[target].addr.value)
  {
    assert target in net.nodes ==> EntryOk(net, target);
    assert target in later.nodes ==> EntryOk(later, target);
  }

  /** The leader the metrics know, if it is registered. */
  function RegisteredLeader(net: Net): Option<NodeId> {
    if net.metrics.Some? && net.metrics.value.currentLeader.Some?
       && net.metrics.value.currentLeader.value in net.nodes
    then Some(net.metrics.value.currentLeader.value)
    else None
  }

  /**
   Where a client request goes, for a leader resolved in one state and an address
   looked up in a later one: to nobody exactly when the leader was unknown or
   unregistered; an unknown error exactly when the network itself led before Raft
   was registered; a not-leader error, naming the leader, exactly when another
   node led and is not registered any more; else to the leader's actor.
   */
  lemma LeaderResolved(net: Net, later: Net)
    requires Inv(net) && Inv(later) && later.id == net.id
    ensures ClientRoute(net, later) ==
            match RegisteredLeader(net)
            case None => NoElectedLeader
            case Some(leader) =>
              if leader == net.id then
                (if net.raft.None? then Unknown else Delegate(net.nodes[leader].addr.value))
              else if leader !in later.nodes then NotLeader(leader, net.nodes[leader].info.value.clusterAddress)
              else Delegate(later.nodes[leader].addr.value)
    ensures ClientRoute(net, later).Delegate? ==>
              var leader := RegisteredLeader(net).value;
              var at := if leader == net.id then net else later;
              ClientRoute(net, later).addr < |at.actors| && at.actors[ClientRoute(net, later).addr].id == leader
  {
    if RegisteredLeader(net).Some? {
      var leader := RegisteredLeader(net).value;
      assert EntryOk(net, leader);
      assert leader in later.nodes ==> EntryOk(later, leader);
    }
  }

  /**
   If nothing happens in between, resolving the leader is one lookup: the address
   registered for the known leader, or no leader at all. Only a network that is
   itself the leader before Raft is registered gets an unknown error.
   */
  lemma LeaderIsLookup(net: Net)
    requires Inv(net)
    ensures ClientRoute(net, net) == NoElectedLeader <==> RegisteredLeader(net).None?
    ensures ClientRoute(net, net) == Unknown <==> RegisteredLeader(net) == Some(net.id) && net.raft.None?
    ensures !ClientRoute(net, net).NotLeader?
    ensures ClientRoute(net, net).Delegate? ==>
              var leader := RegisteredLeader(net);
              leader.Some? && net.nodes[leader.value].addr == Some(ClientRoute(net, net).addr)
              && net.actors[ClientRoute(net, net).addr].id == leader.value
    ensures ConnectAcknowledged(net) <==> !(RegisteredLeader(net) == Some(net.id) && net.raft.None?)
  {
    LeaderResolved(net, net);
    if RegisteredLeader(net).Some? {
      assert EntryOk(net, RegisteredLeader(net).value);
    }
  }

  /* ---------- asking for the current leader ---------- */

  datatype LeaderAnswer = CurrentLeader(leader: NodeId) | NoRetryLeft

  const LEADER_ATTEMPTS := 3

  function KnownLeader(net: Net): Option<NodeId> {
    if net.metrics.Some? then net.metrics.value.currentLeader else None
  }

  /**
   A query for the current leader, handled in state `nets(time)`. Without a
   leader it waits and retries; a query that has no attempt left panics. It
   starts with three.
   */
  function AskLeader(nets: nat -> Net, time: nat, attempts: nat): LeaderAnswer
    decreases attempts
  {
    match KnownLeader(nets(time))
    case Some(leader) => CurrentLeader(leader)
    case None => if attempts == 0 then NoRetryLeft else AskLeader(nets, time + 1, attempts - 1)
  }

  /** It panics exactly when no leader is known at any of the times it is handled, and else tells the first known. */
  lemma {:induction false} LeaderAnswered(nets: nat -> Net, time: nat, attempts: nat)
    ensures AskLeader(nets, time, attempts) == NoRetryLeft <==>
            forall t: nat :: time <= t <= time + attempts ==> KnownLeader(nets(t)).None?
    ensures forall t: nat ::
              time <= t <= time + attempts && KnownLeader(nets(t)).Some?
              && (forall u: nat :: time <= u < t ==> KnownLeader(nets(u)).None?) ==>
                AskLeader(nets, time, attempts) == CurrentLeader(KnownLeader(nets(t)).value)
    decreases attempts
  {
    if KnownLeader(nets(time)).None? && attempts > 0 {
      LeaderAnswered(nets, time + 1, attempts - 1);
    }
  }

  /**
   After any run, a cluster change is passed on only to the actor of the own
   node, and whenever an actor gets to a waiting cluster change it proposes
   exactly that change to the local Raft.
   */
  lemma ChangesStayLocal(net: Net, k: nat, a: Address)
    requires Inv(net)
    ensures k < |net.changes| && LeaderDelegate(net).Delegate? ==>
              LeaderDelegate(net).addr < |net.actors| && net.actors[LeaderDelegate(net).addr].id == net.id
    ensures a < |net.actors| && net.actors[a].inbox != [] && net.actors[a].inbox[0].ChangeClusterConfig? ==>
              var actor, msg := net.actors[a], net.actors[a].inbox[0];
              && actor.id == net.id && actor.proximity.Local?
              && HandleMessage(actor).Some?
              && HandleMessage(actor).value.proposals == actor.proposals + [(msg.toAdd, msg.toRemove)]
  {
    if LeaderRef(net).Some? {
      assert EntryOk(net, net.metrics.value.currentLeader.value);
    }
    if a < |net.actors| {
      assert Placed(net.actors[a], net.id);
    }
  }

  /** From startup on, every run has the registry, gate and placement facts above; panics are the two listed. */
  lemma RunFromBoot(
    id: NodeId, info: NodeInfo, seeds: seq<NodeInfo>, idOf: string -> NodeId, order: seq<NodeId>, now: int,
    evs: seq<Event>, ev: Event)
    requires Visits(order, ConfigureWith(New(id, info, now), seeds, idOf).nodes)
    requires Run(Boot(id, info, seeds, idOf, order, now), evs).Some?
    ensures var net := Run(Boot(id, info, seeds, idOf, order, now), evs).value;
            && Inv(net)
            && (Step(net, ev).None? <==> Panics(net, ev))
            && (net.raft.Some? ==>
                  forall j :: j in net.nodes ==> net.nodes[j].info.Some? && net.nodes[j].addr.Some?)
  {
    BootOk(id, info, seeds, idOf, order, now);
    RunKeeps(Boot(id, info, seeds, idOf, order, now), evs);
    var net := Run(Boot(id, info, seeds, idOf, order, now), evs).value;
    StepKeeps(net, ev);
    forall j | j in net.nodes ensures net.raft.Some? ==> net.nodes[j].info.Some? && net.nodes[j].addr.Some? {
      assert EntryOk(net, j);
    }
  }

  /**
   The messages of one actor in any run: some failures of one attempt, then
   weakly connected, then connected, or a prefix of that; one attempt at a time.
   */
  lemma ActorsSpeakInRuns(
    id: NodeId, info: NodeInfo, seeds: seq<NodeInfo>, idOf: string -> NodeId, order: seq<NodeId>, now: int,
    evs: seq<Event>, a: Address)
    requires Visits(order, ConfigureWith(New(id, info, now), seeds, idOf).nodes)
    requires Run(Boot(id, info, seeds, idOf, order, now), evs).Some?
    requires a < |Run(Boot(id, info, seeds, idOf, order, now), evs).value.actors|
    ensures var actor := Run(Boot(id, info, seeds, idOf, order, now), evs).value.actors[a];
            && actor.connects + actor.timers + actor.tasks <= 1
            && Language(actor.sent)
            && (Connected in actor.sent <==> actor.connects + actor.timers + actor.tasks == 0)
            && (actor.proximity.Local? <==> actor.id == id)
  {
    BootOk(id, info, seeds, idOf, order, now);
    RunKeeps(Boot(id, info, seeds, idOf, order, now), evs);
    RunSameId(Boot(id, info, seeds, idOf, order, now), evs);
    var actor := Run(Boot(id, info, seeds, idOf, order, now), evs).value.actors[a];
    assert Speaks(actor) && Placed(actor, id);
    ActorLanguage(actor);
  }

  lemma {:induction false} RunSameId(net: Net, evs: seq<Event>)
    ensures Run(net, evs).Some? ==> Run(net, evs).value.id == net.id
    decreases |evs|
  {
    if evs != [] && Step(net, evs[0]).Some? {
      RunSameId(Step(net, evs[0]).value, evs[1..]);
    }
  }
}
