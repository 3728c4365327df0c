/**
 The connected and isolated nodes of a network told from its messages: in every
 run, also with disconnects and before it is quiet.
 */
module NodeSetHistory {
  import opened Wrappers
  import opened RaftMessages
  import opened NetStateSpec
  import opened NetworkSpec
  import opened Registry
  import opened NetStateLemmas

  /**
   What a message does to the sets: registering a node restores it, a handled
   status of a registered node isolates or restores it.
   */
  function SetEvent(net: Net, ev: Event): seq<NodeEvent> {
    match ev
    case RaftRegistered(_) =>
      if net.id in net.nodes && net.nodes[net.id].info.Some? && net.nodes[net.id].addr.None?
      then [Restore(net.id)] else []
    case ConnectArrived(id, info) => if InfoKnown(net, id, info) then [] else [Restore(id)]
    case StatusHandled(a) =>
      if a < |net.actors| && net.actors[a].delivered < |net.actors[a].sent| && net.actors[a].id in net.nodes
      then WordEvent(net.actors[a].id, net.actors[a].sent[net.actors[a].delivered]) else []
    case _ => []
  }

  predicate InfoKnown(net: Net, id: NodeId, info: NodeInfo) {
    id in net.nodes && net.nodes[id].info == Some(info)
  }

  function WordEvent(id: NodeId, word: NodeStatus): seq<NodeEvent> {
    match word
    case Connected => [Restore(id)]
    case Failure(_) => []
    case _ => [Isolate(id)]
  }

  function SetEvents(net: Net, evs: seq<Event>): seq<NodeEvent>
    decreases |evs|
  {
    if evs == [] || Step(net, evs[0]).None? then []
    else SetEvent(net, evs[0]) + SetEvents(Step(net, evs[0]).value, evs[1..])
  }

  predicate SameSets(s: NetState, t: NetState) {
    s.connected == t.connected && s.isolated == t.isolated
  }

  lemma {:induction false} SameSetsRun(s: NetState, t: NetState, evs: seq<NodeEvent>)
    requires SameSets(s, t)
    ensures SameSets(RunNodes(s, evs), RunNodes(t, evs))
  {
    if evs != [] {
      SameSetsRun(s, t, evs[..|evs| - 1]);
    }
  }

  lemma {:induction false} RunNodesJoin(s: NetState, a: seq<NodeEvent>, b: seq<NodeEvent>)
    ensures RunNodes(s, a + b) == RunNodes(RunNodes(s, a), b)
    decreases |b|
  {
    if b == [] {
      assert a + b == a;
    } else {
      assert (a + b)[..|a + b| - 1] == a + b[..|b| - 1];
      RunNodesJoin(s, a, b[..|b| - 1]);
    }
  }

  lemma RunNone(s: NetState)
    ensures RunNodes(s, []) == s
  {
  }

  lemma RunOne(s: NetState, ev: NodeEvent)
    ensures RunNodes(s, [ev]) == OnNode(s, ev)
  {
    assert [ev][..0] == [];
  }

  lemma RaftSets(net: Net, raft: RaftAddress)
    requires RegisterRaft(net, raft).Some?
    ensures var evs := SetEvent(net, RaftRegistered(raft));
            var s := RegisterRaft(net, raft).value.state;
            if net.id in net.nodes && net.nodes[net.id].info.Some? && net.nodes[net.id].addr.None?
               && net.nodes[net.id].id == net.id
            then s == RestoreNode(net.state, net.id) else s == net.state || net.nodes[net.id].id != net.id
  {
  }

  lemma StatusSets(net: Net, a: Address)
    ensures SameSets(HandleStatus(net, a).state, RunNodes(net.state, SetEvent(net, StatusHandled(a))))
  {
    RunNone(net.state);
    if a < |net.actors| {
      RunOne(net.state, Restore(net.actors[a].id));
      RunOne(net.state, Isolate(net.actors[a].id));
    }
  }

  lemma StepSets(net: Net, ev: Event)
    requires Inv(net) && Step(net, ev).Some?
    ensures SameSets(Step(net, ev).value.state, RunNodes(net.state, SetEvent(net, ev)))
  {
    RunNone(net.state);
    match ev
    case RaftRegistered(raft) =>
      assert EntryOk(net, net.id);
      RaftSets(net, raft);
      RunOne(net.state, Restore(net.id));
    case ConnectArrived(id, info) =>
      RegisterStatus(net, id, info);
      RunOne(net.state, Restore(id));
    case StatusHandled(a) => StatusSets(net, a);
    case ProximitySent =>
    case MetricsArrived(_, _) =>
    case ChangeDelegated(_) =>
    case DisconnectArrived(_) =>
    case DisconnectAsked(_) =>
    case SnapshotArrived(_, _) =>
    case SnapshotForwarded(_) =>
    case _ => WorkIsStep(net, ev);
  }

  lemma {:induction false} RunSets(net: Net, evs: seq<Event>)
    requires Inv(net) && Run(net, evs).Some?
    ensures SameSets(Run(net, evs).value.state, RunNodes(net.state, SetEvents(net, evs)))
    decreases |evs|
  {
    RunNone(net.state);
    if evs != [] {
      var next := Step(net, evs[0]).value;
      Registry.StepKeeps(net, evs[0]);
      StepSets(net, evs[0]);
      RunSets(next, evs[1..]);
      RunNodesJoin(net.state, SetEvent(net, evs[0]), SetEvents(next, evs[1..]));
      SameSetsRun(next.state, RunNodes(net.state, SetEvent(net, evs[0])), SetEvents(next, evs[1..]));
    }
  }

  /**
   After any run from startup, a node is isolated exactly when it was isolated by
   a handled status and not restored since, and connected exactly when it was
   isolated once and the last of these events is a restore.
   */
  lemma SetsFromBoot(
    id: NodeId, info: NodeInfo, seeds: seq<NodeInfo>, idOf: string -> NodeId, order: seq<NodeId>, now: Time,
    evs: seq<Event>, node: NodeId)
    requires Visits(order, ConfigureWith(New(id, info, now), seeds, idOf).nodes)
    requires Run(Boot(id, info, seeds, idOf, order, now), evs).Some?
    ensures var boot := Boot(id, info, seeds, idOf, order, now);
            var s := Run(boot, evs).value.state;
            && (node in s.isolated <==> IsolatedSince(SetEvents(boot, evs), node))
            && (node in s.connected <==> RestoredSince(SetEvents(boot, evs), node))
  {
    var boot := Boot(id, info, seeds, idOf, order, now);
    BootOk(id, info, seeds, idOf, order, now);
    RunSets(boot, evs);
    SameSetsRun(boot.state, Default(now), SetEvents(boot, evs));
    NodeSetsAreHistory(now, SetEvents(boot, evs), node);
  }
}
