/** What becomes of the cluster changes that connects ask for. */
module ClusterChanges {
  import opened Wrappers
  import opened RaftMessages
  import opened NetStateSpec
  import opened NetworkSpec
  import opened Registry

  function Count(ids: seq<NodeId>, id: NodeId): nat {
    if ids == [] then 0 else (if ids[0] == id then 1 else 0) + Count(ids[1..], id)
  }

  lemma {:induction false} CountJoined(a: seq<NodeId>, b: seq<NodeId>, id: NodeId)
    ensures Count(a + b, id) == Count(a, id) + Count(b, id)
  {
    if a == [] {
      assert a + b == b;
    } else {
      assert (a + b)[1..] == a[1..] + b;
      CountJoined(a[1..], b, id);
    }
  }

  lemma CountWithout(ids: seq<NodeId>, k: nat, id: NodeId)
    requires k < |ids|
    ensures Count(ids, id) == Count(ids[..k] + ids[k + 1..], id) + Count([ids[k]], id)
  {
    assert ids == ids[..k] + ([ids[k]] + ids[k + 1..]);
    CountJoined(ids[..k], [ids[k]] + ids[k + 1..], id);
    CountJoined([ids[k]], ids[k + 1..], id);
    CountJoined(ids[..k], ids[k + 1..], id);
  }

  /** How often adding this node waits in a mailbox. */
  function Waiting(inbox: seq<NodeMessage>, id: NodeId): nat {
    if inbox == [] then 0
    else (if inbox[0].ChangeClusterConfig? then Count(inbox[0].toAdd, id) else 0) + Waiting(inbox[1..], id)
  }

  lemma {:induction false} WaitingAppend(inbox: seq<NodeMessage>, msg: NodeMessage, id: NodeId)
    ensures Waiting(inbox + [msg], id) == Waiting(inbox, id) + Waiting([msg], id)
  {
    if inbox == [] {
      assert inbox + [msg] == [msg];
    } else {
      assert (inbox + [msg])[1..] == inbox[1..] + [msg];
      WaitingAppend(inbox[1..], msg, id);
    }
  }

  /** How often adding this node was proposed to Raft. */
  function Proposed(proposals: seq<(seq<NodeId>, seq<NodeId>)>, id: NodeId): nat {
    if proposals == [] then 0 else Count(proposals[0].0, id) + Proposed(proposals[1..], id)
  }

  lemma {:induction false} ProposedAppend(
    proposals: seq<(seq<NodeId>, seq<NodeId>)>, p: (seq<NodeId>, seq<NodeId>), id: NodeId)
    ensures Proposed(proposals + [p], id) == Proposed(proposals, id) + Count(p.0, id)
  {
    if proposals == [] {
      assert proposals + [p] == [p];
    } else {
      assert (proposals + [p])[1..] == proposals[1..] + [p];
      ProposedAppend(proposals[1..], p, id);
    }
  }

  function HeldBy(a: Actor, id: NodeId): nat {
    Waiting(a.inbox, id) + Proposed(a.proposals, id)
  }

  function Held(actors: seq<Actor>, id: NodeId): nat {
    if actors == [] then 0 else HeldBy(actors[0], id) + Held(actors[1..], id)
  }

  lemma {:induction false} HeldUpdate(actors: seq<Actor>, a: nat, b: Actor, id: NodeId)
    requires a < |actors|
    ensures Held(actors[a := b], id) + HeldBy(actors[a], id) == Held(actors, id) + HeldBy(b, id)
    decreases |actors|
  {
    var actors' := actors[a := b];
    if a == 0 {
      assert actors'[1..] == actors[1..];
    } else {
      assert actors'[1..] == actors[1..][a - 1 := b];
      HeldUpdate(actors[1..], a - 1, b, id);
    }
  }

  lemma {:induction false} HeldAppend(actors: seq<Actor>, b: Actor, id: NodeId)
    ensures Held(actors + [b], id) == Held(actors, id) + HeldBy(b, id)
  {
    if actors == [] {
      assert actors + [b] == [b];
    } else {
      assert (actors + [b])[1..] == actors[1..] + [b];
      HeldAppend(actors[1..], b, id);
    }
  }

  /** Cluster changes for a node that are with the network, in a mailbox, or proposed. */
  function Pending(net: Net, id: NodeId): nat {
    Count(net.changes, id) + Held(net.actors, id)
  }

  /** A cluster change for this node meets a network that does not lead. */
  predicate Turned(net: Net, ev: Event, id: NodeId) {
    ev.ChangeDelegated? && ev.k < |net.changes| && net.changes[ev.k] == id && !LeaderDelegate(net).Delegate?
  }

  /** How often that happens in a run. */
  function TurnedAway(net: Net, evs: seq<Event>, id: NodeId): nat
    decreases |evs|
  {
    if evs == [] || Step(net, evs[0]).None? then 0
    else (if Turned(net, evs[0], id) then 1 else 0) + TurnedAway(Step(net, evs[0]).value, evs[1..], id)
  }

  /** How often a connect asked for it. */
  function Asked(evs: seq<Event>, id: NodeId): nat {
    if evs == [] then 0
    else (if evs[0].ConnectArrived? && evs[0].id == id then 1 else 0) + Asked(evs[1..], id)
  }

  lemma SendHeld(net: Net, a: Address, msg: NodeMessage, id: NodeId)
    requires a < |net.actors|
    ensures Held(Send(net, a, msg).actors, id) == Held(net.actors, id) + Waiting([msg], id)
  {
    var b := net.actors[a].(inbox := net.actors[a].inbox + [msg]);
    WaitingAppend(net.actors[a].inbox, msg, id);
    HeldUpdate(net.actors, a, b, id);
  }

  lemma RegisterHeld(net: Net, node: NodeId, info: NodeInfo, id: NodeId)
    ensures Pending(RegisterNode(net, node, info), id) == Pending(net, id)
  {
    var net' := RegisterNode(net, node, info);
    if net'.actors != net.actors {
      HeldAppend(net.actors, net'.actors[|net.actors|], id);
    }
  }

  lemma RaftHeld(net: Net, raft: RaftAddress, id: NodeId)
    requires net.id in net.nodes && EntryOk(net, net.id) && RegisterRaft(net, raft).Some?
    ensures Pending(RegisterRaft(net, raft).value, id) == Pending(net, id)
  {
    var net' := net.(raft := Some(raft));
    match net.nodes[net.id].addr
    case None => RegisterHeld(net', net.id, net.nodes[net.id].info.value, id);
    case Some(_) =>
  }

  lemma ProximityHeld(net: Net, id: NodeId)
    requires UpdatesOk(net)
    ensures Pending(SendProximity(net), id) == Pending(net, id)
  {
    if net.updates != [] {
      SendHeld(
        net.(updates := net.updates[1..]), net.updates[0].0, UpdateProximity(net.updates[0].1), id);
    }
  }

  lemma ConnectHeld(net: Net, node: NodeId, info: NodeInfo, id: NodeId)
    ensures Pending(ConnectNode(net, node, info), id) == Pending(net, id) + (if node == id then 1 else 0)
  {
    RegisterHeld(net, node, info, id);
    CountJoined(net.changes, [node], id);
    RegisterChanges(net, node, info);
  }

  lemma RegisterChanges(net: Net, node: NodeId, info: NodeInfo)
    ensures RegisterNode(net, node, info).changes == net.changes
  {
  }

  lemma DelegateHeld(net: Net, k: nat, id: NodeId)
    requires Inv(net)
    ensures Pending(DelegateChange(net, k), id) + (if Turned(net, ChangeDelegated(k), id) then 1 else 0) ==
            Pending(net, id)
  {
    if k < |net.changes| {
      var net' := net.(changes := net.changes[..k] + net.changes[k + 1..]);
      CountWithout(net.changes, k, id);
      if LeaderDelegate(net).Delegate? {
        assert EntryOk(net, net.id);
        SendHeld(net', LeaderDelegate(net).addr, ChangeClusterConfig([net.changes[k]], []), id);
      }
    }
  }

  lemma StatusHeld(net: Net, a: Address, id: NodeId)
    ensures Pending(HandleStatus(net, a), id) == Pending(net, id)
  {
    if a < |net.actors| && net.actors[a].delivered < |net.actors[a].sent| {
      HeldUpdate(net.actors, a, net.actors[a].(delivered := net.actors[a].delivered + 1), id);
    }
  }

  /** Work of an actor moves a change at most from its mailbox to its proposals. */
  lemma WorkHeld(a: Actor, w: Work, id: NodeId)
    requires Do(a, w).Some?
    ensures HeldBy(Do(a, w).value, id) == HeldBy(a, id)
  {
    if w.Message? && a.inbox != [] && a.inbox[0].ChangeClusterConfig? {
      ProposedAppend(a.proposals, (a.inbox[0].toAdd, a.inbox[0].toRemove), id);
    }
  }

  lemma WorkStepHeld(net: Net, ev: Event, id: NodeId)
    requires WorkOf(ev).Some? && Step(net, ev).Some?
    ensures Pending(Step(net, ev).value, id) == Pending(net, id)
  {
    WorkIsStep(net, ev);
    var (a, w) := WorkOf(ev).value;
    if a < |net.actors| {
      WorkHeld(net.actors[a], w, id);
      HeldUpdate(net.actors, a, Do(net.actors[a], w).value, id);
    }
  }

  lemma ChangeStep(net: Net, ev: Event, id: NodeId)
    requires Inv(net) && Step(net, ev).Some?
    ensures Pending(Step(net, ev).value, id) + (if Turned(net, ev, id) then 1 else 0) ==
            Pending(net, id) + Asked([ev], id)
  {
    assert [ev][1..] == [];
    match ev
    case RaftRegistered(raft) => assert EntryOk(net, net.id); RaftHeld(net, raft, id);
    case ProximitySent => ProximityHeld(net, id);
    case ConnectArrived(node, info) => ConnectHeld(net, node, info, id);
    case ChangeDelegated(k) => DelegateHeld(net, k, id);
    case StatusHandled(a) => StatusHeld(net, a, id);
    case DisconnectAsked(a) => DisconnectHeld(net, a, id);
    case _ =>
      if WorkOf(ev).Some? {
        WorkStepHeld(net, ev, id);
      } else {
        OtherHeld(net, ev, id);
      }
  }

  lemma DisconnectHeld(net: Net, a: Address, id: NodeId)
    ensures Pending(Send(net, a, Disconnect), id) == Pending(net, id)
  {
    if a < |net.actors| {
      SendHeld(net, a, Disconnect, id);
    }
  }

  lemma OtherHeld(net: Net, ev: Event, id: NodeId)
    requires ev.MetricsArrived? || ev.DisconnectArrived? || ev.SnapshotArrived? || ev.SnapshotForwarded?
    requires Step(net, ev).Some?
    ensures Pending(Step(net, ev).value, id) == Pending(net, id)
  {
  }

  /**
   No cluster change is lost or doubled: after any run, every connect of a node
   is accounted for once, as waiting in the network or a mailbox, as proposed to
   the local Raft, or as turned away because the network did not lead.
   */
  lemma {:induction false} ChangesConserved(net: Net, evs: seq<Event>, id: NodeId)
    requires Inv(net) && Run(net, evs).Some?
    ensures Pending(Run(net, evs).value, id) + TurnedAway(net, evs, id) == Pending(net, id) + Asked(evs, id)
    decreases |evs|
  {
    if evs != [] {
      Registry.StepKeeps(net, evs[0]);
      ChangeStep(net, evs[0], id);
      assert Asked(evs, id) == Asked([evs[0]], id) + Asked(evs[1..], id);
      ChangesConserved(Step(net, evs[0]).value, evs[1..], id);
    }
  }

  lemma {:induction false} StartedPending(net: Net, configured: map<NodeId, NodeRef>, order: seq<NodeId>, id: NodeId)
    ensures Pending(StartNodes(net, configured, order), id) == Pending(net, id)
    decreases |order|
  {
    if order != [] {
      if order[0] in configured && configured[order[0]].info.Some? {
        var info := configured[order[0]].info.value;
        RegisterHeld(net, order[0], info, id);
        StartedPending(RegisterNode(net, order[0], info), configured, order[1..], id);
      } else {
        StartedPending(net, configured, order[1..], id);
      }
    }
  }

  /**
   So after any run from startup, with nothing waiting any more, every connect
   of a node was proposed to the local Raft exactly once or turned away.
   */
  lemma ChangesSettle(
    own: NodeId, info: NodeInfo, seeds: seq<NodeInfo>, idOf: string -> NodeId, order: seq<NodeId>, now: Time,
    evs: seq<Event>, id: NodeId)
    requires Visits(order, ConfigureWith(New(own, info, now), seeds, idOf).nodes)
    requires Run(Boot(own, info, seeds, idOf, order, now), evs).Some?
    ensures var boot := Boot(own, info, seeds, idOf, order, now);
            var end := Run(boot, evs).value;
            && Pending(end, id) + TurnedAway(boot, evs, id) == Asked(evs, id)
            && (id !in end.changes && (forall a :: 0 <= a < |end.actors| ==> end.actors[a].inbox == []) ==>
                  AllProposed(end.actors, id) + TurnedAway(boot, evs, id) == Asked(evs, id))
            && (forall a, j :: 0 <= a < |end.actors| && 0 <= j < |end.actors[a].proposals| ==>
                  && end.actors[a].proposals[j].1 == []
                  && |end.actors[a].proposals[j].0| == 1 && end.actors[a].proposals[j].0[0] in Named(evs))
  {
    ChangesOnlyAdd(own, info, seeds, idOf, order, now, evs);
    var net := ConfigureWith(New(own, info, now), seeds, idOf);
    var boot := Boot(own, info, seeds, idOf, order, now);
    ConfigureKeeps(New(own, info, now), seeds, idOf);
    StartedPending(net, net.nodes, order, id);
    BootOk(own, info, seeds, idOf, order, now);
    ChangesConserved(boot, evs, id);
    var end := Run(boot, evs).value;
    if id !in end.changes && forall a :: 0 <= a < |end.actors| ==> end.actors[a].inbox == [] {
      CountAbsent(end.changes, id);
      HeldWhenHandled(end.actors, id);
    }
  }

  /* ---------- what the changes ask for ---------- */

  /** The ids that connects named. */
  function Named(evs: seq<Event>): set<NodeId> {
    set k | 0 <= k < |evs| && evs[k].ConnectArrived? :: evs[k].id
  }

  /** This change adds one of these nodes and removes none. */
  predicate AddsOne(toAdd: seq<NodeId>, toRemove: seq<NodeId>, ids: set<NodeId>) {
    |toAdd| == 1 && toAdd[0] in ids && toRemove == []
  }

  predicate ActorAdds(a: Actor, ids: set<NodeId>) {
    && (forall j :: 0 <= j < |a.inbox| && a.inbox[j].ChangeClusterConfig? ==>
          AddsOne(a.inbox[j].toAdd, a.inbox[j].toRemove, ids))
    && (forall j :: 0 <= j < |a.proposals| ==> AddsOne(a.proposals[j].0, a.proposals[j].1, ids))
  }

  /** All cluster changes, wherever they are, add one of these nodes each and remove none. */
  ghost predicate ChangesAdd(net: Net, ids: set<NodeId>) {
    && (forall j :: 0 <= j < |net.changes| ==> net.changes[j] in ids)
    && (forall a :: 0 <= a < |net.actors| ==> ActorAdds(net.actors[a], ids))
  }

  lemma ActorAddsMore(a: Actor, ids: set<NodeId>, more: set<NodeId>)
    requires ActorAdds(a, ids) && ids <= more
    ensures ActorAdds(a, more)
  {
  }

  lemma SendAdds(net: Net, a: Address, msg: NodeMessage, ids: set<NodeId>)
    requires ChangesAdd(net, ids)
    requires msg.ChangeClusterConfig? ==> AddsOne(msg.toAdd, msg.toRemove, ids)
    ensures ChangesAdd(Send(net, a, msg), ids)
  {
    if a < |net.actors| {
      assert ActorAdds(net.actors[a].(inbox := net.actors[a].inbox + [msg]), ids);
    }
  }

  lemma RegisterAdds(net: Net, id: NodeId, info: NodeInfo, ids: set<NodeId>)
    requires ChangesAdd(net, ids)
    ensures ChangesAdd(RegisterNode(net, id, info), ids)
  {
    var net' := RegisterNode(net, id, info);
    forall a | 0 <= a < |net'.actors| ensures ActorAdds(net'.actors[a], ids) {
      if a < |net.actors| {
        assert net'.actors[a] == net.actors[a];
      }
    }
  }

  lemma RaftAdds(net: Net, raft: RaftAddress, ids: set<NodeId>)
    requires ChangesAdd(net, ids) && RegisterRaft(net, raft).Some?
    ensures ChangesAdd(RegisterRaft(net, raft).value, ids)
  {
    var ref := net.nodes[net.id];
    if ref.info.Some? && ref.addr.None? {
      RegisterAdds(net.(raft := Some(raft)), ref.id, ref.info.value, ids);
    }
  }

  lemma DelegateAdds(net: Net, k: nat, ids: set<NodeId>)
    requires ChangesAdd(net, ids)
    ensures ChangesAdd(DelegateChange(net, k), ids)
  {
    if k < |net.changes| {
      var net' := net.(changes := net.changes[..k] + net.changes[k + 1..]);
      if LeaderDelegate(net).Delegate? {
        SendAdds(net', LeaderDelegate(net).addr, ChangeClusterConfig([net.changes[k]], []), ids);
      }
    }
  }

  lemma WorkAdds(a: Actor, w: Work, ids: set<NodeId>)
    requires ActorAdds(a, ids) && Do(a, w).Some?
    ensures ActorAdds(Do(a, w).value, ids)
  {
    if w.Message? && a.inbox != [] {
      assert forall j :: 0 <= j < |a.inbox| - 1 ==> a.inbox[1..][j] == a.inbox[j + 1];
    }
  }

  lemma WorkStepAdds(net: Net, ev: Event, ids: set<NodeId>)
    requires ChangesAdd(net, ids) && WorkOf(ev).Some? && Step(net, ev).Some?
    ensures ChangesAdd(Step(net, ev).value, ids)
  {
    WorkIsStep(net, ev);
    var (a, w) := WorkOf(ev).value;
    if a < |net.actors| {
      WorkAdds(net.actors[a], w, ids);
    }
  }

  lemma StatusAdds(net: Net, a: Address, ids: set<NodeId>)
    requires ChangesAdd(net, ids)
    ensures ChangesAdd(HandleStatus(net, a), ids)
  {
    if a < |net.actors| {
      assert ActorAdds(net.actors[a].(delivered := net.actors[a].delivered + 1), ids);
    }
  }

  lemma ConnectAdds(net: Net, id: NodeId, info: NodeInfo, ids: set<NodeId>)
    requires ChangesAdd(net, ids) && id in ids
    ensures ChangesAdd(ConnectNode(net, id, info), ids)
  {
    RegisterAdds(net, id, info, ids);
  }

  lemma StepAdds(net: Net, ev: Event, ids: set<NodeId>)
    requires ChangesAdd(net, ids) && Step(net, ev).Some? && (ev.ConnectArrived? ==> ev.id in ids)
    ensures ChangesAdd(Step(net, ev).value, ids)
  {
    match ev
    case RaftRegistered(raft) => RaftAdds(net, raft, ids);
    case ProximitySent =>
      if net.updates != [] {
        SendAdds(
          net.(updates := net.updates[1..]), net.updates[0].0, UpdateProximity(net.updates[0].1), ids);
      }
    case ConnectArrived(id, info) => ConnectAdds(net, id, info, ids);
    case ChangeDelegated(k) => DelegateAdds(net, k, ids);
    case StatusHandled(a) => StatusAdds(net, a, ids);
    case DisconnectAsked(a) => SendAdds(net, a, Disconnect, ids);
    case MetricsArrived(_, _) =>
    case DisconnectArrived(_) =>
    case SnapshotArrived(_, _) =>
    case SnapshotForwarded(_) =>
    case _ => WorkStepAdds(net, ev, ids);
  }

  lemma {:induction false} RunAdds(net: Net, evs: seq<Event>, ids: set<NodeId>)
    requires ChangesAdd(net, ids) && Run(net, evs).Some? && Named(evs) <= ids
    ensures ChangesAdd(Run(net, evs).value, ids)
    decreases |evs|
  {
    if evs != [] {
      assert evs[0].ConnectArrived? ==> evs[0].id in Named(evs);
      assert Named(evs[1..]) <= Named(evs) by {
        assert forall k :: 0 <= k < |evs| - 1 ==> evs[1..][k] == evs[k + 1];
      }
      StepAdds(net, evs[0], ids);
      RunAdds(Step(net, evs[0]).value, evs[1..], ids);
    }
  }

  lemma {:induction false} StartedAdds(net: Net, configured: map<NodeId, NodeRef>, order: seq<NodeId>)
    requires ChangesAdd(net, {})
    ensures ChangesAdd(StartNodes(net, configured, order), {})
    decreases |order|
  {
    if order != [] {
      if order[0] in configured && configured[order[0]].info.Some? {
        var info := configured[order[0]].info.value;
        RegisterAdds(net, order[0], info, {});
        StartedAdds(RegisterNode(net, order[0], info), configured, order[1..]);
      } else {
        StartedAdds(net, configured, order[1..]);
      }
    }
  }

  /**
   After any run from startup, every cluster change that waits in a mailbox and
   every one that was proposed to Raft removes nobody and adds exactly one node,
   which some connect of the run named.
   */
  lemma ChangesOnlyAdd(
    own: NodeId, info: NodeInfo, seeds: seq<NodeInfo>, idOf: string -> NodeId, order: seq<NodeId>, now: Time,
    evs: seq<Event>)
    requires Visits(order, ConfigureWith(New(own, info, now), seeds, idOf).nodes)
    requires Run(Boot(own, info, seeds, idOf, order, now), evs).Some?
    ensures var end := Run(Boot(own, info, seeds, idOf, order, now), evs).value;
            forall a :: 0 <= a < |end.actors| ==>
              && (forall j :: 0 <= j < |end.actors[a].inbox| && end.actors[a].inbox[j].ChangeClusterConfig? ==>
                    var change := end.actors[a].inbox[j];
                    |change.toAdd| == 1 && change.toAdd[0] in Named(evs) && change.toRemove == [])
              && (forall j :: 0 <= j < |end.actors[a].proposals| ==>
                    var change := end.actors[a].proposals[j];
                    |change.0| == 1 && change.0[0] in Named(evs) && change.1 == [])
  {
    var net := ConfigureWith(New(own, info, now), seeds, idOf);
    var boot := Boot(own, info, seeds, idOf, order, now);
    ConfigureKeeps(New(own, info, now), seeds, idOf);
    StartedAdds(net, net.nodes, order);
    forall a | 0 <= a < |boot.actors| ensures ActorAdds(boot.actors[a], Named(evs)) {
      ActorAddsMore(boot.actors[a], {}, Named(evs));
    }
    RunAdds(boot, evs, Named(evs));
    forall a | 0 <= a < |Run(boot, evs).value.actors| ensures ActorAdds(Run(boot, evs).value.actors[a], Named(evs)) {}
  }

  function AllProposed(actors: seq<Actor>, id: NodeId): nat {
    if actors == [] then 0 else Proposed(actors[0].proposals, id) + AllProposed(actors[1..], id)
  }

  lemma {:induction false} HeldWhenHandled(actors: seq<Actor>, id: NodeId)
    requires forall a :: 0 <= a < |actors| ==> actors[a].inbox == []
    ensures Held(actors, id) == AllProposed(actors, id)
  {
    if actors != [] {
      HeldWhenHandled(actors[1..], id);
    }
  }

  lemma {:induction false} CountAbsent(ids: seq<NodeId>, id: NodeId)
    requires id !in ids
    ensures Count(ids, id) == 0
  {
    if ids != [] {
      CountAbsent(ids[1..], id);
    }
  }
}
