/**
 Which nodes end up connected and isolated once every message between the node
 actors and their network has been handled, whatever the order.
 */
module Connections {
  import opened Wrappers
  import opened RaftMessages
  import opened NetStateSpec
  import opened NetworkSpec
  import opened Registry

  /** The network has handled this word of the actor. */
  predicate Said(a: Actor, word: NodeStatus) {
    a.delivered <= |a.sent| && word in a.sent[..a.delivered]
  }

  ghost predicate SaidFor(actors: seq<Actor>, id: NodeId, word: NodeStatus) {
    exists a :: 0 <= a < |actors| && actors[a].id == id && Said(actors[a], word)
  }

  /** An actor whose weak connection was handled and whose connection was not. */
  ghost predicate HalfConnected(actors: seq<Actor>, id: NodeId) {
    exists a :: 0 <= a < |actors| && actors[a].id == id
                && Said(actors[a], WeaklyConnected) && !Said(actors[a], Connected)
  }

  /** In every run: a registered node is isolated only while one of its actors is half connected. */
  ghost predicate IsolationJustified(net: Net) {
    && net.state.connected !! net.state.isolated
    && forall id :: id in net.state.isolated && id in net.nodes ==> HalfConnected(net.actors, id)
  }

  ghost predicate ActorsRegistered(net: Net) {
    forall a :: 0 <= a < |net.actors| ==> net.actors[a].id in net.nodes
  }

  /** In runs that disconnect nobody: the two sets hold the nodes that were weakly connected. */
  ghost predicate SetsKnown(net: Net) {
    && ActorsRegistered(net)
    && forall id :: id in net.state.connected + net.state.isolated <==> SaidFor(net.actors, id, WeaklyConnected)
  }

  /** Steps that hand no word to the network. */
  ghost predicate SameWords(actors: seq<Actor>, actors': seq<Actor>) {
    && |actors| <= |actors'|
    && (forall a :: 0 <= a < |actors| ==>
          actors'[a].id == actors[a].id && forall word :: Said(actors'[a], word) <==> Said(actors[a], word))
    && (forall a :: |actors| <= a < |actors'| ==> actors'[a].delivered == 0)
  }

  lemma SameWordsSay(actors: seq<Actor>, actors': seq<Actor>, id: NodeId)
    requires SameWords(actors, actors')
    ensures SaidFor(actors', id, WeaklyConnected) <==> SaidFor(actors, id, WeaklyConnected)
    ensures HalfConnected(actors', id) <==> HalfConnected(actors, id)
  {
    assert forall a, word :: |actors| <= a < |actors'| ==> !Said(actors'[a], word);
    if a :| 0 <= a < |actors| && actors[a].id == id && Said(actors[a], WeaklyConnected) {
      assert Said(actors'[a], WeaklyConnected);
    }
    if a :| 0 <= a < |actors| && actors[a].id == id && Said(actors[a], WeaklyConnected) && !Said(actors[a], Connected) {
      assert Said(actors'[a], WeaklyConnected) && !Said(actors'[a], Connected);
    }
  }

  /** A step that hands over no word may restore ids, register nodes that are not isolated, and drop nodes. */
  lemma QuietStep(net: Net, net': Net)
    requires SameWords(net.actors, net'.actors)
    requires net'.state.connected !! net'.state.isolated
    requires net'.state.isolated <= net.state.isolated
    requires net'.state.connected + net'.state.isolated == net.state.connected + net.state.isolated
    requires forall id :: id in net'.nodes && id in net'.state.isolated ==> id in net.nodes
    requires IsolationJustified(net)
    ensures IsolationJustified(net')
    ensures SetsKnown(net) && ActorsRegistered(net') ==> SetsKnown(net')
  {
    forall id
      ensures SaidFor(net'.actors, id, WeaklyConnected) <==> SaidFor(net.actors, id, WeaklyConnected)
      ensures HalfConnected(net'.actors, id) <==> HalfConnected(net.actors, id)
    {
      SameWordsSay(net.actors, net'.actors, id);
    }
  }

  /** What an actor has said after one more of its words was handled. */
  lemma SaidStep(a: Actor, word: NodeStatus)
    requires a.delivered < |a.sent|
    ensures Said(a.(delivered := a.delivered + 1), word) <==> Said(a, word) || a.sent[a.delivered] == word
  {
    assert a.sent[..a.delivered + 1] == a.sent[..a.delivered] + [a.sent[a.delivered]];
  }

  /** The three words, and that nothing was connected before it is weakly connected. */
  lemma NextWord(a: Actor)
    requires Speaks(a) && a.delivered < |a.sent|
    ensures a.sent[a.delivered] in {Failure(1), WeaklyConnected, Connected}
    ensures a.sent[a.delivered] == WeaklyConnected ==> !Said(a, Connected)
    ensures a.sent[a.delivered] == Connected ==> Said(a, WeaklyConnected)
  {
    var m := |a.sent|;
    if Fully(a.sent) {
      var front := a.sent[..m - 1];
      assert forall j :: 0 <= j < m - 1 ==> a.sent[j] == front[j];
      assert forall j :: 0 <= j < m - 2 ==> front[j] == front[..m - 2][j];
      if a.delivered == m - 1 {
        assert a.sent[..a.delivered][m - 2] == WeaklyConnected;
      }
    } else if Weakly(a.sent) {
      assert forall j :: 0 <= j < m - 1 ==> a.sent[j] == a.sent[..m - 1][j];
    }
  }

  lemma HandledSays(net: Net, a: Address, id: NodeId)
    requires a < |net.actors| && Speaks(net.actors[a]) && net.actors[a].delivered < |net.actors[a].sent|
    ensures var word, actors' := net.actors[a].sent[net.actors[a].delivered], MarkHandled(net, a).actors;
            && (SaidFor(actors', id, WeaklyConnected) <==>
                SaidFor(net.actors, id, WeaklyConnected) || (id == net.actors[a].id && word == WeaklyConnected))
            && (id == net.actors[a].id && word == WeaklyConnected ==> HalfConnected(actors', id))
            && (HalfConnected(net.actors, id) && !(id == net.actors[a].id && word == Connected) ==>
                  HalfConnected(actors', id))
  {
    var actors', actor := MarkHandled(net, a).actors, net.actors[a];
    NextWord(actor);
    SaidStep(actor, WeaklyConnected);
    SaidStep(actor, Connected);
    assert forall j :: 0 <= j < |net.actors| && j != a ==> actors'[j] == net.actors[j];
    if x :| 0 <= x < |net.actors| && net.actors[x].id == id && Said(net.actors[x], WeaklyConnected) {
      assert actors'[x].id == id && Said(actors'[x], WeaklyConnected);
    }
    if x :| 0 <= x < |net.actors| && net.actors[x].id == id
            && Said(net.actors[x], WeaklyConnected) && !Said(net.actors[x], Connected) {
      if !(x == a && actor.sent[actor.delivered] == Connected) {
        assert actors'[x].id == id && Said(actors'[x], WeaklyConnected) && !Said(actors'[x], Connected);
      }
    }
    assert actors'[a].id == actor.id;
  }

  lemma StatusStep(net: Net, a: Address)
    requires Inv(net) && IsolationJustified(net)
    ensures IsolationJustified(HandleStatus(net, a))
    ensures SetsKnown(net) ==> SetsKnown(HandleStatus(net, a))
  {
    if a < |net.actors| && net.actors[a].delivered < |net.actors[a].sent| {
      var net' := HandleStatus(net, a);
      var actor := net.actors[a];
      assert Speaks(actor);
      NextWord(actor);
      assert net'.actors == MarkHandled(net, a).actors && net'.nodes == net.nodes;
      forall id ensures id in net'.state.isolated && id in net'.nodes ==> HalfConnected(net'.actors, id) {
        HandledSays(net, a, id);
      }
      if SetsKnown(net) {
        assert actor.sent[actor.delivered] == Connected ==> SaidFor(net.actors, actor.id, WeaklyConnected);
        forall id
          ensures id in net'.state.connected + net'.state.isolated <==> SaidFor(net'.actors, id, WeaklyConnected)
        {
          HandledSays(net, a, id);
        }
      }
    }
  }

  /** What registering Raft does to sets, registry keys and actors. */
  lemma RaftShape(net: Net, raft: RaftAddress)
    requires net.id in net.nodes && EntryOk(net, net.id)
    ensures RegisterRaft(net, raft).Some?
    ensures var net' := RegisterRaft(net, raft).value;
            && net'.nodes.Keys == net.nodes.Keys
            && (net'.state == net.state || net'.state == RestoreNode(net.state, net.id))
            && |net.actors| <= |net'.actors|
            && (forall a :: 0 <= a < |net.actors| ==>
                  net'.actors[a] == net.actors[a].(inbox := net'.actors[a].inbox))
            && (forall a :: |net.actors| <= a < |net'.actors| ==>
                  net'.actors[a].delivered == 0 && net'.actors[a].id == net.id)
  {
    if net.nodes[net.id].addr.None? {
      RegisterStatus(net.(raft := Some(raft)), net.id, net.nodes[net.id].info.value);
    }
  }

  lemma RaftStep(net: Net, raft: RaftAddress)
    requires net.id in net.nodes && EntryOk(net, net.id) && IsolationJustified(net)
    ensures RegisterRaft(net, raft).Some? && IsolationJustified(RegisterRaft(net, raft).value)
    ensures SetsKnown(net) ==> SetsKnown(RegisterRaft(net, raft).value)
  {
    RaftShape(net, raft);
    QuietStep(net, RegisterRaft(net, raft).value);
  }

  lemma ConnectStep(net: Net, id: NodeId, info: NodeInfo)
    requires IsolationJustified(net)
    ensures IsolationJustified(ConnectNode(net, id, info))
    ensures SetsKnown(net) ==> SetsKnown(ConnectNode(net, id, info))
  {
    RegisterStatus(net, id, info);
    QuietStep(net, ConnectNode(net, id, info));
  }

  lemma DelegateStep(net: Net, k: nat)
    requires IsolationJustified(net)
    ensures IsolationJustified(DelegateChange(net, k))
    ensures SetsKnown(net) ==> SetsKnown(DelegateChange(net, k))
  {
    QuietStep(net, DelegateChange(net, k));
  }

  lemma ActorStep(net: Net, a: Address, w: Work)
    requires Inv(net) && IsolationJustified(net) && a < |net.actors|
    ensures var net' := SetActor(net, a, Do(net.actors[a], w));
            net'.Some? && IsolationJustified(net'.value) && (SetsKnown(net) ==> SetsKnown(net'.value))
  {
    assert Speaks(net.actors[a]) && Placed(net.actors[a], net.id);
    WorkKeeps(net.actors[a], w, net.id);
    QuietStep(net, SetActor(net, a, Do(net.actors[a], w)).value);
  }

  lemma MetricsStep(net: Net, m: Metrics, now: Time)
    requires IsolationJustified(net) && OnMetrics(net, m, now).Some?
    ensures IsolationJustified(OnMetrics(net, m, now).value)
    ensures SetsKnown(net) ==> SetsKnown(OnMetrics(net, m, now).value)
  {
    QuietStep(net, OnMetrics(net, m, now).value);
  }

  lemma DisconnectStep(net: Net, id: NodeId)
    requires IsolationJustified(net)
    ensures IsolationJustified(DisconnectNode(net, id))
  {
    QuietStep(net, DisconnectNode(net, id));
  }

  lemma AskStep(net: Net, a: Address)
    requires IsolationJustified(net)
    ensures IsolationJustified(Send(net, a, Disconnect))
    ensures SetsKnown(net) ==> SetsKnown(Send(net, a, Disconnect))
  {
    QuietStep(net, Send(net, a, Disconnect));
  }

  /** Every step keeps isolation justified; every step but a disconnect keeps the sets known. */
  lemma StepKeepsSets(net: Net, ev: Event)
    requires Inv(net) && IsolationJustified(net) && Step(net, ev).Some?
    ensures IsolationJustified(Step(net, ev).value)
    ensures SetsKnown(net) && !ev.DisconnectArrived? ==> SetsKnown(Step(net, ev).value)
  {
    match ev
    case RaftRegistered(raft) => assert EntryOk(net, net.id); RaftStep(net, raft);
    case ConnectArrived(id, info) => ConnectStep(net, id, info);
    case ChangeDelegated(k) => DelegateStep(net, k);
    case StatusHandled(a) => StatusStep(net, a);
    case MetricsArrived(m, now) => MetricsStep(net, m, now);
    case DisconnectArrived(id) => DisconnectStep(net, id);
    case DisconnectAsked(a) => AskStep(net, a);
    case SnapshotArrived(_, _) => QuietStep(net, Step(net, ev).value);
    case SnapshotForwarded(_) => QuietStep(net, Step(net, ev).value);
    case ProximitySent => QuietStep(net, SendProximity(net));
    case Connecting(_, _) => WorkStep(net, ev);
    case ConnectFinished(_) => WorkStep(net, ev);
    case RetryTimerFired(_) => WorkStep(net, ev);
    case MessageHandled(_) => WorkStep(net, ev);
  }

  lemma WorkStep(net: Net, ev: Event)
    requires Inv(net) && IsolationJustified(net) && WorkOf(ev).Some?
    ensures Step(net, ev).Some? && IsolationJustified(Step(net, ev).value)
    ensures SetsKnown(net) ==> SetsKnown(Step(net, ev).value)
  {
    WorkIsStep(net, ev);
    if WorkOf(ev).value.0 < |net.actors| {
      ActorStep(net, WorkOf(ev).value.0, WorkOf(ev).value.1);
    }
  }

  lemma {:induction false} RunKeepsSets(net: Net, evs: seq<Event>)
    requires Inv(net) && IsolationJustified(net) && Run(net, evs).Some?
    ensures Inv(Run(net, evs).value) && IsolationJustified(Run(net, evs).value)
    ensures SetsKnown(net) && (forall ev :: ev in evs ==> !ev.DisconnectArrived?) ==> SetsKnown(Run(net, evs).value)
    decreases |evs|
  {
    if evs != [] {
      Registry.StepKeeps(net, evs[0]);
      StepKeepsSets(net, evs[0]);
      assert (forall ev :: ev in evs ==> !ev.DisconnectArrived?) ==> !evs[0].DisconnectArrived?;
      assert (forall ev :: ev in evs ==> !ev.DisconnectArrived?) ==>
          forall ev :: ev in evs[1..] ==> !ev.DisconnectArrived?;
      RunKeepsSets(Step(net, evs[0]).value, evs[1..]);
    }
  }

  /** No status message is on its way and no answered connect waits to be reported. Retries may go on for ever. */
  ghost predicate Quiescent(net: Net) {
    forall a :: 0 <= a < |net.actors| ==> net.actors[a].delivered == |net.actors[a].sent| && net.actors[a].tasks == 0
  }

  /** The node completed a connect: one of its actors said it was connected. */
  ghost predicate Completed(net: Net, id: NodeId) {
    exists a :: 0 <= a < |net.actors| && net.actors[a].id == id && Connected in net.actors[a].sent
  }

  /** At quiescence an actor that said it was weakly connected has said it was connected, and the other way round. */
  lemma SettledActor(a: Actor)
    requires Speaks(a) && a.delivered == |a.sent| && a.tasks == 0
    ensures Said(a, WeaklyConnected) <==> Connected in a.sent
    ensures Said(a, Connected) <==> Connected in a.sent
  {
    assert a.sent[..a.delivered] == a.sent;
    ActorLanguage(a);
  }

  /**
   After any run from startup, once it is quiet, no registered node is isolated.
   If nobody was disconnected, no node is isolated at all, and the connected
   nodes are those one of whose actors completed a connect.
   */
  lemma ConnectionsSettle(
    id: NodeId, info: NodeInfo, seeds: seq<NodeInfo>, idOf: string -> NodeId, order: seq<NodeId>, now: Time,
    evs: seq<Event>, node: NodeId)
    requires Visits(order, ConfigureWith(New(id, info, now), seeds, idOf).nodes)
    requires Run(Boot(id, info, seeds, idOf, order, now), evs).Some?
    requires Quiescent(Run(Boot(id, info, seeds, idOf, order, now), evs).value)
    ensures var net := Run(Boot(id, info, seeds, idOf, order, now), evs).value;
            && (node in net.nodes ==> node !in net.state.isolated)
            && ((forall ev :: ev in evs ==> !ev.DisconnectArrived?) ==>
                  && node !in net.state.isolated
                  && (node in net.state.connected <==> Completed(net, node)))
  {
    var start := Boot(id, info, seeds, idOf, order, now);
    BootOk(id, info, seeds, idOf, order, now);
    RunKeepsSets(start, evs);
    var net := Run(start, evs).value;
    forall a | 0 <= a < |net.actors|
      ensures Said(net.actors[a], WeaklyConnected) <==> Connected in net.actors[a].sent
      ensures Said(net.actors[a], Connected) <==> Connected in net.actors[a].sent
    {
      SettledActor(net.actors[a]);
    }
    if forall ev :: ev in evs ==> !ev.DisconnectArrived? {
      assert SetsKnown(net);
      assert SaidFor(net.actors, node, WeaklyConnected) <==> Completed(net, node);
    }
  }

  /* ---------- disconnecting ---------- */

  /** A node that is not registered keeps its place in the sets until somebody connects it again. */
  lemma {:induction false} UnregisteredStays(net: Net, evs: seq<Event>, id: NodeId)
    requires Inv(net) && id !in net.nodes && Run(net, evs).Some?
    requires forall ev :: ev in evs ==> !(ev.ConnectArrived? && ev.id == id)
    ensures id !in Run(net, evs).value.nodes
    ensures id in Run(net, evs).value.state.isolated <==> id in net.state.isolated
    ensures id in Run(net, evs).value.state.connected <==> id in net.state.connected
    decreases |evs|
  {
    if evs != [] {
      assert evs[0] in evs;
      assert forall ev :: ev in evs[1..] ==> ev in evs;
      Registry.StepKeeps(net, evs[0]);
      UnregisteredStep(net, evs[0], id);
      UnregisteredStays(Step(net, evs[0]).value, evs[1..], id);
    }
  }

  /** The id is not registered, and its place in the sets is as before. */
  predicate StaysOut(net: Net, net': Net, id: NodeId) {
    && id !in net'.nodes
    && (id in net'.state.isolated <==> id in net.state.isolated)
    && (id in net'.state.connected <==> id in net.state.connected)
  }

  lemma StatusStaysOut(net: Net, a: Address, id: NodeId)
    requires id !in net.nodes
    ensures StaysOut(net, HandleStatus(net, a), id)
  {
  }

  lemma DelegateStaysOut(net: Net, k: nat, id: NodeId)
    requires id !in net.nodes
    ensures StaysOut(net, DelegateChange(net, k), id)
  {
  }

  lemma WorkStaysOut(net: Net, ev: Event, id: NodeId)
    requires id !in net.nodes && WorkOf(ev).Some? && Step(net, ev).Some?
    ensures StaysOut(net, Step(net, ev).value, id)
  {
    WorkIsStep(net, ev);
  }

  lemma UnregisteredStep(net: Net, ev: Event, id: NodeId)
    requires Inv(net) && id !in net.nodes && Step(net, ev).Some?
    requires !(ev.ConnectArrived? && ev.id == id)
    ensures StaysOut(net, Step(net, ev).value, id)
  {
    match ev
    case RaftRegistered(raft) =>
      assert EntryOk(net, net.id);
      RaftShape(net, raft);
    case ConnectArrived(node, info) => RegisterStatus(net, node, info);
    case ChangeDelegated(k) => DelegateStaysOut(net, k, id);
    case StatusHandled(a) => StatusStaysOut(net, a, id);
    case MetricsArrived(_, _) =>
    case DisconnectArrived(_) =>
    case DisconnectAsked(_) =>
    case SnapshotArrived(_, _) =>
    case SnapshotForwarded(_) =>
    case ProximitySent =>
    case _ => WorkStaysOut(net, ev, id);
  }

  /**
   Disconnecting another node strands it in isolation exactly when it is
   isolated at that moment, for as long as nobody connects it again.
   */
  lemma DisconnectStrands(net: Net, id: NodeId, evs: seq<Event>)
    requires Inv(net) && Run(DisconnectNode(net, id), evs).Some?
    requires forall ev :: ev in evs ==> !(ev.ConnectArrived? && ev.id == id)
    ensures id in Run(DisconnectNode(net, id), evs).value.state.isolated <==> id in net.state.isolated
  {
    DisconnectKeeps(net, id);
    UnregisteredStays(DisconnectNode(net, id), evs, id);
  }

  /** A node connects, its weak connection is handled, it is disconnected, and its last word is dropped. */
  const STRANDING :=
    [Event.Connecting(0, true), StatusHandled(0), DisconnectArrived(2), ConnectFinished(0), StatusHandled(0)]

  lemma StrandingBegins(net: Net, remote: NodeInfo)
    requires 2 in net.nodes && 2 !in net.state.isolated
    requires net.actors == [StartActor(2, net.id, Remote(2, remote))]
    ensures var a := net.actors[0].(connects := 0, tasks := 1, sent := [WeaklyConnected], delivered := 1);
            Run(net, STRANDING) ==
            Run(DisconnectNode(net.(actors := [a], state := IsolateNode(net.state, 2)), 2), STRANDING[3..])
  {
    var a0 := net.actors[0];
    var a1 := a0.(connects := 0, tasks := 1, sent := [WeaklyConnected]);
    var n1 := net.(actors := [a1]);
    var n2 := n1.(actors := [a1.(delivered := 1)], state := IsolateNode(net.state, 2));
    assert Step(net, STRANDING[0]) == Some(n1) by {
      assert a0.sent + [WeaklyConnected] == [WeaklyConnected];
      assert HandleConnect(a0, true) == Some(a1) && net.actors[0 := a1] == [a1];
    }
    assert Step(n1, STRANDING[1]) == Some(n2) by {
      assert n1.actors[0 := a1.(delivered := 1)] == [a1.(delivered := 1)];
    }
    RunTo(net, STRANDING, n1);
    RunTo(n1, STRANDING[1..], n2);
    RunTo(n2, STRANDING[2..], DisconnectNode(n2, 2));
  }

  lemma StrandingEnds(net: Net, a: Actor)
    requires 2 !in net.nodes && a.id == 2 && net.actors == [a]
    requires a.tasks == 1 && a.sent == [WeaklyConnected] && a.delivered == 1
    ensures var b := a.(tasks := 0, sent := [WeaklyConnected, Connected], delivered := 2);
            Run(net, STRANDING[3..]) == Some(net.(actors := [b]))
  {
    var b := a.(tasks := 0, sent := [WeaklyConnected, Connected]);
    var n1 := net.(actors := [b]);
    var n2 := net.(actors := [b.(delivered := 2)]);
    assert Step(net, STRANDING[3]) == Some(n1) by {
      assert a.sent + [Connected] == [WeaklyConnected, Connected];
      assert FinishConnect(a) == Some(b) && net.actors[0 := b] == [b];
    }
    assert Step(n1, STRANDING[4]) == Some(n2) by {
      assert n1.actors[0 := b.(delivered := 2)] == [b.(delivered := 2)];
    }
    RunTo(net, STRANDING[3..], n1);
    RunTo(n1, STRANDING[4..], n2);
    assert STRANDING[5..] == [];
  }

  lemma StrandingFrom(net: Net, remote: NodeInfo)
    requires 2 in net.nodes && 2 !in net.state.isolated
    requires net.actors == [StartActor(2, net.id, Remote(2, remote))]
    ensures var end := Run(net, STRANDING);
            end.Some? && Quiescent(end.value) && 2 in end.value.state.isolated
  {
    var a := net.actors[0].(connects := 0, tasks := 1, sent := [WeaklyConnected], delivered := 1);
    StrandingBegins(net, remote);
    StrandingEnds(DisconnectNode(net.(actors := [a], state := IsolateNode(net.state, 2)), 2), a);
  }

  /**
   So the condition on disconnects is needed: here is a quiet run from startup
   that leaves node 2 isolated.
   */
  lemma StrandingHappens(info: NodeInfo, remote: NodeInfo, idOf: string -> NodeId, now: Time)
    ensures var end := Run(Boot(1, info, [], idOf, [1], now), [ConnectArrived(2, remote)] + STRANDING);
            end.Some? && Quiescent(end.value) && 2 in end.value.state.isolated
  {
    var boot := Boot(1, info, [], idOf, [1], now);
    BootOk(1, info, [], idOf, [1], now);
    assert boot.nodes == map[1 := NodeRef(1, Some(info), None)] && boot.actors == [] by {
      var net := New(1, info, now);
      assert boot == StartNodes(RegisterNode(net, 1, info), net.nodes, [1][1..]);
    }
    var next := ConnectNode(boot, 2, remote);
    RunTo(boot, [ConnectArrived(2, remote)] + STRANDING, next);
    assert ([ConnectArrived(2, remote)] + STRANDING)[1..] == STRANDING;
    StrandingFrom(next, remote);
  }

  lemma RunTo(net: Net, evs: seq<Event>, next: Net)
    requires evs != [] && Step(net, evs[0]) == Some(next)
    ensures Run(net, evs) == Run(next, evs[1..])
  {
  }
}
