/**
 What every run of a network keeps: every registered node has its info and an
 actor of the right kind, node actors send the same few words, and the steps
 of a run panic in two situations only.
 */
module Registry {
  import opened Wrappers
  import opened RaftMessages
  import opened NetStateSpec
  import opened NetworkSpec
  import NetStateLemmas

  /* ---------- one node actor ---------- */

  predicate Failing(sent: seq<NodeStatus>) {
    forall j :: 0 <= j < |sent| ==> sent[j] == Failure(1)
  }

  predicate Weakly(sent: seq<NodeStatus>) {
    sent != [] && Failing(sent[..|sent| - 1]) && sent[|sent| - 1] == WeaklyConnected
  }

  predicate Fully(sent: seq<NodeStatus>) {
    sent != [] && Weakly(sent[..|sent| - 1]) && sent[|sent| - 1] == Connected
  }

  /**
   The messages of one actor: failures of one attempt, then weakly connected,
   then connected; and what is still to do fits how far it has come.
   */
  predicate Speaks(a: Actor) {
    && a.status == Initialized
    && a.delivered <= |a.sent|
    && (|| (a.connects + a.timers == 1 && a.tasks == 0 && Failing(a.sent))
        || (a.connects == a.timers == 0 && a.tasks == 1 && Weakly(a.sent))
        || (a.connects == a.timers == a.tasks == 0 && Fully(a.sent)))
  }

  /** Only the actor of the network's own node is local, and only it is sent a cluster change or a new proximity. */
  predicate Placed(a: Actor, own: NodeId) {
    && a.localId == own
    && (a.proximity.Local? <==> a.id == own)
    && (a.proximity.Remote? ==> a.proximity.remoteId == a.id)
    && (a.proximity.Local? ==> a.proximity.localId == own)
    && (forall j :: 0 <= j < |a.inbox| ==>
          match a.inbox[j]
          case UpdateProximity(p) => p.Local? && p.localId == own && a.id == own
          case Disconnect => true
          case ChangeClusterConfig(_, _) => a.id == own)
  }

  /** The proximity an actor will have once these messages are handled. */
  function AimAfter(p: Proximity, inbox: seq<NodeMessage>): Proximity
    decreases |inbox|
  {
    if inbox == [] then p
    else AimAfter(if inbox[0].UpdateProximity? then inbox[0].proximity else p, inbox[1..])
  }

  function Aim(a: Actor): Proximity {
    AimAfter(a.proximity, a.inbox)
  }

  lemma {:induction false} AimAppend(p: Proximity, inbox: seq<NodeMessage>, msg: NodeMessage)
    ensures AimAfter(p, inbox + [msg]) == if msg.UpdateProximity? then msg.proximity else AimAfter(p, inbox)
    decreases |inbox|
  {
    if inbox == [] {
      assert (inbox + [msg])[1..] == [];
    } else {
      assert (inbox + [msg])[1..] == inbox[1..] + [msg];
      AimAppend(if inbox[0].UpdateProximity? then inbox[0].proximity else p, inbox[1..], msg);
    }
  }

  /** The same once all these updates for an actor are sent, too. */
  function AimSent(p: Proximity, updates: seq<(Address, Proximity)>, a: Address): Proximity
    decreases |updates|
  {
    if updates == [] then p else AimSent(if updates[0].0 == a then updates[0].1 else p, updates[1..], a)
  }

  lemma {:induction false} AimSentAppend(
    p: Proximity, updates: seq<(Address, Proximity)>, a: Address, u: (Address, Proximity))
    ensures AimSent(p, updates + [u], a) == if u.0 == a then u.1 else AimSent(p, updates, a)
    decreases |updates|
  {
    if updates == [] {
      assert (updates + [u])[1..] == [];
    } else {
      assert (updates + [u])[1..] == updates[1..] + [u];
      AimSentAppend(if updates[0].0 == a then updates[0].1 else p, updates[1..], a, u);
    }
  }

  /** Nothing is about to be sent to an actor that is not started yet. */
  lemma {:induction false} AimSentOther(p: Proximity, updates: seq<(Address, Proximity)>, a: Address)
    requires forall j :: 0 <= j < |updates| ==> updates[j].0 != a
    ensures AimSent(p, updates, a) == p
    decreases |updates|
  {
    if updates != [] {
      AimSentOther(p, updates[1..], a);
    }
  }

  /** The pieces of work one actor does by itself. */
  datatype Work = Connecting(reachable: bool) | Finishing | RetryTimer | Message

  function Do(a: Actor, w: Work): Option<Actor> {
    match w
    case Connecting(reachable) => HandleConnect(a, reachable)
    case Finishing => FinishConnect(a)
    case RetryTimer => Some(RetryDue(a))
    case Message => HandleMessage(a)
  }

  /** Connecting says one word more, and puts off the next piece of work. */
  lemma ConnectingSpeaks(a: Actor, reachable: bool)
    requires Speaks(a)
    ensures HandleConnect(a, reachable).Some? && Speaks(HandleConnect(a, reachable).value)
  {
    if a.connects > 0 {
      var b := HandleConnect(a, reachable).value;
      assert b.sent[..|b.sent| - 1] == a.sent;
    }
  }

  lemma FinishingSpeaks(a: Actor)
    requires Speaks(a)
    ensures FinishConnect(a).Some? && Speaks(FinishConnect(a).value)
  {
    if a.tasks > 0 {
      var b := FinishConnect(a).value;
      assert b.sent[..|b.sent| - 1] == a.sent;
    }
  }

  lemma MessageKeeps(a: Actor, own: NodeId)
    requires Speaks(a) && Placed(a, own)
    ensures HandleMessage(a).Some? && Speaks(HandleMessage(a).value) && Placed(HandleMessage(a).value, own)
    ensures a.proximity.Remote? ==> HandleMessage(a).value.proximity == a.proximity
    ensures Aim(HandleMessage(a).value) == Aim(a)
  {
    if a.inbox != [] {
      assert forall j :: 0 <= j < |a.inbox| - 1 ==> a.inbox[1..][j] == a.inbox[j + 1];
    }
  }

  /** No work of an actor panics, and none changes what the actor is or how it speaks. */
  lemma WorkKeeps(a: Actor, w: Work, own: NodeId)
    requires Speaks(a) && Placed(a, own)
    ensures Do(a, w).Some?
    ensures var b := Do(a, w).value;
            && Speaks(b) && Placed(b, own)
            && b.id == a.id && b.delivered == a.delivered && a.sent <= b.sent
            && (a.proximity.Remote? ==> b.proximity == a.proximity) && Aim(b) == Aim(a)
  {
    match w
    case Connecting(reachable) => ConnectingSpeaks(a, reachable);
    case Finishing => FinishingSpeaks(a);
    case RetryTimer =>
    case Message => MessageKeeps(a, own);
  }

  /** Failures of one attempt, then weakly connected, then connected, or a prefix of that. */
  ghost predicate Language(sent: seq<NodeStatus>) {
    exists n: nat :: n <= |sent| && Failing(sent[..n]) && sent[n..] <= [WeaklyConnected, Connected]
  }

  lemma FailingSays(sent: seq<NodeStatus>)
    requires Failing(sent)
    ensures Language(sent) && WeaklyConnected !in sent && Connected !in sent
  {
    assert sent[..|sent|] == sent && sent[|sent|..] == [];
  }

  lemma WeaklySays(sent: seq<NodeStatus>)
    requires Weakly(sent)
    ensures Language(sent) && WeaklyConnected in sent && Connected !in sent
  {
    var n := |sent| - 1;
    assert sent[n..] == [WeaklyConnected];
    assert sent == sent[..n] + [WeaklyConnected];
  }

  lemma FullySays(sent: seq<NodeStatus>)
    requires Fully(sent)
    ensures Language(sent) && WeaklyConnected in sent && Connected in sent
  {
    var front := sent[..|sent| - 1];
    var n := |sent| - 2;
    assert sent == front + [Connected] && front == front[..n] + [WeaklyConnected];
    assert sent[..n] == front[..n] && sent[n..] == [WeaklyConnected, Connected];
  }

  /** One actor makes at most one attempt at a time, keeps to the language, and is done once it said connected. */
  lemma ActorLanguage(a: Actor)
    requires Speaks(a)
    ensures a.connects + a.timers + a.tasks <= 1
    ensures Language(a.sent)
    ensures Connected in a.sent <==> a.connects + a.timers + a.tasks == 0
    ensures WeaklyConnected in a.sent <==> a.connects + a.timers == 0
  {
    if a.tasks == 1 {
      WeaklySays(a.sent);
    } else if a.connects + a.timers == 1 {
      FailingSays(a.sent);
    } else {
      FullySays(a.sent);
    }
  }

  /* ---------- the network ---------- */

  /**
   A registry entry: complete, with an actor of its own kind, except for the own
   node before Raft is known. The own actor submits to the Raft registered last,
   once it has been sent and has handled what waits for it; other actors talk to
   the registered address.
   */
  predicate EntryOk(net: Net, id: NodeId)
    requires id in net.nodes
  {
    var ref := net.nodes[id];
    && ref.id == id
    && ref.info.Some?
    && (ref.addr.None? <==> id == net.id && net.raft.None?)
    && (ref.addr.Some? ==>
          && ref.addr.value < |net.actors|
          && net.actors[ref.addr.value].id == id
          && (if id == net.id then
                AimSent(Aim(net.actors[ref.addr.value]), net.updates, ref.addr.value) == Local(id, net.raft.value)
              else net.actors[ref.addr.value].proximity == Remote(id, ref.info.value)))
  }

  /** New proximities are on their way to own actors only. */
  predicate UpdatesOk(net: Net) {
    forall j :: 0 <= j < |net.updates| ==>
      && net.updates[j].0 < |net.actors| && net.actors[net.updates[j].0].id == net.id
      && net.updates[j].1.Local? && net.updates[j].1.localId == net.id
  }

  ghost predicate RegistryOk(net: Net) {
    && UpdatesOk(net)
    && (forall id :: id in net.nodes ==> EntryOk(net, id))
    && (forall a :: 0 <= a < |net.actors| ==> Placed(net.actors[a], net.id) && Speaks(net.actors[a]))
  }

  ghost predicate StatusOk(net: Net) {
    NetStateLemmas.WellFormed(net.state) && net.state.status in {Joining, Up, Leaving}
  }

  ghost predicate Inv(net: Net) {
    RegistryOk(net) && StatusOk(net)
  }

  /** Changing one actor without changing its kind. */
  lemma SetActorKeeps(net: Net, a: Address, b: Actor)
    requires Inv(net) && a < |net.actors|
    requires Speaks(b) && Placed(b, net.id) && b.id == net.actors[a].id
    requires net.actors[a].proximity.Remote? ==> b.proximity == net.actors[a].proximity
    requires Aim(b) == Aim(net.actors[a])
    ensures Inv(net.(actors := net.actors[a := b]))
  {
    var net' := net.(actors := net.actors[a := b]);
    forall id | id in net'.nodes ensures EntryOk(net', id) {
      assert EntryOk(net, id);
    }
  }

  lemma SendKeeps(net: Net, a: Address, msg: NodeMessage)
    requires Inv(net) && !msg.UpdateProximity?
    requires a < |net.actors| ==> Placed(net.actors[a].(inbox := [msg]), net.id)
    ensures Inv(Send(net, a, msg))
  {
    if a < |net.actors| {
      AimAppend(net.actors[a].proximity, net.actors[a].inbox, msg);
      SetActorKeeps(net, a, net.actors[a].(inbox := net.actors[a].inbox + [msg]));
    }
  }

  lemma NodeSetsKeep(net: Net, state: NetState)
    requires Inv(net) && state.status == net.state.status && state.timeline == net.state.timeline
    ensures Inv(net.(state := state))
  {
    forall id | id in net.nodes ensures EntryOk(net.(state := state), id) {
      assert EntryOk(net, id);
    }
  }

  /** All entries but one are as they should be, and that one may lack what registering supplies. */
  ghost predicate OkExcept(net: Net, id: NodeId) {
    && UpdatesOk(net)
    && (forall j :: j in net.nodes && j != id ==> EntryOk(net, j))
    && (id in net.nodes ==>
          var ref := net.nodes[id];
          ref.id == id && (ref.addr.Some? ==> EntryOk(net, id)))
    && (forall a :: 0 <= a < |net.actors| ==> Placed(net.actors[a], net.id) && Speaks(net.actors[a]))
  }

  lemma RegisterOther(net: Net, id: NodeId, info: NodeInfo, j: NodeId)
    requires j in net.nodes && j != id && EntryOk(net, j)
    ensures EntryOk(RegisterNode(net, id, info), j)
  {
  }

  /** Registering makes an entry whole. */
  lemma RegisterThis(net: Net, id: NodeId, info: NodeInfo)
    requires id in net.nodes ==> net.nodes[id].id == id && (net.nodes[id].addr.Some? ==> EntryOk(net, id))
    requires UpdatesOk(net)
    ensures EntryOk(RegisterNode(net, id, info), id)
  {
    if id == net.id && net.raft.Some? {
      AimSentOther(Local(id, net.raft.value), net.updates, |net.actors|);
    }
  }

  lemma RegisterActors(net: Net, id: NodeId, info: NodeInfo)
    requires forall a :: 0 <= a < |net.actors| ==> Placed(net.actors[a], net.id) && Speaks(net.actors[a])
    ensures var net' := RegisterNode(net, id, info);
            forall a :: 0 <= a < |net'.actors| ==> Placed(net'.actors[a], net'.id) && Speaks(net'.actors[a])
  {
    assert Failing([]);
  }

  lemma RegisterKeeps(net: Net, id: NodeId, info: NodeInfo)
    requires OkExcept(net, id)
    ensures RegistryOk(RegisterNode(net, id, info))
    ensures id in RegisterNode(net, id, info).nodes
  {
    var net' := RegisterNode(net, id, info);
    RegisterThis(net, id, info);
    forall j | j in net'.nodes && j != id ensures EntryOk(net', j) {
      RegisterOther(net, id, info, j);
    }
    RegisterActors(net, id, info);
  }

  lemma RegisterStatus(net: Net, id: NodeId, info: NodeInfo)
    ensures var net' := RegisterNode(net, id, info);
            && net'.state == RestoreNode(net.state, id) && net'.id == net.id && net'.raft == net.raft
            && net'.metrics == net.metrics && net'.changes == net.changes
            && net'.updates == net.updates && net'.snapshots == net.snapshots
            && net'.nodes.Keys == net.nodes.Keys + {id}
            && net.actors <= net'.actors
            && (forall a :: |net.actors| <= a < |net'.actors| ==>
                  net'.actors[a].id == id && net'.actors[a].sent == [] && net'.actors[a].delivered == 0)
  {
  }

  lemma RaftRegisteredKeeps(net: Net, raft: RaftAddress)
    requires Inv(net)
    ensures RegisterRaft(net, raft).None? <==> net.id !in net.nodes
    ensures RegisterRaft(net, raft).Some? ==> Inv(RegisterRaft(net, raft).value)
  {
    if net.id in net.nodes {
      assert EntryOk(net, net.id);
      match net.nodes[net.id].addr
      case None => RaftForNewActor(net, raft);
      case Some(addr) => RaftForActor(net, raft);
    }
  }

  lemma RaftSet(net: Net, raft: RaftAddress)
    requires RegistryOk(net)
    requires net.id in net.nodes && net.nodes[net.id].id == net.id && net.nodes[net.id].addr.None?
    ensures OkExcept(net.(raft := Some(raft)), net.id)
  {
    var net' := net.(raft := Some(raft));
    forall id | id in net'.nodes && id != net.id ensures EntryOk(net', id) {
      assert EntryOk(net, id);
    }
  }

  lemma RaftForNewActor(net: Net, raft: RaftAddress)
    requires Inv(net) && net.id in net.nodes && net.nodes[net.id].addr.None? && net.nodes[net.id].info.Some?
    requires net.nodes[net.id].id == net.id
    ensures RegisterRaft(net, raft).Some? && Inv(RegisterRaft(net, raft).value)
  {
    var net', info := net.(raft := Some(raft)), net.nodes[net.id].info.value;
    RaftStartsActor(net, raft);
    RaftSet(net, raft);
    RegisterKeeps(net', net.id, info);
    RegisterStatusOk(net', net.id, info);
  }

  lemma RegisterStatusOk(net: Net, id: NodeId, info: NodeInfo)
    requires StatusOk(net)
    ensures StatusOk(RegisterNode(net, id, info))
  {
    RegisterStatus(net, id, info);
  }

  lemma RaftStartsActor(net: Net, raft: RaftAddress)
    requires net.id in net.nodes && net.nodes[net.id].addr.None? && net.nodes[net.id].info.Some?
    requires net.nodes[net.id].id == net.id
    ensures RegisterRaft(net, raft) ==
            Some(RegisterNode(net.(raft := Some(raft)), net.id, net.nodes[net.id].info.value))
  {
  }

  lemma RaftForActor(net: Net, raft: RaftAddress)
    requires Inv(net) && net.id in net.nodes && net.nodes[net.id].addr.Some? && net.nodes[net.id].info.Some?
    requires net.nodes[net.id].id == net.id
    ensures RegisterRaft(net, raft).Some? && Inv(RegisterRaft(net, raft).value)
  {
    assert EntryOk(net, net.id);
    var addr, p := net.nodes[net.id].addr.value, Local(net.id, raft);
    var net' := net.(raft := Some(raft), updates := net.updates + [(addr, p)]);
    assert RegisterRaft(net, raft) == Some(net');
    AimSentAppend(Aim(net.actors[addr]), net.updates, addr, (addr, p));
    forall id | id in net'.nodes ensures EntryOk(net', id) {
      assert EntryOk(net, id);
    }
  }

  /** The actor that is sent a new proximity aims at it as before. */
  lemma ProximitySentKeeps(net: Net)
    requires Inv(net)
    ensures Inv(SendProximity(net))
  {
    if net.updates != [] {
      var (a, p) := net.updates[0];
      var net' := SendProximity(net);
      var b := net'.actors[a];
      AimAppend(net.actors[a].proximity, net.actors[a].inbox, UpdateProximity(p));
      assert Placed(net.actors[a], net.id) && Speaks(net.actors[a]);
      assert Placed(b, net.id) && Speaks(b) && Aim(b) == p;
      assert net'.updates == net.updates[1..];
      forall id | id in net'.nodes ensures EntryOk(net', id) {
        assert EntryOk(net, id);
      }
      assert forall j :: 0 <= j < |net'.updates| ==> net'.updates[j] == net.updates[j + 1];
    }
  }

  /** What handlers leave to be continued, apart from proximities, is no part of the invariant. */
  lemma SnapshotsKeep(net: Net, snapshots: seq<NodeId>)
    requires Inv(net)
    ensures Inv(net.(snapshots := snapshots))
  {
    forall id | id in net.nodes ensures EntryOk(net.(snapshots := snapshots), id) {
      assert EntryOk(net, id);
    }
  }

  lemma ConnectKeeps(net: Net, id: NodeId, info: NodeInfo)
    requires Inv(net)
    ensures Inv(ConnectNode(net, id, info))
  {
    if !(id in net.nodes && net.nodes[id].info == Some(info)) {
      assert id in net.nodes ==> EntryOk(net, id);
      RegisterKeeps(net, id, info);
      RegisterStatus(net, id, info);
      ChangesKeep(RegisterNode(net, id, info), ConnectNode(net, id, info).changes);
    } else {
      ChangesKeep(net, net.changes + [id]);
    }
  }

  lemma ChangesKeep(net: Net, changes: seq<NodeId>)
    requires Inv(net)
    ensures Inv(net.(changes := changes))
  {
    forall id | id in net.nodes ensures EntryOk(net.(changes := changes), id) {
      assert EntryOk(net, id);
    }
  }

  lemma DelegateKeeps(net: Net, k: nat)
    requires Inv(net)
    ensures Inv(DelegateChange(net, k))
  {
    if k < |net.changes| {
      var net' := net.(changes := net.changes[..k] + net.changes[k + 1..]);
      ChangesKeep(net, net'.changes);
      if LeaderRef(net).Some? {
        var leader := net.metrics.value.currentLeader.value;
        assert EntryOk(net, leader);
        if LeaderDelegate(net).Delegate? {
          SendKeeps(net', LeaderDelegate(net).addr, ChangeClusterConfig([net.changes[k]], []));
        }
      }
    }
  }

  lemma StatusKeeps(net: Net, id: NodeId, status: NodeStatus)
    requires Inv(net)
    ensures Inv(OnNodeStatus(net, id, status))
  {
    NodeSetsKeep(net, OnNodeStatus(net, id, status).state);
  }

  /** An actor's oldest unhandled message counted as handled. */
  function MarkHandled(net: Net, a: Address): Net
    requires a < |net.actors|
  {
    net.(actors := net.actors[a := net.actors[a].(delivered := net.actors[a].delivered + 1)])
  }

  lemma HandledKeeps(net: Net, a: Address)
    requires Inv(net) && a < |net.actors| && net.actors[a].delivered < |net.actors[a].sent|
    ensures Inv(MarkHandled(net, a))
  {
    SetActorKeeps(net, a, net.actors[a].(delivered := net.actors[a].delivered + 1));
  }

  lemma HandleStatusKeeps(net: Net, a: Address)
    requires Inv(net)
    ensures Inv(HandleStatus(net, a))
  {
    if a < |net.actors| && net.actors[a].delivered < |net.actors[a].sent| {
      HandledKeeps(net, a);
      StatusKeeps(MarkHandled(net, a), net.actors[a].id, net.actors[a].sent[net.actors[a].delivered]);
      assert HandleStatus(net, a) ==
             OnNodeStatus(MarkHandled(net, a), net.actors[a].id, net.actors[a].sent[net.actors[a].delivered]);
    }
  }

  lemma MetricsKeep(net: Net, m: Metrics, now: Time)
    requires Inv(net)
    ensures OnMetrics(net, m, now).Some? && Inv(OnMetrics(net, m, now).value)
  {
    NetStateLemmas.MetricsPanic(net.state, m.state, now);
    var net' := OnMetrics(net, m, now).value;
    forall id | id in net'.nodes ensures EntryOk(net', id) {
      assert EntryOk(net, id);
    }
  }

  /** The panics left: a Raft registered without an own entry, and a snapshot call continued without an address. */
  predicate Panics(net: Net, ev: Event) {
    match ev
    case RaftRegistered(_) => net.id !in net.nodes
    case SnapshotForwarded(k) => k < |net.snapshots| && NoAddress(net, net.snapshots[k])
    case _ => false
  }

  /** The target is not registered, or it is the own node and Raft is not known. */
  predicate NoAddress(net: Net, target: NodeId) {
    target !in net.nodes || (target == net.id && net.raft.None?)
  }

  lemma SnapshotForwardedKeeps(net: Net, k: nat)
    requires Inv(net)
    ensures Step(net, SnapshotForwarded(k)).None? <==> Panics(net, SnapshotForwarded(k))
    ensures Step(net, SnapshotForwarded(k)).Some? ==> Inv(Step(net, SnapshotForwarded(k)).value)
  {
    if k < |net.snapshots| {
      assert net.snapshots[k] in net.nodes ==> EntryOk(net, net.snapshots[k]);
      SnapshotsKeep(net, net.snapshots[..k] + net.snapshots[k + 1..]);
    }
  }

  /** Every step keeps the invariant, and panics exactly as listed. */
  lemma StepKeeps(net: Net, ev: Event)
    requires Inv(net)
    ensures Step(net, ev).None? <==> Panics(net, ev)
    ensures Step(net, ev).Some? ==> Inv(Step(net, ev).value)
  {
    match ev
    case RaftRegistered(raft) => RaftRegisteredKeeps(net, raft);
    case ProximitySent => ProximitySentKeeps(net);
    case MetricsArrived(m, now) => MetricsKeep(net, m, now);
    case ConnectArrived(id, info) => ConnectKeeps(net, id, info);
    case ChangeDelegated(k) => DelegateKeeps(net, k);
    case DisconnectArrived(id) => DisconnectKeeps(net, id);
    case StatusHandled(a) => HandleStatusKeeps(net, a);
    case DisconnectAsked(a) => SendKeeps(net, a, Disconnect);
    case SnapshotArrived(target, _) => SnapshotsKeep(net, net.snapshots + [target]);
    case SnapshotForwarded(k) => SnapshotForwardedKeeps(net, k);
    case Connecting(_, _) => ActorStepKeeps(net, ev);
    case ConnectFinished(_) => ActorStepKeeps(net, ev);
    case RetryTimerFired(_) => ActorStepKeeps(net, ev);
    case MessageHandled(_) => ActorStepKeeps(net, ev);
  }

  /** The actor's work that an event stands for. */
  function WorkOf(ev: Event): Option<(Address, Work)> {
    match ev
    case Connecting(a, reachable) => Some((a, Work.Connecting(reachable)))
    case ConnectFinished(a) => Some((a, Finishing))
    case RetryTimerFired(a) => Some((a, RetryTimer))
    case MessageHandled(a) => Some((a, Message))
    case _ => None
  }

  lemma WorkIsStep(net: Net, ev: Event)
    requires WorkOf(ev).Some?
    ensures var (a, w) := WorkOf(ev).value;
            Step(net, ev) == if a < |net.actors| then SetActor(net, a, Do(net.actors[a], w)) else Some(net)
  {
  }

  lemma ActorStepKeeps(net: Net, ev: Event)
    requires Inv(net) && WorkOf(ev).Some?
    ensures Step(net, ev).Some? && Inv(Step(net, ev).value)
  {
    WorkIsStep(net, ev);
    ActorKeeps(net, WorkOf(ev).value.0, WorkOf(ev).value.1);
  }

  lemma ActorKeeps(net: Net, a: Address, w: Work)
    requires Inv(net)
    ensures a < |net.actors| ==>
              SetActor(net, a, Do(net.actors[a], w)).Some? && Inv(SetActor(net, a, Do(net.actors[a], w)).value)
  {
    if a < |net.actors| {
      WorkKeeps(net.actors[a], w, net.id);
      SetActorKeeps(net, a, Do(net.actors[a], w).value);
    }
  }

  lemma DisconnectKeeps(net: Net, id: NodeId)
    requires Inv(net)
    ensures Inv(DisconnectNode(net, id))
  {
    forall j | j in DisconnectNode(net, id).nodes ensures EntryOk(DisconnectNode(net, id), j) {
      assert EntryOk(net, j);
    }
  }

  /* ---------- what stays over a run ---------- */

  /** Actors stay where they are and what they are, and no actor of another node changes its address. */
  predicate Grows(net: Net, later: Net) {
    && later.id == net.id && |net.actors| <= |later.actors|
    && (forall a :: 0 <= a < |net.actors| ==>
          && later.actors[a].id == net.actors[a].id
          && (net.actors[a].proximity.Remote? ==> later.actors[a].proximity == net.actors[a].proximity))
  }

  lemma RaftGrows(net: Net, raft: RaftAddress)
    requires RegisterRaft(net, raft).Some?
    ensures Grows(net, RegisterRaft(net, raft).value)
  {
  }

  lemma WorkGrows(net: Net, ev: Event)
    requires Inv(net) && WorkOf(ev).Some? && Step(net, ev).Some?
    ensures Grows(net, Step(net, ev).value)
  {
    WorkIsStep(net, ev);
    var (a, w) := WorkOf(ev).value;
    if a < |net.actors| {
      assert Speaks(net.actors[a]) && Placed(net.actors[a], net.id);
      WorkKeeps(net.actors[a], w, net.id);
    }
  }

  lemma SendGrows(net: Net)
    ensures Grows(net, SendProximity(net))
  {
  }

  lemma DelegateGrows(net: Net, k: nat)
    ensures Grows(net, DelegateChange(net, k))
  {
  }

  lemma StatusGrows(net: Net, a: Address)
    ensures Grows(net, HandleStatus(net, a))
  {
  }

  lemma StepGrows(net: Net, ev: Event)
    requires Inv(net) && Step(net, ev).Some?
    ensures Grows(net, Step(net, ev).value)
  {
    match ev
    case RaftRegistered(raft) => RaftGrows(net, raft);
    case ProximitySent => SendGrows(net);
    case MetricsArrived(_, _) =>
    case ConnectArrived(id, info) => RegisterStatus(net, id, info);
    case ChangeDelegated(k) => DelegateGrows(net, k);
    case DisconnectArrived(_) =>
    case StatusHandled(a) => StatusGrows(net, a);
    case DisconnectAsked(_) =>
    case SnapshotArrived(_, _) =>
    case SnapshotForwarded(_) =>
    case _ => WorkGrows(net, ev);
  }

  lemma {:induction false} RunGrows(net: Net, evs: seq<Event>)
    requires Inv(net) && Run(net, evs).Some?
    ensures Inv(Run(net, evs).value) && Grows(net, Run(net, evs).value)
    decreases |evs|
  {
    if evs != [] {
      StepKeeps(net, evs[0]);
      StepGrows(net, evs[0]);
      RunGrows(Step(net, evs[0]).value, evs[1..]);
    }
  }

  /* ---------- startup ---------- */

  /** Before startup: entries with info and no actors. */
  ghost predicate Configured(net: Net) {
    && net.raft == None && net.actors == [] && net.metrics == None
    && net.changes == [] && net.updates == [] && net.snapshots == []
    && net.state.status == Joining && NetStateLemmas.WellFormed(net.state)
    && net.state.connected == {} && net.state.isolated == {}
    && net.id in net.nodes
    && (forall id :: id in net.nodes ==>
          net.nodes[id].id == id && net.nodes[id].info.Some? && net.nodes[id].addr == None)
  }

  lemma {:induction false} ConfigureKeeps(net: Net, seeds: seq<NodeInfo>, idOf: string -> NodeId)
    requires Configured(net)
    ensures Configured(ConfigureWith(net, seeds, idOf))
    decreases |seeds|
  {
    if seeds != [] {
      var id := idOf(seeds[0].clusterAddress);
      ConfigureKeeps(net.(nodes := net.nodes[id := NodeRef(id, Some(seeds[0]), None)]), seeds[1..], idOf);
    }
  }

  /** During startup: the nodes visited so far are whole, the others are as configured. */
  ghost predicate Starting(net: Net, configured: map<NodeId, NodeRef>, order: seq<NodeId>) {
    && net.raft == None && net.updates == [] && StatusOk(net)
    && net.state.connected == {} && net.state.isolated == {}
    && net.nodes.Keys == configured.Keys && net.id in net.nodes
    && (forall id :: id in net.nodes ==>
          && configured[id].info.Some?
          && (if id in order then
                && net.nodes[id].id == id && net.nodes[id].info.Some?
                && (net.nodes[id].addr.Some? ==> EntryOk(net, id))
              else EntryOk(net, id)))
    && (forall a :: 0 <= a < |net.actors| ==>
          && Placed(net.actors[a], net.id) && Speaks(net.actors[a])
          && net.actors[a].sent == [] && net.actors[a].id in net.nodes)
  }

  lemma {:induction false} StartKeeps(net: Net, configured: map<NodeId, NodeRef>, order: seq<NodeId>)
    requires Starting(net, configured, order)
    ensures Starting(StartNodes(net, configured, order), configured, [])
    ensures StartNodes(net, configured, order).id == net.id
    decreases |order|
  {
    if order != [] {
      var id := order[0];
      assert forall j :: j in order <==> j == id || j in order[1..];
      if id in configured {
        StartOne(net, configured, order);
        StartKeeps(RegisterNode(net, id, configured[id].info.value), configured, order[1..]);
      } else {
        StartKeeps(net, configured, order[1..]);
      }
    }
  }

  lemma StartOne(net: Net, configured: map<NodeId, NodeRef>, order: seq<NodeId>)
    requires Starting(net, configured, order) && order != [] && order[0] in configured
    ensures Starting(RegisterNode(net, order[0], configured[order[0]].info.value), configured, order[1..])
  {
    var id := order[0];
    var info := configured[id].info.value;
    var net' := RegisterNode(net, id, info);
    assert forall j :: j in order <==> j == id || j in order[1..];
    RegisterStatus(net, id, info);
    RegisterActors(net, id, info);
    RegisterThis(net, id, info);
    forall j | j in net'.nodes && j != id
      ensures net'.nodes[j] == net.nodes[j]
      ensures EntryOk(net, j) ==> EntryOk(net', j)
    {
      if EntryOk(net, j) {
        RegisterOther(net, id, info, j);
      }
    }
  }

  /** A network that has just started has its invariant, and nothing connected or isolated. */
  lemma BootOk(id: NodeId, info: NodeInfo, seeds: seq<NodeInfo>, idOf: string -> NodeId, order: seq<NodeId>, now: Time)
    requires Visits(order, ConfigureWith(New(id, info, now), seeds, idOf).nodes)
    ensures var net := Boot(id, info, seeds, idOf, order, now);
            && Inv(net) && net.raft == None && net.id == id
            && net.state.connected == {} && net.state.isolated == {}
            && (forall a :: 0 <= a < |net.actors| ==> net.actors[a].sent == [] && net.actors[a].id in net.nodes)
  {
    ConfigureKeeps(New(id, info, now), seeds, idOf);
    ConfigureSameId(New(id, info, now), seeds, idOf);
    var net := ConfigureWith(New(id, info, now), seeds, idOf);
    StartKeeps(net, net.nodes, order);
  }

  lemma {:induction false} ConfigureSameId(net: Net, seeds: seq<NodeInfo>, idOf: string -> NodeId)
    ensures ConfigureWith(net, seeds, idOf).id == net.id
    decreases |seeds|
  {
    if seeds != [] {
      var id := idOf(seeds[0].clusterAddress);
      ConfigureSameId(net.(nodes := net.nodes[id := NodeRef(id, Some(seeds[0]), None)]), seeds[1..], idOf);
    }
  }

  /* ---------- whole runs ---------- */

  lemma {:induction false} RunKeeps(net: Net, evs: seq<Event>)
    requires Inv(net)
    ensures Run(net, evs).Some? ==> Inv(Run(net, evs).value)
    decreases |evs|
  {
    if evs != [] {
      StepKeeps(net, evs[0]);
      if Step(net, evs[0]).Some? {
        RunKeeps(Step(net, evs[0]).value, evs[1..]);
      }
    }
  }
}
