/**
 One network and the node actors it has started, as a state machine. A step is
 one message handled by the network, or one piece of work of a node actor.
 */
module NetworkSpec {
  import opened Wrappers
  import opened RaftMessages
  import opened NetStateSpec

  datatype NodeInfo = NodeInfo(name: string, clusterAddress: string, appAddress: string, publicAddress: string)

  /** A node actor, by its position among the actors the network has started. */
  type Address = nat

  /** The address of a Raft actor. */
  type RaftAddress = nat

  datatype NodeRef = NodeRef(id: NodeId, info: Option<NodeInfo>, addr: Option<Address>)

  datatype Proximity =
    | Local(localId: NodeId, raft: RaftAddress)
    | Remote(remoteId: NodeId, remoteInfo: NodeInfo)

  datatype NodeStatus = Initialized | WeaklyConnected | Connected | Failure(attempts: int) | Disconnected

  predicate IsConnected(status: NodeStatus) {
    status == Connected || status == WeaklyConnected
  }

  datatype NodeMessage =
    | UpdateProximity(proximity: Proximity)
    | Disconnect
    | ChangeClusterConfig(toAdd: seq<NodeId>, toRemove: seq<NodeId>)

  /**
   A node actor: its fields, the work it has put off (`connects` connect
   messages to itself, `timers` running retry timers, `tasks` connect tasks that
   got an answer and have not reported it), the status messages it has sent to
   the network and how many of them the network has handled, the messages that
   wait in its mailbox, and the config changes it has proposed to Raft.
   */
  datatype Actor = Actor(
    id: NodeId,
    localId: NodeId,
    proximity: Proximity,
    status: NodeStatus,
    connects: nat,
    timers: nat,
    tasks: nat,
    sent: seq<NodeStatus>,
    delivered: nat,
    inbox: seq<NodeMessage>,
    proposals: seq<(seq<NodeId>, seq<NodeId>)>)

  /* ---------- node actor ---------- */

  /** A started actor has told itself to connect. */
  function StartActor(id: NodeId, localId: NodeId, proximity: Proximity): Actor {
    Actor(id, localId, proximity, Initialized, 1, 0, 0, [], 0, [], [])
  }

  /** The message is sent; the status field stays as it is. None is the panic. */
  function ApplyStatusChange(a: Actor, status: NodeStatus): Option<Actor> {
    match status
    case Initialized => None
    case Failure(attempts) =>
      Some(a.(sent := a.sent + [if 3 < attempts then Disconnected else status]))
    case _ => Some(a.(sent := a.sent + [status]))
  }

  function NextFailure(status: NodeStatus): NodeStatus {
    match status
    case Failure(attempts) => Failure(attempts + 1)
    case _ => Failure(1)
  }

  /** Handle one connect message; `reachable` is the answer of a remote node. */
  function HandleConnect(a: Actor, reachable: bool): Option<Actor> {
    if a.connects == 0 then Some(a)
    else
      var b := a.(connects := a.connects - 1);
      if IsConnected(a.status) then Some(b.(tasks := b.tasks + 1))
      else if a.proximity.Local? || reachable then ApplyStatusChange(b.(tasks := b.tasks + 1), WeaklyConnected)
      else ApplyStatusChange(b.(timers := b.timers + 1), NextFailure(a.status))
  }

  function FinishConnect(a: Actor): Option<Actor> {
    if a.tasks == 0 then Some(a) else ApplyStatusChange(a.(tasks := a.tasks - 1), Connected)
  }

  function RetryDue(a: Actor): Actor {
    if a.timers == 0 then a else a.(timers := a.timers - 1, connects := a.connects + 1)
  }

  function DisconnectActor(a: Actor): Option<Actor> {
    if IsConnected(a.status) then ApplyStatusChange(a, Disconnected) else Some(a)
  }

  /** Handle the oldest message in the mailbox. A remote node cannot change the cluster: that is a panic. */
  function HandleMessage(a: Actor): Option<Actor> {
    if a.inbox == [] then Some(a)
    else
      var b := a.(inbox := a.inbox[1..]);
      match a.inbox[0]
      case UpdateProximity(p) => Some(b.(proximity := p))
      case Disconnect => DisconnectActor(b)
      case ChangeClusterConfig(toAdd, toRemove) =>
        if a.proximity.Local? then Some(b.(proposals := b.proposals + [(toAdd, toRemove)])) else None
  }

  /* ---------- network ---------- */

  datatype Metrics = Metrics(state: RaftState, currentLeader: Option<NodeId>)

  /**
   A network. The last three fields are what handlers have left to be continued
   when the network gets to it: `changes`, the connected ids whose cluster change
   has to be passed to the leader; `updates`, the new proximities to be sent to
   node actors; `snapshots`, the targets of snapshot calls that were let in and
   have to be forwarded.
   */
  datatype Net = Net(
    id: NodeId,
    info: NodeInfo,
    state: NetState,
    nodes: map<NodeId, NodeRef>,
    metrics: Option<Metrics>,
    raft: Option<RaftAddress>,
    actors: seq<Actor>,
    changes: seq<NodeId>,
    updates: seq<(Address, Proximity)>,
    snapshots: seq<NodeId>)

  function New(id: NodeId, info: NodeInfo, now: Time): Net {
    Net(id, info, Default(now), map[id := NodeRef(id, Some(info), None)], None, None, [], [], [], [])
  }

  function ConfigureWith(net: Net, seeds: seq<NodeInfo>, idOf: string -> NodeId): Net
    decreases |seeds|
  {
    if seeds == [] then net
    else
      var id := idOf(seeds[0].clusterAddress);
      ConfigureWith(net.(nodes := net.nodes[id := NodeRef(id, Some(seeds[0]), None)]), seeds[1..], idOf)
  }

  function DetermineProximity(
    localId: NodeId, id: NodeId, info: NodeInfo, raft: Option<RaftAddress>): Option<Proximity>
  {
    if id == localId then
      match raft
      case Some(r) => Some(Local(localId, r))
      case None => None
    else Some(Remote(id, info))
  }

  /** The registry entry after its info is set, with a new actor unless it is current already. */
  function Enroll(net: Net, id: NodeId, info: NodeInfo): Net {
    var ref := if id in net.nodes then net.nodes[id] else NodeRef(id, Some(info), None);
    if ref.info == Some(info) && ref.addr.Some? then net
    else
      match DetermineProximity(net.id, id, info, net.raft)
      case None => net.(nodes := net.nodes[id := ref.(info := Some(info))])
      case Some(p) =>
        net.(nodes := net.nodes[id := ref.(info := Some(info), addr := Some(|net.actors|))],
        actors := net.actors + [StartActor(id, net.id, p)])
  }

  function RegisterNode(net: Net, id: NodeId, info: NodeInfo): Net {
    var net' := Enroll(net, id, info);
    net'.(state := RestoreNode(net'.state, id))
  }

  /** Startup registers every configured node that has info, as the registry stood at startup. */
  function StartNodes(net: Net, configured: map<NodeId, NodeRef>, order: seq<NodeId>): Net
    decreases |order|
  {
    if order == [] then net
    else
      var id := order[0];
      var net' :=
        if id in configured && configured[id].info.Some?
        then RegisterNode(net, id, configured[id].info.value) else net;
      StartNodes(net', configured, order[1..])
  }

  function Send(net: Net, a: Address, msg: NodeMessage): Net {
    if a < |net.actors| then net.(actors := net.actors[a := net.actors[a].(inbox := net.actors[a].inbox + [msg])])
    else net
  }

  /** None is the panic of a network without an entry for itself. */
  function RegisterRaft(net: Net, raft: RaftAddress): Option<Net> {
    var net' := net.(raft := Some(raft));
    if net.id !in net.nodes then None
    else match net.nodes[net.id]
      case NodeRef(id, Some(info), Some(addr)) =>
        (match DetermineProximity(net.id, id, info, Some(raft))
         case None => Some(net')
         case Some(p) => Some(net'.(updates := net'.updates + [(addr, p)])))
      case NodeRef(id, Some(info), None) => Some(RegisterNode(net', id, info))
      case NodeRef(_, None, _) => Some(net')
  }

  /** Continue registering Raft: these continuations are ready at once and run in the order they were made. */
  function SendProximity(net: Net): Net {
    if net.updates == [] then net
    else Send(net.(updates := net.updates[1..]), net.updates[0].0, UpdateProximity(net.updates[0].1))
  }

  function OnMetrics(net: Net, m: Metrics, now: Time): Option<Net> {
    match OnRaftState(net.state, m.state, now)
    case None => None
    case Some(state) => Some(net.(state := state, metrics := Some(m)))
  }

  function OnNodeStatus(net: Net, id: NodeId, status: NodeStatus): Net {
    if id !in net.nodes then net
    else match status
      case Initialized => net.(state := IsolateNode(net.state, id))
      case WeaklyConnected => net.(state := IsolateNode(net.state, id))
      case Connected => net.(state := RestoreNode(net.state, id))
      case Failure(_) => net
      case Disconnected => net.(state := IsolateNode(net.state, id))
  }

  function ConnectNode(net: Net, id: NodeId, info: NodeInfo): Net {
    var net' := if id in net.nodes && net.nodes[id].info == Some(info) then net else RegisterNode(net, id, info);
    net'.(changes := net'.changes + [id])
  }

  function DisconnectNode(net: Net, id: NodeId): Net {
    net.(nodes := net.nodes - {id})
  }

  /* ---------- leader ---------- */

  datatype Leader =
    | Delegate(addr: Address)
    | NotLeader(leaderId: NodeId, leaderAddress: string)
    | NoElectedLeader
    | Unknown

  function LeaderRef(net: Net): Option<NodeRef> {
    if net.metrics.Some? && net.metrics.value.currentLeader.Some?
       && net.metrics.value.currentLeader.value in net.nodes
    then Some(net.nodes[net.metrics.value.currentLeader.value])
    else None
  }

  function LeaderDelegate(net: Net): Leader {
    match LeaderRef(net)
    case None => NoElectedLeader
    case Some(ref) =>
      if ref.id == net.id && ref.addr.Some? then Delegate(ref.addr.value)
      else if net.id == ref.id then Unknown
      else if ref.info.Some? then NotLeader(ref.id, ref.info.value.clusterAddress)
      else Unknown
  }

  /**
   Where a client request goes: to the leader's actor, wherever the leader is.
   The leader is resolved when the request is handled; the address of another
   node is looked up when the network, which is `later` by then, continues it.
   */
  function ClientRoute(net: Net, later: Net): Leader {
    ContinueRoute(LeaderDelegate(net), later)
  }

  function ContinueRoute(resolved: Leader, later: Net): Leader {
    match resolved
    case NotLeader(id, address) =>
      (match GetNode(later, id)
       case Some(addr) => Delegate(addr)
       case None => NotLeader(id, address))
    case other => other
  }

  /** Continue a connect: pass its cluster change to the leader, if that is this network. */
  function DelegateChange(net: Net, k: nat): Net {
    if k >= |net.changes| then net
    else
      var id := net.changes[k];
      var net' := net.(changes := net.changes[..k] + net.changes[k + 1..]);
      match LeaderDelegate(net)
      case Delegate(addr) => Send(net', addr, ChangeClusterConfig([id], []))
      case _ => net'
  }

  /** The answer to a connect whose cluster change meets this leader: an acknowledgement, unless routing is broken. */
  predicate ConnectAcknowledged(net: Net) {
    !LeaderDelegate(net).Unknown?
  }

  /* ---------- gates of the Raft calls ---------- */

  datatype Gate = Forward(addr: Address) | Refuse | Panic

  function GetNode(net: Net, id: NodeId): Option<Address> {
    if id in net.nodes then net.nodes[id].addr else None
  }

  function AppendEntriesGate(net: Net, target: NodeId, leader: NodeId): Gate {
    match GetNode(net, target)
    case None => Refuse
    case Some(addr) =>
      if target in net.state.isolated || leader in net.state.isolated then Refuse else Forward(addr)
  }

  function VoteGate(net: Net, target: NodeId, candidate: NodeId): Gate {
    match GetNode(net, target)
    case None => Refuse
    case Some(addr) =>
      if target in net.state.isolated || candidate in net.state.isolated then Refuse else Forward(addr)
  }

  /** This handler tests only that the target is registered and neither end isolated. */
  predicate SnapshotAdmitted(net: Net, target: NodeId, leader: NodeId) {
    target in net.nodes && target !in net.state.isolated && leader !in net.state.isolated
  }

  /** Its continuation takes the target's address for granted. */
  function SnapshotGate(later: Net, target: NodeId): Gate {
    match GetNode(later, target)
    case None => Panic
    case Some(addr) => Forward(addr)
  }

  /** A snapshot call that is handled in one state of the network and continued in another. */
  function InstallSnapshotGate(net: Net, later: Net, target: NodeId, leader: NodeId): Gate {
    if SnapshotAdmitted(net, target, leader) then SnapshotGate(later, target) else Refuse
  }

  /** A call that is handled by `net`; `later` is the network when it continues the call. */
  function RpcGate<D>(net: Net, later: Net, rpc: Rpc<D>): Gate {
    match rpc
    case AppendEntries(m) => AppendEntriesGate(net, m.target, m.leaderId)
    case Vote(m) => VoteGate(net, m.target, m.candidateId)
    case InstallSnapshot(m) => InstallSnapshotGate(net, later, m.target, m.leaderId)
  }

  function AdmitSnapshot(net: Net, target: NodeId, leader: NodeId): Net {
    if SnapshotAdmitted(net, target, leader) then net.(snapshots := net.snapshots + [target]) else net
  }

  /** Continue a snapshot call. None is the panic on a target without an address. */
  function ForwardSnapshot(net: Net, k: nat): Option<Net> {
    if k >= |net.snapshots| then Some(net)
    else if SnapshotGate(net, net.snapshots[k]).Panic? then None
    else Some(net.(snapshots := net.snapshots[..k] + net.snapshots[k + 1..]))
  }

  /* ---------- runs ---------- */

  datatype Event =
    | RaftRegistered(raft: RaftAddress)
    | ProximitySent
    | MetricsArrived(metrics: Metrics, now: Time)
    | ConnectArrived(id: NodeId, info: NodeInfo)
    | ChangeDelegated(k: nat)
    | DisconnectArrived(id: NodeId)
    | StatusHandled(a: Address)
    | Connecting(a: Address, reachable: bool)
    | ConnectFinished(a: Address)
    | RetryTimerFired(a: Address)
    | MessageHandled(a: Address)
    | DisconnectAsked(a: Address)
    | SnapshotArrived(target: NodeId, leader: NodeId)
    | SnapshotForwarded(k: nat)

  /** The network handles the oldest status message of an actor. */
  function HandleStatus(net: Net, a: Address): Net {
    if a < |net.actors| && net.actors[a].delivered < |net.actors[a].sent| then
      var actor := net.actors[a];
      OnNodeStatus(
        net.(actors := net.actors[a := actor.(delivered := actor.delivered + 1)]),
        actor.id, actor.sent[actor.delivered])
    else net
  }

  function SetActor(net: Net, a: Address, actor: Option<Actor>): Option<Net>
    requires a < |net.actors|
  {
    match actor
    case None => None
    case Some(b) => Some(net.(actors := net.actors[a := b]))
  }

  /** One step; None when a handler panics. Work of an actor that does not exist is no step. */
  function Step(net: Net, ev: Event): Option<Net> {
    match ev
    case RaftRegistered(raft) => RegisterRaft(net, raft)
    case ProximitySent => Some(SendProximity(net))
    case MetricsArrived(m, now) => OnMetrics(net, m, now)
    case ConnectArrived(id, info) => Some(ConnectNode(net, id, info))
    case ChangeDelegated(k) => Some(DelegateChange(net, k))
    case DisconnectArrived(id) => Some(DisconnectNode(net, id))
    case StatusHandled(a) => Some(HandleStatus(net, a))
    case DisconnectAsked(a) => Some(Send(net, a, Disconnect))
    case SnapshotArrived(target, leader) => Some(AdmitSnapshot(net, target, leader))
    case SnapshotForwarded(k) => ForwardSnapshot(net, k)
    case Connecting(a, reachable) =>
      if a < |net.actors| then SetActor(net, a, HandleConnect(net.actors[a], reachable)) else Some(net)
    case ConnectFinished(a) => if a < |net.actors| then SetActor(net, a, FinishConnect(net.actors[a])) else Some(net)
    case RetryTimerFired(a) => if a < |net.actors| then SetActor(net, a, Some(RetryDue(net.actors[a]))) else Some(net)
    case MessageHandled(a) => if a < |net.actors| then SetActor(net, a, HandleMessage(net.actors[a])) else Some(net)
  }

  function Run(net: Net, evs: seq<Event>): Option<Net>
    decreases |evs|
  {
    if evs == [] then Some(net)
    else match Step(net, evs[0])
      case None => None
      case Some(net') => Run(net', evs[1..])
  }

  /** A network as it is when it starts to handle messages. */
  function Boot(
    id: NodeId, info: NodeInfo, seeds: seq<NodeInfo>, idOf: string -> NodeId, order: seq<NodeId>, now: Time): Net
  {
    var net := ConfigureWith(New(id, info, now), seeds, idOf);
    StartNodes(net, net.nodes, order)
  }

  /** Startup visits every configured node. */
  ghost predicate Visits(order: seq<NodeId>, nodes: map<NodeId, NodeRef>) {
    forall id :: id in order <==> id in nodes
  }
}
