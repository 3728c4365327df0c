/** Calls that networks with wrong addresses forward for ever. */
module ForwardingLoops {
  import opened Wrappers
  import opened RaftMessages
  import opened NetStateSpec
  import opened NetworkSpec
  import opened Registry
  import opened Routing
  import opened Delivery
  import Continuations
  import Entities

  /* ---------- a cluster that does not change ---------- */

  /** Every network knows its Raft. */
  ghost predicate Running(w: World) {
    forall n :: n in w.nets ==> w.nets[n].id == n && Inv(w.nets[n]) && w.nets[n].raft.Some?
  }

  function Frozen(w: World): nat -> World {
    _ => w
  }

  /** Where a network of such a cluster passes a call on to. */
  function FixedHop(w: World, at: NodeId, target: NodeId, sender: NodeId): Option<NodeId> {
    if at in w.nets && target != at && Open(w.nets[at], target, sender) && w.nets[at].nodes[target].info.Some?
    then
      var address := w.nets[at].nodes[target].info.value.clusterAddress;
      if address in w.serves && w.up(at, w.serves[address]) then Some(w.serves[address]) else None
    else None
  }

  /** The network that has the call there after n hops. */
  function FixedWalk(w: World, at: NodeId, target: NodeId, sender: NodeId, n: nat): Option<NodeId>
    decreases n
  {
    if n == 0 then Some(at)
    else match FixedHop(w, at, target, sender)
      case None => None
      case Some(next) => FixedWalk(w, next, target, sender, n - 1)
  }

  lemma {:induction false} WalkIsFixed<D>(w: World, time: nat, at: NodeId, rpc: Rpc<D>, n: nat)
    ensures Walk(Frozen(w), time, at, rpc, n) == FixedWalk(w, at, rpc.Target(), rpc.Sender(), n)
    decreases n
  {
    if n > 0 {
      HopIsFixed(w, at, rpc);
      match FixedHop(w, at, rpc.Target(), rpc.Sender())
      case None =>
      case Some(next) => WalkIsFixed(w, time + 2, next, rpc, n - 1);
    }
  }

  lemma HopIsFixed<D>(w: World, at: NodeId, rpc: Rpc<D>)
    ensures NextHop(w, w, at, rpc) == FixedHop(w, at, rpc.Target(), rpc.Sender())
  {
  }

  lemma {:induction false} FrozenEvolves(w: World, time: nat, hops: nat)
    requires Running(w)
    ensures Evolves(Frozen(w), time, hops)
    decreases hops
  {
    assert RunsOnAt(Frozen(w), time);
    if hops > 0 {
      FrozenEvolves(w, time + 2, hops - 1);
    }
  }

  lemma FrozenFollows<D(!new)>(codec: Entities.AppCodec<D>, w: World, at: NodeId, rpc: Rpc<D>, hops: nat)
    requires Entities.Sound(codec) && Entities.Sendable(codec, rpc) && Running(w)
    ensures Follows(Frozen(w), 0, at, rpc, hops, Deliver(codec, Frozen(w), 0, at, rpc, hops))
  {
    FrozenEvolves(w, 0, hops);
    DeliveryFollowsWalk(codec, Frozen(w), 0, at, rpc, hops);
  }

  /** There a call never crashes: it was let in because the target is registered. */
  lemma FrozenNeverCrashes<D(!new)>(codec: Entities.AppCodec<D>, w: World, at: NodeId, rpc: Rpc<D>, hops: nat)
    requires Entities.Sound(codec) && Entities.Sendable(codec, rpc) && Running(w)
    ensures !Deliver(codec, Frozen(w), 0, at, rpc, hops).Crashed?
  {
    FrozenFollows(codec, w, at, rpc, hops);
  }

  lemma {:induction false} WalkJoin(w: World, at: NodeId, target: NodeId, sender: NodeId, m: nat, n: nat)
    requires FixedWalk(w, at, target, sender, m).Some?
    ensures FixedWalk(w, at, target, sender, m + n) ==
            FixedWalk(w, FixedWalk(w, at, target, sender, m).value, target, sender, n)
    decreases m
  {
    if m > 0 {
      WalkJoin(w, FixedHop(w, at, target, sender).value, target, sender, m - 1, n);
    }
  }

  lemma {:induction false} WalkPrefix(w: World, at: NodeId, target: NodeId, sender: NodeId, m: nat, n: nat)
    requires m <= n && FixedWalk(w, at, target, sender, n).Some?
    ensures FixedWalk(w, at, target, sender, m).Some?
    ensures m < n ==> FixedWalk(w, at, target, sender, m).value in w.nets
    decreases m
  {
    if m > 0 {
      WalkPrefix(w, FixedHop(w, at, target, sender).value, target, sender, m - 1, n - 1);
    }
  }

  /** A walk that comes back to where it was goes on for ever. */
  lemma {:induction false} LoopForever(w: World, at: NodeId, target: NodeId, sender: NodeId, period: nat, n: nat)
    requires period > 0 && FixedWalk(w, at, target, sender, period) == Some(at)
    ensures FixedWalk(w, at, target, sender, n).Some?
    decreases n
  {
    if n < period {
      WalkPrefix(w, at, target, sender, n, period);
    } else {
      LoopForever(w, at, target, sender, period, n - period);
      WalkJoin(w, at, target, sender, period, n - period);
    }
  }

  lemma {:induction false} Pigeonhole(visited: seq<NodeId>, ids: set<NodeId>)
    requires |visited| > |ids| && forall j :: 0 <= j < |visited| ==> visited[j] in ids
    ensures exists j, k :: 0 <= j < k < |visited| && visited[j] == visited[k]
    decreases |visited|
  {
    var last := |visited| - 1;
    if visited[last] in visited[..last] {
      var j :| 0 <= j < last && visited[..last][j] == visited[last];
      assert visited[j] == visited[last];
    } else {
      var front := visited[..last];
      forall j | 0 <= j < |front| ensures front[j] in ids - {visited[last]} {
        assert front[j] == visited[j] && front[j] in visited[..last];
      }
      Pigeonhole(front, ids - {visited[last]});
      var j, k :| 0 <= j < k < |front| && front[j] == front[k];
      assert visited[j] == visited[k];
    }
  }

  /** More hops than networks: some network was visited twice, so the walk never ends. */
  lemma LongWalkLoops(w: World, at: NodeId, target: NodeId, sender: NodeId, n: nat)
    requires FixedWalk(w, at, target, sender, |w.nets| + 1).Some?
    ensures FixedWalk(w, at, target, sender, n).Some?
  {
    var len := |w.nets| + 1;
    forall j: nat | j < len
      ensures FixedWalk(w, at, target, sender, j).Some? && FixedWalk(w, at, target, sender, j).value in w.nets
    {
      WalkPrefix(w, at, target, sender, j, len);
    }
    var visited := seq(len, j requires 0 <= j < len => FixedWalk(w, at, target, sender, j).value);
    assert |w.nets.Keys| == |w.nets|;
    Pigeonhole(visited, w.nets.Keys);
    var j, k :| 0 <= j < k < len && visited[j] == visited[k];
    WalkJoin(w, at, target, sender, j, k - j);
    if n < j {
      WalkPrefix(w, at, target, sender, n, j);
    } else {
      LoopForever(w, visited[j], target, sender, k - j, n - j);
      WalkJoin(w, at, target, sender, j, n - j);
    }
  }

  /**
   So a call that is still being forwarded after as many hops as there are
   networks is forwarded for ever, and only such a call is.
   */
  lemma ForwardsForever<D(!new)>(codec: Entities.AppCodec<D>, w: World, at: NodeId, rpc: Rpc<D>)
    requires Entities.Sound(codec) && Entities.Sendable(codec, rpc) && Running(w)
    ensures Deliver(codec, Frozen(w), 0, at, rpc, |w.nets|).StillForwarding? <==>
            forall hops: nat :: Deliver(codec, Frozen(w), 0, at, rpc, hops).StillForwarding?
  {
    StillOnFixedWalk(codec, w, at, rpc, |w.nets|);
    if Deliver(codec, Frozen(w), 0, at, rpc, |w.nets|).StillForwarding? {
      forall hops: nat ensures Deliver(codec, Frozen(w), 0, at, rpc, hops).StillForwarding? {
        LongWalkLoops(w, at, rpc.Target(), rpc.Sender(), hops + 1);
        StillOnFixedWalk(codec, w, at, rpc, hops);
      }
    }
  }

  lemma StillOnFixedWalk<D(!new)>(codec: Entities.AppCodec<D>, w: World, at: NodeId, rpc: Rpc<D>, hops: nat)
    requires Entities.Sound(codec) && Entities.Sendable(codec, rpc) && Running(w)
    ensures Deliver(codec, Frozen(w), 0, at, rpc, hops).StillForwarding? <==>
            FixedWalk(w, at, rpc.Target(), rpc.Sender(), hops + 1).Some?
  {
    FrozenFollows(codec, w, at, rpc, hops);
    WalkIsFixed(w, 0, at, rpc, hops + 1);
  }

  /* ---------- two networks that forward for ever ---------- */

  /** A network that starts alone, registers its Raft, and is told to connect node 3 at this address. */
  function Told(own: NodeId, info: NodeInfo, idOf: string -> NodeId, now: Time, other: NodeInfo): Option<Net> {
    Run(Continuations.Alone(own, info, idOf, now), [RaftRegistered(0), ConnectArrived(3, other)])
  }

  lemma ToldForwards(own: NodeId, info: NodeInfo, idOf: string -> NodeId, now: Time, other: NodeInfo, sender: NodeId)
    requires own != 3
    ensures var net := Told(own, info, idOf, now, other);
            && net.Some? && Inv(net.value) && net.value.id == own && net.value.raft.Some?
            && Open(net.value, 3, sender) && net.value.nodes[3].info == Some(other)
  {
    Continuations.AloneShape(own, info, idOf, now);
    ToldFrom(Continuations.Alone(own, info, idOf, now), other);
  }

  lemma ToldFrom(boot: Net, other: NodeInfo)
    requires Inv(boot) && boot.nodes.Keys == {boot.id} && boot.id != 3 && boot.state.isolated == {}
    ensures var net := Run(boot, [RaftRegistered(0), ConnectArrived(3, other)]);
            && net.Some? && Inv(net.value) && net.value.id == boot.id && net.value.raft.Some?
            && net.value.state.isolated == {}
            && 3 in net.value.nodes && net.value.nodes[3].info == Some(other)
  {
    RaftRegisteredKeeps(boot, 0);
    Continuations.RaftLeaves(boot, 0);
    Continuations.RaftIsolates(boot, 0);
    ConnectedForwards(RegisterRaft(boot, 0).value, other);
    ToldRun(boot, RegisterRaft(boot, 0).value, other);
  }

  lemma ToldRun(boot: Net, net: Net, other: NodeInfo)
    requires RegisterRaft(boot, 0) == Some(net)
    ensures Run(boot, [RaftRegistered(0), ConnectArrived(3, other)]) == Some(ConnectNode(net, 3, other))
  {
    var evs := [RaftRegistered(0), ConnectArrived(3, other)];
    Continuations.RunTo(boot, evs, net);
    Continuations.RunTo(net, evs[1..], ConnectNode(net, 3, other));
    assert evs[2..] == [];
  }

  lemma ConnectedForwards(net: Net, other: NodeInfo)
    requires Inv(net) && 3 !in net.nodes && net.state.isolated == {}
    ensures var net' := ConnectNode(net, 3, other);
            && Inv(net') && net'.id == net.id && net'.raft == net.raft && net'.state.isolated == {}
            && 3 in net'.nodes && net'.nodes[3].info == Some(other)
  {
    ConnectKeeps(net, 3, other);
    RegisterStatus(net, 3, other);
  }

  function Pair(net1: Net, net2: Net, address1: string, address2: string): World {
    World(map[1 := net1, 2 := net2], map[address1 := 1][address2 := 2], (_, _) => true)
  }

  /** A network that knows node 3 at this address and would let a call for it out. */
  predicate Forwards(net: Net, address: string, sender: NodeId) {
    && Open(net, 3, sender) && net.nodes[3].info.Some?
    && net.nodes[3].info.value.clusterAddress == address
  }

  lemma PairHops(net1: Net, net2: Net, address1: string, address2: string, sender: NodeId)
    requires address1 != address2 && Forwards(net1, address2, sender) && Forwards(net2, address1, sender)
    ensures FixedHop(Pair(net1, net2, address1, address2), 1, 3, sender) == Some(2)
    ensures FixedHop(Pair(net1, net2, address1, address2), 2, 3, sender) == Some(1)
  {
  }

  /** The two networks, each told that node 3 is at the address of the other. */
  function Misrouted(one: NodeInfo, two: NodeInfo, idOf: string -> NodeId, now: Time): Option<World> {
    var net1, net2 := Told(1, one, idOf, now, two), Told(2, two, idOf, now, one);
    if net1.Some? && net2.Some? then Some(Pair(net1.value, net2.value, one.clusterAddress, two.clusterAddress))
    else None
  }

  lemma MisroutedHops(one: NodeInfo, two: NodeInfo, idOf: string -> NodeId, now: Time, sender: NodeId)
    requires one.clusterAddress != two.clusterAddress
    ensures var w := Misrouted(one, two, idOf, now);
            && w.Some? && Running(w.value)
            && FixedHop(w.value, 1, 3, sender) == Some(2) && FixedHop(w.value, 2, 3, sender) == Some(1)
  {
    ToldForwards(1, one, idOf, now, two, sender);
    ToldForwards(2, two, idOf, now, one, sender);
    var net1, net2 := Told(1, one, idOf, now, two).value, Told(2, two, idOf, now, one).value;
    PairHops(net1, net2, one.clusterAddress, two.clusterAddress, sender);
  }

  lemma BackAndForth(w: World, one: NodeId, other: NodeId, target: NodeId, sender: NodeId)
    requires FixedHop(w, one, target, sender) == Some(other) && FixedHop(w, other, target, sender) == Some(one)
    ensures FixedWalk(w, one, target, sender, 2) == Some(one)
  {
    assert FixedWalk(w, other, target, sender, 1) == FixedWalk(w, one, target, sender, 0);
  }

  /** The condition on addresses is needed: this cluster comes out of two runs, and a call for node 3 never stops. */
  lemma MisroutedForever<D(!new)>(
    codec: Entities.AppCodec<D>, one: NodeInfo, two: NodeInfo, idOf: string -> NodeId, now: Time,
    rpc: Rpc<D>, hops: nat)
    requires Entities.Sound(codec) && Entities.Sendable(codec, rpc) && rpc.Target() == 3
    requires one.clusterAddress != two.clusterAddress
    ensures var w := Misrouted(one, two, idOf, now);
            && w.Some? && Running(w.value)
            && Deliver(codec, Frozen(w.value), 0, 1, rpc, hops).StillForwarding?
  {
    var sender := rpc.Sender();
    MisroutedHops(one, two, idOf, now, sender);
    var w := Misrouted(one, two, idOf, now).value;
    BackAndForth(w, 1, 2, 3, sender);
    LoopForever(w, 1, 3, sender, 2, hops + 1);
    StillOnFixedWalk(codec, w, 1, rpc, hops);
  }
}
