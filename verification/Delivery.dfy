/** A Raft call on its way through a cluster of networks that changes while it travels. */
module Delivery {
  import opened Wrappers
  import opened RaftMessages
  import opened NetStateSpec
  import opened NetworkSpec
  import opened Registry
  import opened Routing
  import Entities

  /** The networks by id, which of them serves an address, and which links are up. */
  datatype World = World(nets: map<NodeId, Net>, serves: map<string, NodeId>, up: (NodeId, NodeId) -> bool)

  datatype Outcome<D> =
    | Refused(at: NodeId)
    | Lost
    | Crashed
    | Delivered(raftOf: NodeId, raft: RaftAddress, rpc: Rpc<D>)
    | StillForwarding

  /** What one network does with a call: it ends here, or goes on to another network in the form it is read there. */
  datatype Passage<D> = Ends(outcome: Outcome<D>) | Onward(next: NodeId, received: Rpc<D>)

  /**
   A call at one network, in two stages: its handler runs in world w, what the
   handler leaves to be continued and the node actor in the later world.
   */
  function Pass<D>(codec: Entities.AppCodec<D>, w: World, later: World, at: NodeId, rpc: Rpc<D>): Passage<D> {
    if at !in w.nets || at !in later.nets then Ends(Lost)
    else
      match RpcGate(w.nets[at], later.nets[at], rpc)
      case Refuse => Ends(Refused(at))
      case Panic => Ends(Crashed)
      case Forward(addr) =>
        if addr >= |later.nets[at].actors| then Ends(Lost)
        else match later.nets[at].actors[addr].proximity
          case Local(_, raft) => Ends(Delivered(at, raft, rpc))
          case Remote(_, info) =>
            match Entities.BodyFrom(codec, rpc)
            case None => Ends(Crashed)
            case Some(body) =>
              if info.clusterAddress !in later.serves || !later.up(at, later.serves[info.clusterAddress])
              then Ends(Lost)
              else match Entities.BodyInto(codec, body)
                case None => Ends(Crashed)
                case Some(received) => Onward(later.serves[info.clusterAddress], received)
  }

  /**
   Follow a call from a network, over at most `hops` remote hops. Time passes
   between the two stages and with every hop: the call finds the cluster as it is
   when it arrives.
   */
  function Deliver<D>(
    codec: Entities.AppCodec<D>, worlds: nat -> World, time: nat, at: NodeId, rpc: Rpc<D>, hops: nat): Outcome<D>
    decreases hops
  {
    match Pass(codec, worlds(time), worlds(time + 1), at, rpc)
    case Ends(outcome) => outcome
    case Onward(next, received) =>
      if hops == 0 then StillForwarding else Deliver(codec, worlds, time + 2, next, received, hops - 1)
  }

  /** A network that knows its Raft runs on, from one world to a later one. */
  ghost predicate NetRunsOn(w: World, later: World, n: NodeId) {
    && n in w.nets && n in later.nets && w.nets[n].id == n
    && Inv(w.nets[n]) && w.nets[n].raft.Some?
    && Inv(later.nets[n]) && later.nets[n].raft.Some?
    && Grows(w.nets[n], later.nets[n])
  }

  ghost predicate RunsOn(w: World, later: World) {
    forall n :: n in w.nets ==> NetRunsOn(w, later, n)
  }

  /** Every address in the registry of this network is served by the network it is meant for. */
  ghost predicate WellRouted(w: World, serves: map<string, NodeId>, n: NodeId)
    requires n in w.nets
  {
    forall id :: id in w.nets[n].nodes && id != n ==>
                   && w.nets[n].nodes[id].info.Some?
                   && w.nets[n].nodes[id].info.value.clusterAddress in serves
                   && serves[w.nets[n].nodes[id].info.value.clusterAddress] == id
  }

  /** The Raft that a network's own actor submits to. */
  function OwnRaft(net: Net): RaftAddress {
    match GetNode(net, net.id)
    case None => 0
    case Some(addr) =>
      if addr < |net.actors| && net.actors[addr].proximity.Local? then net.actors[addr].proximity.raft else 0
  }

  /** It is the Raft registered last, as soon as no change of proximity waits for the actor or is to be sent to it. */
  lemma OwnRaftIsLatest(net: Net)
    requires Inv(net) && net.raft.Some? && net.id in net.nodes
    requires var addr := net.nodes[net.id].addr;
             addr.Some? && addr.value < |net.actors|
             && (forall msg :: msg in net.actors[addr.value].inbox ==> !msg.UpdateProximity?)
             && (forall j :: 0 <= j < |net.updates| ==> net.updates[j].0 != addr.value)
    ensures OwnRaft(net) == net.raft.value
  {
    assert EntryOk(net, net.id);
    var actor := net.actors[net.nodes[net.id].addr.value];
    NoUpdateWaiting(actor.proximity, actor.inbox);
    AimSentOther(Aim(actor), net.updates, net.nodes[net.id].addr.value);
  }

  lemma {:induction false} NoUpdateWaiting(p: Proximity, inbox: seq<NodeMessage>)
    requires forall msg :: msg in inbox ==> !msg.UpdateProximity?
    ensures AimAfter(p, inbox) == p
    decreases |inbox|
  {
    if inbox != [] {
      NoUpdateWaiting(p, inbox[1..]);
    }
  }

  /* ---------- one network ---------- */

  /** A snapshot call that was let in finds its target gone when it is continued. */
  predicate Vanished<D>(later: World, at: NodeId, rpc: Rpc<D>)
    requires at in later.nets
  {
    rpc.InstallSnapshot? && rpc.Target() !in later.nets[at].nodes
  }

  /** The registry in which the target's address is looked up: a snapshot call does that in its second stage. */
  function Addresses<D>(w: World, later: World, at: NodeId, rpc: Rpc<D>): map<NodeId, NodeRef>
    requires at in w.nets && at in later.nets
  {
    if rpc.InstallSnapshot? then later.nets[at].nodes else w.nets[at].nodes
  }

  predicate LetIn<D>(w: World, at: NodeId, rpc: Rpc<D>) {
    at in w.nets && Open(w.nets[at], rpc.Target(), rpc.Sender())
  }

  function RaftAt(net: Net, addr: Option<Address>): RaftAddress {
    if addr.Some? && addr.value < |net.actors| && net.actors[addr.value].proximity.Local?
    then net.actors[addr.value].proximity.raft else 0
  }

  /** The Raft that the target's own actor submits the call to. */
  function RaftOf<D>(w: World, later: World, rpc: Rpc<D>): RaftAddress
    requires rpc.Target() in w.nets && rpc.Target() in later.nets
  {
    var registry := Addresses(w, later, rpc.Target(), rpc);
    if rpc.Target() in registry then RaftAt(later.nets[rpc.Target()], registry[rpc.Target()].addr) else 0
  }

  /** Where a network passes a call on to: the server of the address it has for the target, over a link that is up. */
  function NextHop<D>(w: World, later: World, at: NodeId, rpc: Rpc<D>): Option<NodeId> {
    if LetIn(w, at, rpc) && at in later.nets && rpc.Target() != at then
      var registry := Addresses(w, later, at, rpc);
      if rpc.Target() in registry && registry[rpc.Target()].info.Some? then
        var address := registry[rpc.Target()].info.value.clusterAddress;
        if address in later.serves && later.up(at, later.serves[address]) then Some(later.serves[address]) else None
      else None
    else None
  }

  /** What the two stages make of a call at one network. */
  lemma GateIs<D>(w: World, later: World, at: NodeId, rpc: Rpc<D>)
    requires NetRunsOn(w, later, at)
    ensures RpcGate(w.nets[at], later.nets[at], rpc) ==
            if !LetIn(w, at, rpc) then Refuse
            else if Vanished(later, at, rpc) then Panic
            else Forward(Addresses(w, later, at, rpc)[rpc.Target()].addr.value)
  {
    GatesAgree(w.nets[at], later.nets[at], rpc.Target(), rpc.Sender());
  }

  /** The actor of a registered node, in the later state of the network. */
  lemma ActorLater(net: Net, later: Net, target: NodeId)
    requires Inv(net) && Inv(later) && Grows(net, later) && target in net.nodes && net.raft.Some?
    ensures var ref := net.nodes[target];
            && ref.addr.Some? && ref.info.Some? && ref.addr.value < |later.actors|
            && (if target == net.id
                then later.actors[ref.addr.value].proximity == Local(target, RaftAt(later, ref.addr))
                else later.actors[ref.addr.value].proximity == Remote(target, ref.info.value))
  {
    assert EntryOk(net, target);
    var addr := net.nodes[target].addr.value;
    assert Placed(later.actors[addr], later.id);
  }

  lemma StandsStill(net: Net)
    ensures Grows(net, net)
  {
  }

  lemma ActorIs<D>(w: World, later: World, at: NodeId, rpc: Rpc<D>)
    requires NetRunsOn(w, later, at) && LetIn(w, at, rpc) && !Vanished(later, at, rpc)
    ensures rpc.Target() in Addresses(w, later, at, rpc)
    ensures var net', target := later.nets[at], rpc.Target();
            var ref := Addresses(w, later, at, rpc)[target];
            && ref.addr.Some? && ref.info.Some? && ref.addr.value < |net'.actors|
            && (if target == at then net'.actors[ref.addr.value].proximity == Local(at, RaftAt(net', ref.addr))
                else net'.actors[ref.addr.value].proximity == Remote(target, ref.info.value))
  {
    if rpc.InstallSnapshot? {
      StandsStill(later.nets[at]);
      ActorLater(later.nets[at], later.nets[at], rpc.Target());
    } else {
      ActorLater(w.nets[at], later.nets[at], rpc.Target());
    }
  }

  /**
   A network refuses a call at its gate, panics on a snapshot call whose target
   vanished, delivers calls for its own node, and passes others on, unchanged, to
   where the address leads.
   */
  function Handling<D>(w: World, later: World, at: NodeId, rpc: Rpc<D>): Passage<D> {
    if at !in w.nets || at !in later.nets then Ends(Lost)
    else if !LetIn(w, at, rpc) then Ends(Refused(at))
    else if Vanished(later, at, rpc) then Ends(Crashed)
    else if rpc.Target() == at then Ends(Delivered(at, RaftOf(w, later, rpc), rpc))
    else match NextHop(w, later, at, rpc)
      case None => Ends(Lost)
      case Some(next) => Onward(next, rpc)
  }

  lemma PassIs<D(!new)>(codec: Entities.AppCodec<D>, w: World, later: World, at: NodeId, rpc: Rpc<D>)
    requires Entities.Sound(codec) && Entities.Sendable(codec, rpc) && (at in w.nets ==> NetRunsOn(w, later, at))
    ensures Pass(codec, w, later, at, rpc) == Handling(w, later, at, rpc)
  {
    if at in w.nets {
      GateIs(w, later, at, rpc);
      if LetIn(w, at, rpc) && !Vanished(later, at, rpc) {
        PassForwards(codec, w, later, at, rpc);
      }
    }
  }

  lemma PassForwards<D(!new)>(codec: Entities.AppCodec<D>, w: World, later: World, at: NodeId, rpc: Rpc<D>)
    requires Entities.Sound(codec) && Entities.Sendable(codec, rpc) && NetRunsOn(w, later, at)
    requires LetIn(w, at, rpc) && !Vanished(later, at, rpc)
    ensures Pass(codec, w, later, at, rpc) == Handling(w, later, at, rpc)
  {
    GateIs(w, later, at, rpc);
    ActorIs(w, later, at, rpc);
    Entities.CallRoundTrip(codec, rpc);
  }

  /** What becomes of a call at its target. */
  function AtTarget<D>(w: World, later: World, rpc: Rpc<D>): Outcome<D> {
    if rpc.Target() !in w.nets || rpc.Target() !in later.nets then Lost
    else if !LetIn(w, rpc.Target(), rpc) then Refused(rpc.Target())
    else if Vanished(later, rpc.Target(), rpc) then Crashed
    else Delivered(rpc.Target(), RaftOf(w, later, rpc), rpc)
  }

  /** What becomes of a call at another network than its target, where the hops after it lead to `rest`. */
  function Elsewhere<D>(w: World, later: World, at: NodeId, rpc: Rpc<D>, hops: nat, rest: Outcome<D>): Outcome<D> {
    if at !in w.nets || at !in later.nets then Lost
    else if !LetIn(w, at, rpc) then Refused(at)
    else if Vanished(later, at, rpc) then Crashed
    else if NextHop(w, later, at, rpc).None? then Lost
    else if hops == 0 then StillForwarding
    else rest
  }

  /* ---------- any addresses ---------- */

  /** The network that has the call after n hops; None if it stopped before. */
  function Walk<D>(worlds: nat -> World, time: nat, at: NodeId, rpc: Rpc<D>, n: nat): Option<NodeId>
    decreases n
  {
    if n == 0 then Some(at)
    else match NextHop(worlds(time), worlds(time + 1), at, rpc)
      case None => None
      case Some(next) => Walk(worlds, time + 2, next, rpc, n - 1)
  }

  /** The time at which the call is at the network it has come to after n hops. */
  function TimeAfter(time: nat, n: nat): nat {
    time + 2 * n
  }

  function TargetAt<D>(worlds: nat -> World, time: nat, rpc: Rpc<D>): Outcome<D> {
    AtTarget(worlds(time), worlds(time + 1), rpc)
  }

  /** At that time the network lets the call in, and then loses the target. */
  predicate VanishesAt<D>(worlds: nat -> World, time: nat, at: NodeId, rpc: Rpc<D>) {
    LetIn(worlds(time), at, rpc) && at in worlds(time + 1).nets && Vanished(worlds(time + 1), at, rpc)
  }

  /** After n hops the call is at its target, which lets it in and keeps it. */
  predicate Arrives<D>(worlds: nat -> World, time: nat, at: NodeId, rpc: Rpc<D>, n: nat) {
    && Walk(worlds, time, at, rpc, n) == Some(rpc.Target())
    && TargetAt(worlds, TimeAfter(time, n), rpc).Delivered?
  }

  /** After n hops the call is at a network that let it in and then lost its target. */
  predicate Crashes<D>(worlds: nat -> World, time: nat, at: NodeId, rpc: Rpc<D>, n: nat) {
    var x := Walk(worlds, time, at, rpc, n);
    x.Some? && VanishesAt(worlds, TimeAfter(time, n), x.value, rpc)
  }

  ghost predicate RunsOnAt(worlds: nat -> World, time: nat) {
    RunsOn(worlds(time), worlds(time + 1))
  }

  /** Networks run on between the two stages at each of the networks that a call can get to. */
  ghost predicate Evolves(worlds: nat -> World, time: nat, hops: nat)
    decreases hops
  {
    RunsOnAt(worlds, time) && (hops == 0 || Evolves(worlds, time + 2, hops - 1))
  }

  /**
   An outcome that follows the walk: delivered exactly when the walk through open
   gates comes to its target in time, then to the target's own Raft and unchanged;
   a panic exactly when it comes to a network from which the target vanishes; still
   being forwarded exactly when the walk goes on.
   */
  ghost predicate Follows<D>(
    worlds: nat -> World, time: nat, at: NodeId, rpc: Rpc<D>, hops: nat, outcome: Outcome<D>)
  {
    && DeliveredOnWalk(worlds, time, at, rpc, hops, outcome)
    && DeliveredThere(worlds, time, at, rpc, hops, outcome)
    && CrashedOnWalk(worlds, time, at, rpc, hops, outcome)
    && (outcome.StillForwarding? <==> Walk(worlds, time, at, rpc, hops + 1).Some?)
  }

  ghost predicate DeliveredOnWalk<D>(
    worlds: nat -> World, time: nat, at: NodeId, rpc: Rpc<D>, hops: nat, outcome: Outcome<D>)
  {
    outcome.Delivered? <==> exists n: nat :: n <= hops && Arrives(worlds, time, at, rpc, n)
  }

  ghost predicate DeliveredThere<D>(
    worlds: nat -> World, time: nat, at: NodeId, rpc: Rpc<D>, hops: nat, outcome: Outcome<D>)
  {
    forall n: nat :: n <= hops && Arrives(worlds, time, at, rpc, n) ==>
                       outcome == TargetAt(worlds, TimeAfter(time, n), rpc)
  }

  ghost predicate CrashedOnWalk<D>(
    worlds: nat -> World, time: nat, at: NodeId, rpc: Rpc<D>, hops: nat, outcome: Outcome<D>)
  {
    outcome.Crashed? <==> exists n: nat :: n <= hops && Crashes(worlds, time, at, rpc, n)
  }

  lemma StopFollows<D>(worlds: nat -> World, time: nat, at: NodeId, rpc: Rpc<D>, hops: nat, outcome: Outcome<D>)
    requires NextHop(worlds(time), worlds(time + 1), at, rpc).None?
    requires outcome.Delivered? <==> Arrives(worlds, time, at, rpc, 0)
    requires outcome.Delivered? ==> outcome == TargetAt(worlds, time, rpc)
    requires outcome.Crashed? <==> Crashes(worlds, time, at, rpc, 0)
    requires !outcome.StillForwarding?
    ensures Follows(worlds, time, at, rpc, hops, outcome)
  {
    assert forall n: nat :: n > 0 ==> Walk(worlds, time, at, rpc, n).None?;
    assert forall n: nat :: Arrives(worlds, time, at, rpc, n) ==> n == 0;
    assert forall n: nat :: Crashes(worlds, time, at, rpc, n) ==> n == 0;
  }

  /** At its target a call stops. */
  lemma TargetFollows<D>(worlds: nat -> World, time: nat, rpc: Rpc<D>, hops: nat)
    ensures Follows(worlds, time, rpc.Target(), rpc, hops, TargetAt(worlds, time, rpc))
  {
    var outcome := TargetAt(worlds, time, rpc);
    assert TimeAfter(time, 0) == time;
    assert Walk(worlds, time, rpc.Target(), rpc, 0) == Some(rpc.Target());
    StopFollows(worlds, time, rpc.Target(), rpc, hops, outcome);
  }

  /** Elsewhere it goes on, or stops. */
  lemma ElsewhereFollows<D>(
    worlds: nat -> World, time: nat, at: NodeId, rpc: Rpc<D>, hops: nat, rest: Outcome<D>)
    requires at != rpc.Target()
    requires var next := NextHop(worlds(time), worlds(time + 1), at, rpc);
             next.Some? && hops > 0 ==> Follows(worlds, time + 2, next.value, rpc, hops - 1, rest)
    ensures Follows(
              worlds, time, at, rpc, hops, Elsewhere(worlds(time), worlds(time + 1), at, rpc, hops, rest))
  {
    var outcome := Elsewhere(worlds(time), worlds(time + 1), at, rpc, hops, rest);
    match NextHop(worlds(time), worlds(time + 1), at, rpc)
    case None =>
      assert Walk(worlds, time, at, rpc, 0) == Some(at);
      StopFollows(worlds, time, at, rpc, hops, outcome);
    case Some(next) =>
      if hops == 0 {
        FirstFollows(worlds, time, at, rpc, outcome);
      } else {
        NextFollows(worlds, time, time + 2, at, next, rpc, hops, outcome);
      }
  }

  /** A call that is passed on neither arrives nor crashes where it is. */
  lemma PassedOn<D>(worlds: nat -> World, time: nat, at: NodeId, rpc: Rpc<D>)
    requires NextHop(worlds(time), worlds(time + 1), at, rpc).Some?
    ensures !Arrives(worlds, time, at, rpc, 0) && !Crashes(worlds, time, at, rpc, 0)
  {
  }

  lemma FirstFollows<D>(worlds: nat -> World, time: nat, at: NodeId, rpc: Rpc<D>, outcome: Outcome<D>)
    requires NextHop(worlds(time), worlds(time + 1), at, rpc).Some? && outcome.StillForwarding?
    ensures Follows(worlds, time, at, rpc, 0, outcome)
  {
    PassedOn(worlds, time, at, rpc);
    var next := NextHop(worlds(time), worlds(time + 1), at, rpc).value;
    assert Walk(worlds, time, at, rpc, 1) == Walk(worlds, time + 2, next, rpc, 0);
  }

  /** One hop less to go, two worlds later. */
  lemma WalkShift<D>(worlds: nat -> World, time: nat, soon: nat, at: NodeId, rpc: Rpc<D>, n: nat)
    requires n > 0 && soon == time + 2 && NextHop(worlds(time), worlds(time + 1), at, rpc).Some?
    ensures var next := NextHop(worlds(time), worlds(time + 1), at, rpc).value;
            && Walk(worlds, time, at, rpc, n) == Walk(worlds, soon, next, rpc, n - 1)
            && (Arrives(worlds, time, at, rpc, n) <==> Arrives(worlds, soon, next, rpc, n - 1))
            && (Crashes(worlds, time, at, rpc, n) <==> Crashes(worlds, soon, next, rpc, n - 1))
            && TimeAfter(time, n) == TimeAfter(soon, n - 1)
  {
    assert TimeAfter(time, n) == TimeAfter(soon, n - 1);
  }

  lemma NextFollows<D>(
    worlds: nat -> World, time: nat, soon: nat, at: NodeId, next: NodeId, rpc: Rpc<D>, hops: nat, outcome: Outcome<D>)
    requires soon == time + 2 && NextHop(worlds(time), worlds(time + 1), at, rpc) == Some(next) && hops > 0
    requires Follows(worlds, soon, next, rpc, hops - 1, outcome)
    ensures Follows(worlds, time, at, rpc, hops, outcome)
  {
    ShiftArrives(worlds, time, soon, at, next, rpc, hops);
    ShiftCrashes(worlds, time, soon, at, next, rpc, hops);
    ShiftThere(worlds, time, soon, at, next, rpc, hops, outcome);
    WalkShift(worlds, time, soon, at, rpc, hops + 1);
  }

  lemma ShiftThere<D>(
    worlds: nat -> World, time: nat, soon: nat, at: NodeId, next: NodeId, rpc: Rpc<D>, hops: nat, outcome: Outcome<D>)
    requires soon == time + 2 && NextHop(worlds(time), worlds(time + 1), at, rpc) == Some(next) && hops > 0
    requires DeliveredThere(worlds, soon, next, rpc, hops - 1, outcome)
    ensures DeliveredThere(worlds, time, at, rpc, hops, outcome)
  {
    PassedOn(worlds, time, at, rpc);
    forall n: nat | n <= hops && Arrives(worlds, time, at, rpc, n)
      ensures outcome == TargetAt(worlds, TimeAfter(time, n), rpc)
    {
      WalkShift(worlds, time, soon, at, rpc, n);
    }
  }

  lemma ShiftArrives<D>(
    worlds: nat -> World, time: nat, soon: nat, at: NodeId, next: NodeId, rpc: Rpc<D>, hops: nat)
    requires soon == time + 2 && NextHop(worlds(time), worlds(time + 1), at, rpc) == Some(next) && hops > 0
    ensures (exists n: nat :: n <= hops && Arrives(worlds, time, at, rpc, n)) <==>
            exists n: nat :: n <= hops - 1 && Arrives(worlds, soon, next, rpc, n)
  {
    PassedOn(worlds, time, at, rpc);
    if n: nat :| n <= hops && Arrives(worlds, time, at, rpc, n) {
      WalkShift(worlds, time, soon, at, rpc, n);
    }
    if n: nat :| n <= hops - 1 && Arrives(worlds, soon, next, rpc, n) {
      WalkShift(worlds, time, soon, at, rpc, n + 1);
    }
  }

  lemma ShiftCrashes<D>(
    worlds: nat -> World, time: nat, soon: nat, at: NodeId, next: NodeId, rpc: Rpc<D>, hops: nat)
    requires soon == time + 2 && NextHop(worlds(time), worlds(time + 1), at, rpc) == Some(next) && hops > 0
    ensures (exists n: nat :: n <= hops && Crashes(worlds, time, at, rpc, n)) <==>
            exists n: nat :: n <= hops - 1 && Crashes(worlds, soon, next, rpc, n)
  {
    PassedOn(worlds, time, at, rpc);
    if n: nat :| n <= hops && Crashes(worlds, time, at, rpc, n) {
      WalkShift(worlds, time, soon, at, rpc, n);
    }
    if n: nat :| n <= hops - 1 && Crashes(worlds, soon, next, rpc, n) {
      WalkShift(worlds, time, soon, at, rpc, n + 1);
    }
  }

  /** Delivery with the conversions left out: they give back what was sent. */
  function Trip<D>(worlds: nat -> World, time: nat, at: NodeId, rpc: Rpc<D>, hops: nat): Outcome<D>
    decreases hops
  {
    match Handling(worlds(time), worlds(time + 1), at, rpc)
    case Ends(outcome) => outcome
    case Onward(next, _) => if hops == 0 then StillForwarding else Trip(worlds, time + 2, next, rpc, hops - 1)
  }

  ghost predicate PassesUnchanged<D>(
    codec: Entities.AppCodec<D>, worlds: nat -> World, time: nat, at: NodeId, rpc: Rpc<D>)
  {
    Pass(codec, worlds(time), worlds(time + 1), at, rpc) == Handling(worlds(time), worlds(time + 1), at, rpc)
  }

  /** At each network that a call can get to, the conversions give back what was sent. */
  ghost predicate Faithful<D>(
    codec: Entities.AppCodec<D>, worlds: nat -> World, time: nat, rpc: Rpc<D>, hops: nat)
    decreases hops
  {
    && (forall at :: PassesUnchanged(codec, worlds, time, at, rpc))
    && (hops == 0 || Faithful(codec, worlds, time + 2, rpc, hops - 1))
  }

  lemma {:induction false} SoundIsFaithful<D(!new)>(
    codec: Entities.AppCodec<D>, worlds: nat -> World, time: nat, rpc: Rpc<D>, hops: nat)
    requires Entities.Sound(codec) && Entities.Sendable(codec, rpc) && Evolves(worlds, time, hops)
    ensures Faithful(codec, worlds, time, rpc, hops)
    decreases hops
  {
    forall at ensures PassesUnchanged(codec, worlds, time, at, rpc) {
      PassThen(codec, worlds, time, at, rpc, hops);
    }
    if hops > 0 {
      SoundIsFaithful(codec, worlds, time + 2, rpc, hops - 1);
    }
  }

  lemma {:induction false} FaithfulIsTrip<D>(
    codec: Entities.AppCodec<D>, worlds: nat -> World, time: nat, at: NodeId, rpc: Rpc<D>, hops: nat)
    requires Faithful(codec, worlds, time, rpc, hops)
    ensures Deliver(codec, worlds, time, at, rpc, hops) == Trip(worlds, time, at, rpc, hops)
    decreases hops
  {
    assert PassesUnchanged(codec, worlds, time, at, rpc);
    PassedUnchanged(worlds(time), worlds(time + 1), at, rpc);
    match Handling(worlds(time), worlds(time + 1), at, rpc)
    case Ends(_) =>
    case Onward(next, _) =>
      if hops > 0 {
        FaithfulIsTrip(codec, worlds, time + 2, next, rpc, hops - 1);
      }
  }

  lemma DeliverIsTrip<D(!new)>(
    codec: Entities.AppCodec<D>, worlds: nat -> World, time: nat, at: NodeId, rpc: Rpc<D>, hops: nat)
    requires Entities.Sound(codec) && Entities.Sendable(codec, rpc) && Evolves(worlds, time, hops)
    ensures Deliver(codec, worlds, time, at, rpc, hops) == Trip(worlds, time, at, rpc, hops)
  {
    SoundIsFaithful(codec, worlds, time, rpc, hops);
    FaithfulIsTrip(codec, worlds, time, at, rpc, hops);
  }

  /** What one network does with a call at that time. */
  lemma PassThen<D(!new)>(
    codec: Entities.AppCodec<D>, worlds: nat -> World, time: nat, at: NodeId, rpc: Rpc<D>, hops: nat)
    requires Entities.Sound(codec) && Entities.Sendable(codec, rpc) && Evolves(worlds, time, hops)
    ensures Pass(codec, worlds(time), worlds(time + 1), at, rpc) == Handling(worlds(time), worlds(time + 1), at, rpc)
  {
    assert RunsOnAt(worlds, time);
    var w, later := worlds(time), worlds(time + 1);
    assert at in w.nets ==> NetRunsOn(w, later, at);
    PassIs(codec, w, later, at, rpc);
  }

  lemma PassedUnchanged<D>(w: World, later: World, at: NodeId, rpc: Rpc<D>)
    ensures Handling(w, later, at, rpc).Onward? ==> Handling(w, later, at, rpc).received == rpc
  {
  }

  lemma {:induction false} TripFollows<D>(worlds: nat -> World, time: nat, at: NodeId, rpc: Rpc<D>, hops: nat)
    ensures Follows(worlds, time, at, rpc, hops, Trip(worlds, time, at, rpc, hops))
    decreases hops
  {
    if at == rpc.Target() {
      TargetFollows(worlds, time, rpc, hops);
    } else {
      var next := NextHop(worlds(time), worlds(time + 1), at, rpc);
      if next.Some? && hops > 0 {
        TripFollows(worlds, time + 2, next.value, rpc, hops - 1);
        ElsewhereFollows(worlds, time, at, rpc, hops, Trip(worlds, time + 2, next.value, rpc, hops - 1));
      } else {
        ElsewhereFollows(worlds, time, at, rpc, hops, StillForwarding);
      }
    }
  }

  /** Whatever the addresses, and however the cluster runs on, delivery follows the walk. */
  lemma DeliveryFollowsWalk<D(!new)>(
    codec: Entities.AppCodec<D>, worlds: nat -> World, time: nat, at: NodeId, rpc: Rpc<D>, hops: nat)
    requires Entities.Sound(codec) && Entities.Sendable(codec, rpc) && Evolves(worlds, time, hops)
    ensures Follows(worlds, time, at, rpc, hops, Deliver(codec, worlds, time, at, rpc, hops))
  {
    DeliverIsTrip(codec, worlds, time, at, rpc, hops);
    TripFollows(worlds, time, at, rpc, hops);
  }

  /* ---------- well-routed clusters: at most one hop ---------- */

  /** What becomes of a call that starts at some network, in four successive worlds. */
  function Expected<D>(w0: World, w1: World, w2: World, w3: World, at: NodeId, rpc: Rpc<D>): Outcome<D>
    requires at in w0.nets && at in w1.nets
  {
    if rpc.Target() == at then AtTarget(w0, w1, rpc)
    else if !LetIn(w0, at, rpc) then Refused(at)
    else if Vanished(w1, at, rpc) then Crashed
    else if !w1.up(at, rpc.Target()) then Lost
    else AtTarget(w2, w3, rpc)
  }

  lemma RoutedHop<D>(w: World, later: World, at: NodeId, rpc: Rpc<D>)
    requires at in w.nets && at in later.nets
    requires WellRouted(w, later.serves, at) && WellRouted(later, later.serves, at)
    requires rpc.Target() != at && LetIn(w, at, rpc) && !Vanished(later, at, rpc)
    ensures NextHop(w, later, at, rpc) == if later.up(at, rpc.Target()) then Some(rpc.Target()) else None
  {
  }

  /**
   If the network that has the call is well routed, while the whole cluster may
   change as the call travels, the call either stops at one of at most two gates,
   is lost on a link that is down, reaches the Raft of its target unchanged after
   at most one remote hop, or, a snapshot call only, meets a panic at one of the
   two networks because the target was disconnected there after it was let in.
   */
  lemma OneHop<D(!new)>(
    codec: Entities.AppCodec<D>, worlds: nat -> World, time: nat, at: NodeId, rpc: Rpc<D>, hops: nat)
    requires Entities.Sound(codec) && Entities.Sendable(codec, rpc)
    requires Evolves(worlds, time, hops) && at in worlds(time).nets && 1 <= hops
    requires WellRouted(worlds(time), worlds(time + 1).serves, at)
    requires WellRouted(worlds(time + 1), worlds(time + 1).serves, at)
    ensures Deliver(codec, worlds, time, at, rpc, hops) ==
            Expected(worlds(time), worlds(time + 1), worlds(time + 2), worlds(time + 3), at, rpc)
  {
    assert RunsOnAt(worlds, time);
    DeliverIsTrip(codec, worlds, time, at, rpc, hops);
    TripIsShort(worlds, time, at, rpc, hops);
  }

  lemma TripAtTarget<D>(worlds: nat -> World, time: nat, rpc: Rpc<D>, hops: nat)
    ensures Trip(worlds, time, rpc.Target(), rpc, hops) == AtTarget(worlds(time), worlds(time + 1), rpc)
  {
  }

  lemma TripIsShort<D>(worlds: nat -> World, time: nat, at: NodeId, rpc: Rpc<D>, hops: nat)
    requires NetRunsOn(worlds(time), worlds(time + 1), at) && 1 <= hops
    requires WellRouted(worlds(time), worlds(time + 1).serves, at)
    requires WellRouted(worlds(time + 1), worlds(time + 1).serves, at)
    ensures Trip(worlds, time, at, rpc, hops) ==
            Expected(worlds(time), worlds(time + 1), worlds(time + 2), worlds(time + 3), at, rpc)
  {
    var w, later := worlds(time), worlds(time + 1);
    TripAtTarget(worlds, time + 2, rpc, hops - 1);
    assert time + 2 + 1 == time + 3;
    if rpc.Target() != at && LetIn(w, at, rpc) && !Vanished(later, at, rpc) {
      RoutedHop(w, later, at, rpc);
    }
  }
}
