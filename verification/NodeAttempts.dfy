/**
 How the attempts of a node actor end, and what an actor would do if it stored the
 status it reports: the branches of its connect protocol that an actor which stays
 as it was initialized never takes.
 */
module NodeAttempts {
  import opened Wrappers
  import opened RaftMessages
  import opened NetStateSpec
  import opened NetworkSpec
  import opened Registry
  import RunFacts
  import Routing

  /** Reporting a status sends one message and changes nothing else; reporting the initial one is a panic. */
  lemma StatusReported(a: Actor, status: NodeStatus)
    ensures ApplyStatusChange(a, status).None? <==> status == Initialized
    ensures status != Initialized ==>
              ApplyStatusChange(a, status) ==
              Some(a.(sent := a.sent + [if status.Failure? && status.attempts >= 4 then Disconnected else status]))
  {
  }

  /**
   An attempt of the own node always succeeds, one of another node exactly when
   that node answers; a failure is retried when the timer is due.
   */
  lemma AttemptEnds(a: Actor, reachable: bool)
    requires a.status == Initialized && a.connects == 1 && a.timers == 0 && a.tasks == 0
    ensures HandleConnect(a, reachable) ==
            if a.proximity.Remote? && !reachable
            then Some(a.(connects := 0, timers := 1, sent := a.sent + [Failure(1)]))
            else Some(a.(connects := 0, tasks := 1, sent := a.sent + [WeaklyConnected]))
    ensures a.proximity.Remote? && !reachable ==>
              RetryDue(HandleConnect(a, reachable).value) == a.(sent := a.sent + [Failure(1)])
  {
  }

  /** The own actor has failed or is going to retry. */
  predicate OwnFails(a: Actor, own: NodeId) {
    a.id == own && (a.timers > 0 || exists j :: 0 <= j < |a.sent| && a.sent[j].Failure?)
  }

  ghost predicate OwnNeverFailed(net: Net) {
    forall a :: 0 <= a < |net.actors| ==> !OwnFails(net.actors[a], net.id)
  }

  lemma WorkNeverFails(a: Actor, w: Work, own: NodeId)
    requires Speaks(a) && Placed(a, own) && !OwnFails(a, own) && Do(a, w).Some?
    ensures !OwnFails(Do(a, w).value, own)
  {
  }

  /** The actors of the first network keep their words and their timers; there is at most a new one. */
  ghost predicate KeepsWords(net: Net, net': Net) {
    && |net.actors| <= |net'.actors| <= |net.actors| + 1
    && (forall a :: 0 <= a < |net.actors| ==>
                      && net'.actors[a].sent == net.actors[a].sent
                      && net'.actors[a].timers == net.actors[a].timers
                      && net'.actors[a].id == net.actors[a].id)
    && (forall a :: |net.actors| <= a < |net'.actors| ==>
                      net'.actors[a].sent == [] && net'.actors[a].timers == 0)
  }

  lemma RegisteringKeepsWords(net: Net, ev: Event)
    requires Inv(net) && Step(net, ev).Some? && (ev.RaftRegistered? || ev.ConnectArrived?)
    ensures KeepsWords(net, Step(net, ev).value)
  {
    match ev
    case RaftRegistered(raft) =>
      assert EntryOk(net, net.id);
      RunFacts.RaftStarts(net, raft);
    case ConnectArrived(id, info) =>
      assert id in net.nodes ==> EntryOk(net, id);
      RunFacts.ConnectStarts(net, id, info);
  }

  lemma SendingKeepsWords(net: Net, ev: Event)
    requires Step(net, ev).Some?
    requires ev.ProximitySent? || ev.ChangeDelegated? || ev.StatusHandled? || ev.DisconnectAsked?
    ensures KeepsWords(net, Step(net, ev).value)
  {
  }

  /** An actor keeps its words in every step but its own work. */
  lemma OtherSteps(net: Net, ev: Event)
    requires Inv(net) && Step(net, ev).Some? && WorkOf(ev).None?
    ensures KeepsWords(net, Step(net, ev).value)
  {
    if ev.RaftRegistered? || ev.ConnectArrived? {
      RegisteringKeepsWords(net, ev);
    } else if ev.ProximitySent? || ev.ChangeDelegated? || ev.StatusHandled? || ev.DisconnectAsked? {
      SendingKeepsWords(net, ev);
    } else {
      assert Step(net, ev).value.actors == net.actors;
    }
  }

  lemma StepNeverFails(net: Net, ev: Event)
    requires Inv(net) && OwnNeverFailed(net) && Step(net, ev).Some?
    ensures OwnNeverFailed(Step(net, ev).value)
  {
    if WorkOf(ev).Some? {
      WorkIsStep(net, ev);
      var (a, w) := WorkOf(ev).value;
      if a < |net.actors| {
        assert Speaks(net.actors[a]) && Placed(net.actors[a], net.id);
        WorkKeeps(net.actors[a], w, net.id);
        WorkNeverFails(net.actors[a], w, net.id);
      }
    } else {
      OtherSteps(net, ev);
      Routing.RunSameId(net, [ev]);
      StepGrows(net, ev);
      var net' := Step(net, ev).value;
      forall a | 0 <= a < |net'.actors| ensures !OwnFails(net'.actors[a], net'.id) {
        if a < |net.actors| {
          assert !OwnFails(net.actors[a], net.id);
        }
      }
    }
  }

  lemma {:induction false} RunNeverFails(net: Net, evs: seq<Event>)
    requires Inv(net) && OwnNeverFailed(net) && Run(net, evs).Some?
    ensures OwnNeverFailed(Run(net, evs).value)
    decreases |evs|
  {
    if evs != [] {
      Registry.StepKeeps(net, evs[0]);
      StepNeverFails(net, evs[0]);
      RunNeverFails(Step(net, evs[0]).value, evs[1..]);
    }
  }

  /** In a run from startup the own node never fails to connect to itself: it only says that it is connected. */
  lemma OwnConnects(
    id: NodeId, info: NodeInfo, seeds: seq<NodeInfo>, idOf: string -> NodeId, order: seq<NodeId>, now: Time,
    evs: seq<Event>, a: Address)
    requires Visits(order, ConfigureWith(New(id, info, now), seeds, idOf).nodes)
    requires Run(Boot(id, info, seeds, idOf, order, now), evs).Some?
    requires var end := Run(Boot(id, info, seeds, idOf, order, now), evs).value;
             a < |end.actors| && end.actors[a].id == id
    ensures Run(Boot(id, info, seeds, idOf, order, now), evs).value.actors[a].sent <= [WeaklyConnected, Connected]
  {
    var boot := Boot(id, info, seeds, idOf, order, now);
    BootOk(id, info, seeds, idOf, order, now);
    BootNeverFailed(id, info, seeds, idOf, order, now);
    RunNeverFails(boot, evs);
    RunKeeps(boot, evs);
    Routing.RunSameId(boot, evs);
    var actor := Run(boot, evs).value.actors[a];
    assert Speaks(actor) && !OwnFails(actor, id);
    NoFailuresSaid(actor);
  }

  lemma BootNeverFailed(
    id: NodeId, info: NodeInfo, seeds: seq<NodeInfo>, idOf: string -> NodeId, order: seq<NodeId>, now: Time)
    requires Visits(order, ConfigureWith(New(id, info, now), seeds, idOf).nodes)
    ensures OwnNeverFailed(Boot(id, info, seeds, idOf, order, now))
  {
    var boot := Boot(id, info, seeds, idOf, order, now);
    BootOk(id, info, seeds, idOf, order, now);
    ConfigureKeeps(New(id, info, now), seeds, idOf);
    var net := ConfigureWith(New(id, info, now), seeds, idOf);
    StartedTimers(net, net.nodes, order);
  }

  lemma {:induction false} StartedTimers(net: Net, configured: map<NodeId, NodeRef>, order: seq<NodeId>)
    requires forall a :: 0 <= a < |net.actors| ==> net.actors[a].timers == 0
    ensures forall a :: 0 <= a < |StartNodes(net, configured, order).actors| ==>
                          StartNodes(net, configured, order).actors[a].timers == 0
    decreases |order|
  {
    if order != [] {
      if order[0] in configured && configured[order[0]].info.Some? {
        StartedTimers(RegisterNode(net, order[0], configured[order[0]].info.value), configured, order[1..]);
      } else {
        StartedTimers(net, configured, order[1..]);
      }
    }
  }

  lemma NoFailuresSaid(a: Actor)
    requires Speaks(a) && forall j :: 0 <= j < |a.sent| ==> !a.sent[j].Failure?
    ensures a.sent <= [WeaklyConnected, Connected]
  {
    FailingFirst(a.sent);
    if a.tasks == 1 {
      var front := a.sent[..|a.sent| - 1];
      FailingFirst(front);
      assert a.sent == front + [WeaklyConnected];
    } else if a.connects + a.timers == 0 {
      var most := a.sent[..|a.sent| - 1];
      var front := most[..|most| - 1];
      FailingFirst(front);
      assert most == front + [WeaklyConnected] && a.sent == most + [Connected];
    }
  }

  lemma FailingFirst(sent: seq<NodeStatus>)
    ensures Failing(sent) ==> sent == [] || sent[0] == Failure(1)
  {
  }

  /** One failed attempt of an actor that would store the failure it counts. */
  function FailAndStore(a: Actor): Actor {
    var b := HandleConnect(a.(connects := 1), false);
    if b.Some? then b.value.(status := NextFailure(a.status)) else a
  }

  function FailTimes(a: Actor, n: nat): Actor
    decreases n
  {
    if n == 0 then a else FailAndStore(FailTimes(a, n - 1))
  }

  /**
   The attempt limit: the n-th failure in a row would be reported as such up to the
   third, and from the fourth on the node would be reported disconnected. As the
   status is not stored, each failure is reported as the first.
   */
  lemma {:induction false} AttemptLimit(a: Actor, n: nat)
    requires a.status == Initialized && a.proximity.Remote? && n > 0
    ensures var b := FailTimes(a, n);
            && b.status == Failure(n) && b.proximity == a.proximity
            && b.sent == FailTimes(a, n - 1).sent + [if n <= 3 then Failure(n) else Disconnected]
            && b.timers == FailTimes(a, n - 1).timers + 1
    ensures HandleConnect(a.(connects := 1), false).Some?
            && HandleConnect(a.(connects := 1), false).value.sent == a.sent + [Failure(1)]
    decreases n
  {
    if n > 1 {
      AttemptLimit(a, n - 1);
    }
  }

  /**
   An actor with a connected status would not say again that it is weakly
   connected, only that it is connected, and would report a disconnection; other
   actors have none to report.
   */
  lemma OnceConnected(a: Actor, reachable: bool)
    requires a.connects == 1 && a.tasks == 0
    ensures a.status in {Connected, WeaklyConnected} ==>
              && HandleConnect(a, reachable) == Some(a.(connects := 0, tasks := 1))
              && FinishConnect(HandleConnect(a, reachable).value) ==
                 Some(a.(connects := 0, sent := a.sent + [Connected]))
              && DisconnectActor(a) == Some(a.(sent := a.sent + [Disconnected]))
    ensures a.status !in {Connected, WeaklyConnected} ==> DisconnectActor(a) == Some(a)
  {
  }

  /** Registering a node again with the same info does nothing: no second actor is started. */
  lemma RegisterAgain(net: Net, id: NodeId, info: NodeInfo)
    requires id != net.id || net.raft.Some?
    ensures RegisterNode(RegisterNode(net, id, info), id, info) == RegisterNode(net, id, info)
  {
  }

  /**
   Registering Raft, in any network: a panic exactly without an own entry; an own
   entry without info keeps the network as it is, apart from the Raft.
   */
  lemma RaftInAnyNetwork(net: Net, raft: RaftAddress)
    ensures RegisterRaft(net, raft).None? <==> net.id !in net.nodes
    ensures net.id in net.nodes ==> RegisterRaft(net, raft).value.raft == Some(raft)
    ensures net.id in net.nodes && net.nodes[net.id].info.None? ==>
              RegisterRaft(net, raft) == Some(net.(raft := Some(raft)))
  {
  }
}
