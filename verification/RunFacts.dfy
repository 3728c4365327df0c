/** What a whole run amounts to, told from its events alone. */
module RunFacts {
  import opened Wrappers
  import opened RaftMessages
  import opened NetStateSpec
  import opened NetworkSpec
  import opened Registry
  import NetStateLemmas
  import StatusTimes

  /* ---------- who is registered ---------- */

  function InfoOf(net: Net, id: NodeId): Option<NodeInfo> {
    if id in net.nodes then net.nodes[id].info else None
  }

  /** What the last of these events to connect or disconnect a node says of it. */
  function LastSaid(evs: seq<Event>, id: NodeId, before: Option<NodeInfo>): Option<NodeInfo> {
    if evs == [] then before
    else match evs[|evs| - 1]
      case ConnectArrived(node, info) => if node == id then Some(info) else LastSaid(evs[..|evs| - 1], id, before)
      case DisconnectArrived(node) => if node == id then None else LastSaid(evs[..|evs| - 1], id, before)
      case _ => LastSaid(evs[..|evs| - 1], id, before)
  }

  lemma {:induction false} LastSaidFrom(evs: seq<Event>, id: NodeId, before: Option<NodeInfo>)
    requires evs != []
    ensures LastSaid(evs, id, before) == LastSaid(evs[1..], id, LastSaid([evs[0]], id, before))
    decreases |evs|
  {
    var last := |evs| - 1;
    if last == 0 {
      assert evs[1..] == [] && evs == [evs[0]];
    } else {
      assert evs[..last][1..] == evs[1..][..last - 1] && evs[..last][0] == evs[0];
      assert evs[1..][last - 1] == evs[last];
      LastSaidFrom(evs[..last], id, before);
    }
  }

  /** Only three messages touch the registry. */
  lemma RegistryUntouched(net: Net, ev: Event)
    requires Step(net, ev).Some?
    requires !ev.RaftRegistered? && !ev.ConnectArrived? && !ev.DisconnectArrived?
    ensures Step(net, ev).value.nodes == net.nodes
  {
    if WorkOf(ev).Some? {
      WorkIsStep(net, ev);
    }
  }

  /** What one step does to the registered info of a node. */
  lemma InfoStep(net: Net, ev: Event, id: NodeId)
    requires Inv(net) && Step(net, ev).Some?
    ensures InfoOf(Step(net, ev).value, id) == LastSaid([ev], id, InfoOf(net, id))
  {
    assert [ev][..0] == [];
    match ev
    case RaftRegistered(raft) => assert EntryOk(net, net.id); InfoAfterRaft(net, raft, id);
    case ConnectArrived(node, info) => RegisteredInfo(net, node, info, id);
    case DisconnectArrived(_) =>
    case _ => RegistryUntouched(net, ev);
  }

  lemma InfoAfterRaft(net: Net, raft: RaftAddress, id: NodeId)
    requires net.id in net.nodes && EntryOk(net, net.id) && RegisterRaft(net, raft).Some?
    ensures InfoOf(RegisterRaft(net, raft).value, id) == InfoOf(net, id)
  {
  }

  /** A node is registered, and with which info, exactly as the last connect or disconnect of it says. */
  lemma {:induction false} RegistryIsHistory(net: Net, evs: seq<Event>, id: NodeId)
    requires Inv(net) && Run(net, evs).Some?
    ensures InfoOf(Run(net, evs).value, id) == LastSaid(evs, id, InfoOf(net, id))
    ensures id in Run(net, evs).value.nodes <==> LastSaid(evs, id, InfoOf(net, id)).Some?
    decreases |evs|
  {
    if evs == [] {
      assert id in net.nodes ==> EntryOk(net, id);
    } else {
      Registry.StepKeeps(net, evs[0]);
      InfoStep(net, evs[0], id);
      LastSaidFrom(evs, id, InfoOf(net, id));
      RegistryIsHistory(Step(net, evs[0]).value, evs[1..], id);
    }
  }

  /* ---------- which actors are started ---------- */

  /** The node whose actor this message starts: one connected with new info, or the own one when Raft comes first. */
  function Starts(net: Net, ev: Event): Option<NodeId> {
    match ev
    case ConnectArrived(id, info) =>
      if InfoOf(net, id) != Some(info) && (id != net.id || net.raft.Some?) then Some(id) else None
    case RaftRegistered(_) =>
      if net.id in net.nodes && net.nodes[net.id].addr.None? then Some(net.id) else None
    case _ => None
  }

  /** A message starts that actor and no other: with nothing said, handled or proposed, and one attempt to make. */
  lemma StepStarts(net: Net, ev: Event)
    requires Inv(net) && Step(net, ev).Some?
    ensures var actors, id := Step(net, ev).value.actors, Starts(net, ev);
            && |actors| == |net.actors| + (if id.Some? then 1 else 0)
            && (id.Some? ==>
                  var a := actors[|net.actors|];
                  && a.id == id.value && a.localId == net.id && a.status == Initialized
                  && a.connects == 1 && a.timers == 0 && a.tasks == 0
                  && a.sent == [] && a.delivered == 0 && a.inbox == [] && a.proposals == [])
  {
    match ev
    case RaftRegistered(raft) =>
      assert EntryOk(net, net.id);
      RaftStarts(net, raft);
    case ConnectArrived(id, info) =>
      assert id in net.nodes ==> EntryOk(net, id);
      ConnectStarts(net, id, info);
    case _ => OthersStartNone(net, ev);
  }

  lemma RaftStarts(net: Net, raft: RaftAddress)
    requires net.id in net.nodes && EntryOk(net, net.id) && RegisterRaft(net, raft).Some?
    ensures RegisterRaft(net, raft).value.actors ==
            if net.nodes[net.id].addr.None? then net.actors + [StartActor(net.id, net.id, Local(net.id, raft))]
            else net.actors
  {
  }

  lemma ConnectStarts(net: Net, id: NodeId, info: NodeInfo)
    requires id in net.nodes ==> EntryOk(net, id)
    ensures InfoOf(net, id) == Some(info) || (id == net.id && net.raft.None?) ==>
              ConnectNode(net, id, info).actors == net.actors
    ensures InfoOf(net, id) != Some(info) && id != net.id ==>
              ConnectNode(net, id, info).actors == net.actors + [StartActor(id, net.id, Remote(id, info))]
    ensures InfoOf(net, id) != Some(info) && id == net.id && net.raft.Some? ==>
              ConnectNode(net, id, info).actors == net.actors + [StartActor(id, net.id, Local(id, net.raft.value))]
  {
  }

  lemma OthersStartNone(net: Net, ev: Event)
    requires Step(net, ev).Some? && !ev.RaftRegistered? && !ev.ConnectArrived?
    ensures |Step(net, ev).value.actors| == |net.actors|
  {
    if WorkOf(ev).Some? {
      WorkIsStep(net, ev);
    }
  }

  /* ---------- startup ---------- */

  /** The info of the last seed whose address has this id. */
  function LastSeed(
    seeds: seq<NodeInfo>, idOf: string -> NodeId, id: NodeId, before: Option<NodeInfo>): Option<NodeInfo>
  {
    if seeds == [] then before
    else if idOf(seeds[|seeds| - 1].clusterAddress) == id then Some(seeds[|seeds| - 1])
    else LastSeed(seeds[..|seeds| - 1], idOf, id, before)
  }

  lemma {:induction false} LastSeedFrom(
    seeds: seq<NodeInfo>, idOf: string -> NodeId, id: NodeId, before: Option<NodeInfo>)
    requires seeds != []
    ensures LastSeed(seeds, idOf, id, before) == LastSeed(seeds[1..], idOf, id, LastSeed([seeds[0]], idOf, id, before))
    decreases |seeds|
  {
    var last := |seeds| - 1;
    if last == 0 {
      assert seeds[1..] == [] && seeds == [seeds[0]];
    } else {
      assert seeds[..last][1..] == seeds[1..][..last - 1] && seeds[..last][0] == seeds[0];
      assert seeds[1..][last - 1] == seeds[last];
      LastSeedFrom(seeds[..last], idOf, id, before);
    }
  }

  lemma {:induction false} ConfiguredInfos(net: Net, seeds: seq<NodeInfo>, idOf: string -> NodeId, id: NodeId)
    ensures InfoOf(ConfigureWith(net, seeds, idOf), id) == LastSeed(seeds, idOf, id, InfoOf(net, id))
    decreases |seeds|
  {
    if seeds != [] {
      var node := idOf(seeds[0].clusterAddress);
      var net' := net.(nodes := net.nodes[node := NodeRef(node, Some(seeds[0]), None)]);
      assert [seeds[0]][..0] == [];
      LastSeedFrom(seeds, idOf, id, InfoOf(net, id));
      ConfiguredInfos(net', seeds[1..], idOf, id);
    }
  }

  lemma RegisteredInfo(net: Net, id: NodeId, info: NodeInfo, j: NodeId)
    ensures InfoOf(RegisterNode(net, id, info), j) == if j == id then Some(info) else InfoOf(net, j)
  {
  }

  lemma {:induction false} StartedInfos(net: Net, configured: map<NodeId, NodeRef>, order: seq<NodeId>, id: NodeId)
    requires InfoOf(net, id) == if id in configured then configured[id].info else None
    requires forall j :: j in configured ==> configured[j].info.Some?
    ensures InfoOf(StartNodes(net, configured, order), id) == InfoOf(net, id)
    decreases |order|
  {
    if order != [] {
      if order[0] in configured {
        var next := RegisterNode(net, order[0], configured[order[0]].info.value);
        RegisteredInfo(net, order[0], configured[order[0]].info.value, id);
        StartedInfos(next, configured, order[1..], id);
      } else {
        StartedInfos(net, configured, order[1..], id);
      }
    }
  }

  /**
   After any run from startup the registry holds exactly the nodes whose last
   connect or disconnect was a connect, or that were configured and met neither;
   each with the info it was given last.
   */
  lemma RegistryFromBoot(
    id: NodeId, info: NodeInfo, seeds: seq<NodeInfo>, idOf: string -> NodeId, order: seq<NodeId>, now: Time,
    evs: seq<Event>, node: NodeId)
    requires Visits(order, ConfigureWith(New(id, info, now), seeds, idOf).nodes)
    requires Run(Boot(id, info, seeds, idOf, order, now), evs).Some?
    ensures var end := Run(Boot(id, info, seeds, idOf, order, now), evs).value;
            var said := LastSaid(evs, node, LastSeed(seeds, idOf, node, if node == id then Some(info) else None));
            (node in end.nodes <==> said.Some?) && InfoOf(end, node) == said
  {
    var created := New(id, info, now);
    var net := ConfigureWith(created, seeds, idOf);
    BootOk(id, info, seeds, idOf, order, now);
    ConfiguredInfos(created, seeds, idOf, node);
    ConfigureKeeps(created, seeds, idOf);
    StartedInfos(net, net.nodes, order, node);
    RegistryIsHistory(Boot(id, info, seeds, idOf, order, now), evs, node);
  }

  /* ---------- metrics ---------- */

  /** The metrics messages among these events. */
  function MetricsIn(evs: seq<Event>): seq<(RaftState, Time)> {
    if evs == [] then []
    else (if evs[0].MetricsArrived? then [(evs[0].metrics.state, evs[0].now)] else []) + MetricsIn(evs[1..])
  }

  /** Only metrics messages move the status and the timeline, as if they came alone. */
  predicate SameTimeline(s: NetState, t: NetState) {
    s.status == t.status && s.timeline == t.timeline
  }

  lemma TimelineStep(net: Net, ev: Event, s: NetState)
    requires Inv(net) && Step(net, ev).Some? && SameTimeline(net.state, s)
    ensures ev.MetricsArrived? ==>
              OnRaftState(s, ev.metrics.state, ev.now).Some?
              && SameTimeline(Step(net, ev).value.state, OnRaftState(s, ev.metrics.state, ev.now).value)
    ensures !ev.MetricsArrived? ==> SameTimeline(Step(net, ev).value.state, s)
  {
    match ev
    case RaftRegistered(raft) => assert EntryOk(net, net.id); TimelineAfterRaft(net, raft);
    case ConnectArrived(node, info) =>
    case ChangeDelegated(k) =>
    case StatusHandled(a) =>
    case MetricsArrived(m, now) =>
    case DisconnectArrived(node) =>
    case DisconnectAsked(a) =>
    case SnapshotArrived(_, _) =>
    case SnapshotForwarded(_) =>
    case ProximitySent =>
    case _ => WorkIsStep(net, ev);
  }

  lemma TimelineAfterRaft(net: Net, raft: RaftAddress)
    requires RegisterRaft(net, raft).Some?
    ensures SameTimeline(RegisterRaft(net, raft).value.state, net.state)
  {
  }

  lemma {:induction false} TimelineOfRun(net: Net, evs: seq<Event>, s: NetState)
    requires Inv(net) && Run(net, evs).Some? && SameTimeline(net.state, s)
    ensures var s' := NetStateLemmas.RunMetrics(s, MetricsIn(evs));
            s'.Some? && SameTimeline(Run(net, evs).value.state, s'.value)
    decreases |evs|
  {
    if evs != [] {
      var ev := evs[0];
      Registry.StepKeeps(net, ev);
      TimelineStep(net, ev, s);
      if ev.MetricsArrived? {
        var ms := MetricsIn(evs);
        assert ms[0] == (ev.metrics.state, ev.now) && ms[1..] == MetricsIn(evs[1..]);
        TimelineOfRun(Step(net, ev).value, evs[1..], OnRaftState(s, ev.metrics.state, ev.now).value);
      } else {
        assert MetricsIn(evs) == MetricsIn(evs[1..]);
        TimelineOfRun(Step(net, ev).value, evs[1..], s);
      }
    }
  }

  lemma {:induction false} StartedTimeline(net: Net, configured: map<NodeId, NodeRef>, order: seq<NodeId>)
    ensures SameTimeline(StartNodes(net, configured, order).state, net.state)
    decreases |order|
  {
    if order != [] {
      var next :=
        if order[0] in configured && configured[order[0]].info.Some?
        then RegisterNode(net, order[0], configured[order[0]].info.value) else net;
      StartedTimeline(next, configured, order[1..]);
    }
  }

  lemma {:induction false} ConfiguredTimeline(net: Net, seeds: seq<NodeInfo>, idOf: string -> NodeId)
    ensures ConfigureWith(net, seeds, idOf).state == net.state
    decreases |seeds|
  {
    if seeds != [] {
      var node := idOf(seeds[0].clusterAddress);
      ConfiguredTimeline(net.(nodes := net.nodes[node := NodeRef(node, Some(seeds[0]), None)]), seeds[1..], idOf);
    }
  }

  /**
   After any run from startup the status is Joining, Up or Leaving as the
   metrics messages alone decide, whatever else was handled between them.
   */
  lemma StatusFromBoot(
    id: NodeId, info: NodeInfo, seeds: seq<NodeInfo>, idOf: string -> NodeId, order: seq<NodeId>, now: Time,
    evs: seq<Event>)
    requires Visits(order, ConfigureWith(New(id, info, now), seeds, idOf).nodes)
    requires Run(Boot(id, info, seeds, idOf, order, now), evs).Some?
    ensures var s, ms := Run(Boot(id, info, seeds, idOf, order, now), evs).value.state, MetricsIn(evs);
            && s.status ==
               (if !NetStateLemmas.Votes(ms) then Joining else if NetStateLemmas.Demoted(ms) then Leaving else Up)
            && |s.timeline| == (if !NetStateLemmas.Votes(ms) then 1 else if NetStateLemmas.Demoted(ms) then 3 else 2)
  {
    var net := ConfigureWith(New(id, info, now), seeds, idOf);
    BootOk(id, info, seeds, idOf, order, now);
    ConfiguredTimeline(New(id, info, now), seeds, idOf);
    StartedTimeline(net, net.nodes, order);
    TimelineOfRun(Boot(id, info, seeds, idOf, order, now), evs, Default(now));
    NetStateLemmas.MetricsRun(now, MetricsIn(evs));
  }

  /** The durations of the statuses of a network, after any run from startup, at any later time. */
  lemma TimeFromBoot(
    id: NodeId, info: NodeInfo, seeds: seq<NodeInfo>, idOf: string -> NodeId, order: seq<NodeId>, start: Time,
    evs: seq<Event>, now: Time)
    requires Visits(order, ConfigureWith(New(id, info, start), seeds, idOf).nodes)
    requires Run(Boot(id, info, seeds, idOf, order, start), evs).Some?
    requires NetStateLemmas.Rising(start, NetStateLemmas.MetricsTimes(MetricsIn(evs)), now)
    ensures NetStateLemmas.Accounted(Run(Boot(id, info, seeds, idOf, order, start), evs).value.state, start, now)
  {
    var boot, ms := Boot(id, info, seeds, idOf, order, start), MetricsIn(evs);
    BootTimeline(id, info, seeds, idOf, order, start);
    BootOk(id, info, seeds, idOf, order, start);
    TimelineOfRun(boot, evs, Default(start));
    NetStateLemmas.MetricsChained(Default(start), start, ms, now);
    NetStateLemmas.AccountedLiterally(NetStateLemmas.RunMetrics(Default(start), ms).value, start, now);
  }

  /**
   The timeline after any run from startup, entry by entry: Joining from the start,
   Up from the first metrics message of a voter, Leaving from the first message of
   a non-voter after that, each until the next.
   */
  lemma TimelineFromBoot(
    id: NodeId, info: NodeInfo, seeds: seq<NodeInfo>, idOf: string -> NodeId, order: seq<NodeId>, start: Time,
    evs: seq<Event>)
    requires Visits(order, ConfigureWith(New(id, info, start), seeds, idOf).nodes)
    requires Run(Boot(id, info, seeds, idOf, order, start), evs).Some?
    ensures var es, ms := Run(Boot(id, info, seeds, idOf, order, start), evs).value.state.timeline, MetricsIn(evs);
            var v := StatusTimes.FirstOf(ms, true);
            es == if v == |ms| then [StatusEntry(Joining, start, None)]
                  else
                    var up, d := ms[v].1, StatusTimes.FirstOf(ms[v + 1..], false);
                    if d == |ms| - v - 1 then [StatusEntry(Joining, start, Some(up)), StatusEntry(Up, up, None)]
                    else
                      var leaving := ms[v + 1..][d].1;
                      [StatusEntry(Joining, start, Some(up)), StatusEntry(Up, up, Some(leaving)),
                       StatusEntry(Leaving, leaving, None)]
  {
    var ms := MetricsIn(evs);
    BootTimeline(id, info, seeds, idOf, order, start);
    BootOk(id, info, seeds, idOf, order, start);
    TimelineOfRun(Boot(id, info, seeds, idOf, order, start), evs, Default(start));
    StatusTimes.MetricsAct(Default(start), ms);
    MovesTimeline(start, ms);
  }

  lemma {:induction false} MovesTimeline(start: Time, ms: seq<(RaftState, Time)>)
    requires NetStateLemmas.AdvanceAll(Default(start), StatusTimes.Moves(Joining, ms)).Some?
    ensures var es := NetStateLemmas.AdvanceAll(Default(start), StatusTimes.Moves(Joining, ms)).value.timeline;
            var v := StatusTimes.FirstOf(ms, true);
            es == if v == |ms| then [StatusEntry(Joining, start, None)]
                  else
                    var up, d := ms[v].1, StatusTimes.FirstOf(ms[v + 1..], false);
                    if d == |ms| - v - 1 then [StatusEntry(Joining, start, Some(up)), StatusEntry(Up, up, None)]
                    else
                      var leaving := ms[v + 1..][d].1;
                      [StatusEntry(Joining, start, Some(up)), StatusEntry(Up, up, Some(leaving)),
                       StatusEntry(Leaving, leaving, None)]
  {
    var steps := StatusTimes.Moves(Joining, ms);
    var v := StatusTimes.FirstOf(ms, true);
    StatusTimes.AllEntries(start, steps);
    StatusTimes.TimelineOf(start, steps, 0);
    if v < |ms| {
      StatusTimes.TimelineOf(start, steps, 1);
      if StatusTimes.FirstOf(ms[v + 1..], false) < |ms| - v - 1 {
        StatusTimes.TimelineOf(start, steps, 2);
      }
    }
  }

  /** The time a network spent in each status, in whole milliseconds, under a clock that does not run backwards. */
  lemma DurationsFromBoot(
    id: NodeId, info: NodeInfo, seeds: seq<NodeInfo>, idOf: string -> NodeId, order: seq<NodeId>, start: Time,
    evs: seq<Event>, now: Time)
    requires Visits(order, ConfigureWith(New(id, info, start), seeds, idOf).nodes)
    requires Run(Boot(id, info, seeds, idOf, order, start), evs).Some?
    requires NetStateLemmas.Rising(start, NetStateLemmas.MetricsTimes(MetricsIn(evs)), now)
    ensures var s, ms := Run(Boot(id, info, seeds, idOf, order, start), evs).value.state, MetricsIn(evs);
            var v := StatusTimes.FirstOf(ms, true);
            var d := if v == |ms| then 0 else StatusTimes.FirstOf(ms[v + 1..], false);
            var up := if v == |ms| then now else ms[v].1;
            var leaving := if v == |ms| || d == |ms| - v - 1 then now else ms[v + 1..][d].1;
            && DurationIn(s, Joining, now) == Some((up - start) / 1_000_000)
            && DurationIn(s, Up, now) == Some((leaving - up) / 1_000_000)
            && DurationIn(s, Leaving, now) == Some((now - leaving) / 1_000_000)
            && (forall status :: status !in {Joining, Up, Leaving} ==> DurationIn(s, status, now) == Some(0))
  {
    var s, ms := Run(Boot(id, info, seeds, idOf, order, start), evs).value.state, MetricsIn(evs);
    TimelineFromBoot(id, info, seeds, idOf, order, start, evs);
    BootTimeline(id, info, seeds, idOf, order, start);
    BootOk(id, info, seeds, idOf, order, start);
    TimelineOfRun(Boot(id, info, seeds, idOf, order, start), evs, Default(start));
    NetStateLemmas.MetricsChained(Default(start), start, ms, now);
    var es := s.timeline;
    assert NetStateLemmas.Chained(es, now);
    ThreeStatuses(s, now);
  }

  /** The durations of a chained timeline of at most three entries with these statuses. */
  lemma ThreeStatuses(s: NetState, now: Time)
    requires var es := s.timeline;
             && NetStateLemmas.Chained(es, now) && |es| <= 3 && es[0].status == Joining
             && (|es| > 1 ==> es[1].status == Up) && (|es| > 2 ==> es[2].status == Leaving)
    ensures var es := s.timeline;
            var up, leaving := if |es| > 1 then es[1].entry else now, if |es| > 2 then es[2].entry else now;
            && DurationIn(s, Joining, now) == Some((up - es[0].entry) / 1_000_000)
            && DurationIn(s, Up, now) == Some((leaving - up) / 1_000_000)
            && DurationIn(s, Leaving, now) == Some((now - leaving) / 1_000_000)
            && (forall status :: status !in {Joining, Up, Leaving} ==> DurationIn(s, status, now) == Some(0))
  {
    var es := s.timeline;
    forall status
      ensures SumIn(es, status, now) ==
              (if es[0].status == status then EntryMillis(es[0], now) else 0)
              + (if |es| > 1 && es[1].status == status then EntryMillis(es[1], now) else 0)
              + (if |es| > 2 && es[2].status == status then EntryMillis(es[2], now) else 0)
    {
      SumOfThree(es, status, now);
    }
  }

  lemma {:induction false} SumOfThree(es: seq<StatusEntry>, status: Status, now: Time)
    requires 1 <= |es| <= 3
    ensures SumIn(es, status, now) ==
            (if es[0].status == status then EntryMillis(es[0], now) else 0)
            + (if |es| > 1 && es[1].status == status then EntryMillis(es[1], now) else 0)
            + (if |es| > 2 && es[2].status == status then EntryMillis(es[2], now) else 0)
  {
    StatusTimes.SumFirst(es, status, now);
    if |es| > 1 {
      StatusTimes.SumFirst(es[1..], status, now);
      if |es| > 2 {
        StatusTimes.SumFirst(es[1..][1..], status, now);
      }
    }
  }

  lemma BootTimeline(
    id: NodeId, info: NodeInfo, seeds: seq<NodeInfo>, idOf: string -> NodeId, order: seq<NodeId>, start: Time)
    ensures SameTimeline(Boot(id, info, seeds, idOf, order, start).state, Default(start))
  {
    var net := ConfigureWith(New(id, info, start), seeds, idOf);
    ConfiguredTimeline(New(id, info, start), seeds, idOf);
    StartedTimeline(net, net.nodes, order);
  }

  /** The leader known after a run is that of the last metrics message; the Raft is the one registered last. */
  lemma {:induction false} LatestKept(net: Net, evs: seq<Event>, last: nat)
    requires Run(net, evs).Some? && last < |evs|
    ensures evs[last].MetricsArrived? && (forall k :: last < k < |evs| ==> !evs[k].MetricsArrived?) ==>
              Run(net, evs).value.metrics == Some(evs[last].metrics)
    ensures evs[last].RaftRegistered? && (forall k :: last < k < |evs| ==> !evs[k].RaftRegistered?) ==>
              Run(net, evs).value.raft == Some(evs[last].raft)
    decreases |evs|
  {
    var next := Step(net, evs[0]).value;
    assert forall k :: 0 < k < |evs| ==> evs[1..][k - 1] == evs[k];
    if last > 0 {
      LatestKept(next, evs[1..], last - 1);
    } else {
      Latest(net, evs[0]);
      Unchanged(next, evs[1..]);
    }
  }

  lemma Latest(net: Net, ev: Event)
    requires Step(net, ev).Some?
    ensures Step(net, ev).value.metrics == if ev.MetricsArrived? then Some(ev.metrics) else net.metrics
    ensures Step(net, ev).value.raft == if ev.RaftRegistered? then Some(ev.raft) else net.raft
  {
  }

  lemma {:induction false} Unchanged(net: Net, evs: seq<Event>)
    requires Run(net, evs).Some?
    ensures (forall k :: 0 <= k < |evs| ==> !evs[k].MetricsArrived?) ==> Run(net, evs).value.metrics == net.metrics
    ensures (forall k :: 0 <= k < |evs| ==> !evs[k].RaftRegistered?) ==> Run(net, evs).value.raft == net.raft
    decreases |evs|
  {
    if evs != [] {
      Latest(net, evs[0]);
      assert forall k :: 0 < k < |evs| ==> evs[1..][k - 1] == evs[k];
      Unchanged(Step(net, evs[0]).value, evs[1..]);
    }
  }
}
