/** What every run of the network state keeps, and its closed forms. */
module NetStateLemmas {
  import opened Wrappers
  import opened RaftMessages
  import opened NetStateSpec

  /* ---------- the timeline ---------- */

  ghost predicate WellFormed(s: NetState) {
    && s.timeline != []
    && s.timeline[|s.timeline| - 1].status == s.status
    && (forall k :: 0 <= k < |s.timeline| ==> (s.timeline[k].exit.None? <==> k == |s.timeline| - 1))
    && (forall k :: 0 <= k < |s.timeline| - 1 ==> s.timeline[k].exit == Some(s.timeline[k + 1].entry))
    && (forall k :: 0 <= k < |s.timeline| - 1 ==> Legal(s.timeline[k].status, s.timeline[k + 1].status))
  }

  /** Every legal change goes down in rank, apart from Down to Down. */
  function Rank(status: Status): nat {
    match status
    case Joining => 6
    case WeaklyUp => 5
    case Up => 4
    case Leaving => 3
    case Exiting => 2
    case Down => 1
    case Removed => 0
  }

  function DownRepeats(es: seq<StatusEntry>): nat {
    if |es| < 2 then 0
    else
      DownRepeats(es[..|es| - 1])
      + if es[|es| - 2].status == Down && es[|es| - 1].status == Down then 1 else 0
  }

  function StatusesOf(es: seq<StatusEntry>): seq<Status> {
    seq(|es|, k requires 0 <= k < |es| => es[k].status)
  }

  lemma {:induction false} DownRepeatsByStatus(a: seq<StatusEntry>, b: seq<StatusEntry>)
    requires StatusesOf(a) == StatusesOf(b)
    ensures DownRepeats(a) == DownRepeats(b)
  {
    assert |a| == |StatusesOf(a)| == |StatusesOf(b)| == |b|;
    if |a| >= 2 {
      assert forall k :: 0 <= k < |a| ==> a[k].status == StatusesOf(a)[k] == b[k].status;
      DownRepeatsByStatus(a[..|a| - 1], b[..|b| - 1]);
    }
  }

  lemma LegalLowersRank(current: Status, next: Status)
    requires Legal(current, next)
    ensures Rank(next) < Rank(current) || (current == Down && next == Down)
  {
  }

  lemma AdvanceWellFormed(s: NetState, next: Status, now: Time)
    requires WellFormed(s) && Legal(s.status, next)
    ensures Advance(s, next, now).Some? && WellFormed(Advance(s, next, now).value)
  {
    var es, es' := s.timeline, Advance(s, next, now).value.timeline;
    assert |es'| == |es| + 1 && forall k :: 0 <= k < |es| - 1 ==> es'[k] == es[k];
    assert es'[|es| - 1] == es[|es| - 1].(exit := Some(now));
  }

  lemma AdvanceRepeats(s: NetState, next: Status, now: Time)
    requires WellFormed(s) && Legal(s.status, next)
    ensures DownRepeats(Advance(s, next, now).value.timeline) ==
            DownRepeats(s.timeline) + if s.status == Down && next == Down then 1 else 0
  {
    var es' := Advance(s, next, now).value.timeline;
    var front := es'[..|es'| - 1];
    assert StatusesOf(front) == StatusesOf(s.timeline);
    DownRepeatsByStatus(front, s.timeline);
  }

  lemma AdvanceKeeps(s: NetState, next: Status, now: Time)
    requires WellFormed(s) && |s.timeline| + Rank(s.status) <= 7 + DownRepeats(s.timeline)
    ensures Advance(s, next, now).Some? <==> Legal(s.status, next)
    ensures Advance(s, next, now).Some? ==>
              var s' := Advance(s, next, now).value;
              && WellFormed(s') && s'.status == next
              && |s'.timeline| + Rank(next) <= 7 + DownRepeats(s'.timeline)
  {
    if Legal(s.status, next) {
      LegalLowersRank(s.status, next);
      AdvanceWellFormed(s, next, now);
      AdvanceRepeats(s, next, now);
    }
  }

  /** A run of status changes; None as soon as one of them panics. */
  function AdvanceAll(s: NetState, steps: seq<(Status, Time)>): Option<NetState>
    decreases |steps|
  {
    if steps == [] then Some(s)
    else match Advance(s, steps[0].0, steps[0].1)
      case None => None
      case Some(s') => AdvanceAll(s', steps[1..])
  }

  /**
   After any changes that were accepted the timeline is well formed, Removed can
   only stand last, and its length is at most seven plus the Down repeats.
   */
  lemma TimelineRun(start: Time, steps: seq<(Status, Time)>)
    ensures AdvanceAll(Default(start), steps).Some? ==>
              var s := AdvanceAll(Default(start), steps).value;
              && WellFormed(s)
              && |s.timeline| <= 7 + DownRepeats(s.timeline)
              && (forall k :: 0 <= k < |s.timeline| && s.timeline[k].status == Removed ==> k == |s.timeline| - 1)
  {
    TimelineRunFrom(Default(start), steps);
    if AdvanceAll(Default(start), steps).Some? {
      var s := AdvanceAll(Default(start), steps).value;
      forall k | 0 <= k < |s.timeline| && s.timeline[k].status == Removed ensures k == |s.timeline| - 1 {
        assert k < |s.timeline| - 1 ==> Legal(s.timeline[k].status, s.timeline[k + 1].status);
      }
    }
  }

  lemma {:induction false} TimelineRunFrom(s: NetState, steps: seq<(Status, Time)>)
    requires WellFormed(s) && |s.timeline| + Rank(s.status) <= 7 + DownRepeats(s.timeline)
    ensures AdvanceAll(s, steps).Some? ==>
              var s' := AdvanceAll(s, steps).value;
              && WellFormed(s')
              && |s'.timeline| + Rank(s'.status) <= 7 + DownRepeats(s'.timeline)
    decreases |steps|
  {
    if steps != [] {
      AdvanceKeeps(s, steps[0].0, steps[0].1);
      if Advance(s, steps[0].0, steps[0].1).Some? {
        TimelineRunFrom(Advance(s, steps[0].0, steps[0].1).value, steps[1..]);
      }
    }
  }

  function Asked(steps: seq<(Status, Time)>): seq<Status> {
    if steps == [] then [] else [steps[0].0] + Asked(steps[1..])
  }

  predicate LegalFrom(current: Status, path: seq<Status>)
    decreases |path|
  {
    path == [] || (Legal(current, path[0]) && LegalFrom(path[0], path[1..]))
  }

  lemma AdvanceRecords(s: NetState, next: Status, now: Time)
    requires s.timeline != [] && Legal(s.status, next)
    ensures StatusesOf(Advance(s, next, now).value.timeline) == StatusesOf(s.timeline) + [next]
  {
  }

  lemma Associates(a: seq<Status>, b: seq<Status>, c: seq<Status>)
    ensures a + b + c == a + (b + c)
  {
  }

  /** A run of changes is accepted exactly when it is a legal path, and the timeline records the path. */
  lemma {:induction false} RunIsPath(s: NetState, steps: seq<(Status, Time)>)
    requires s.timeline != []
    ensures AdvanceAll(s, steps).Some? <==> LegalFrom(s.status, Asked(steps))
    ensures AdvanceAll(s, steps).Some? ==>
              StatusesOf(AdvanceAll(s, steps).value.timeline) == StatusesOf(s.timeline) + Asked(steps)
    decreases |steps|
  {
    if steps != [] {
      assert Asked(steps)[1..] == Asked(steps[1..]);
      if Legal(s.status, steps[0].0) {
        var s' := Advance(s, steps[0].0, steps[0].1).value;
        AdvanceRecords(s, steps[0].0, steps[0].1);
        RunIsPath(s', steps[1..]);
        Associates(StatusesOf(s.timeline), [steps[0].0], Asked(steps[1..]));
      }
    }
  }

  /* ---------- metrics ---------- */

  function RunMetrics(s: NetState, ms: seq<(RaftState, Time)>): Option<NetState>
    decreases |ms|
  {
    if ms == [] then Some(s)
    else match OnRaftState(s, ms[0].0, ms[0].1)
      case None => None
      case Some(s') => RunMetrics(s', ms[1..])
  }

  ghost predicate Votes(ms: seq<(RaftState, Time)>) {
    exists k :: 0 <= k < |ms| && ms[k].0 != NonVoter
  }

  ghost predicate Demoted(ms: seq<(RaftState, Time)>) {
    exists j, k :: 0 <= j < k < |ms| && ms[j].0 != NonVoter && ms[k].0 == NonVoter
  }

  /** A metrics message panics exactly on a non-voter in a network that is Down. */
  lemma MetricsPanic(s: NetState, raft: RaftState, now: Time)
    requires WellFormed(s)
    ensures OnRaftState(s, raft, now).None? <==> s.status == Down && raft == NonVoter
  {
  }

  /** The closed form of every run of metrics messages from the initial state. */
  lemma MetricsRun(start: Time, ms: seq<(RaftState, Time)>)
    ensures RunMetrics(Default(start), ms).Some?
    ensures var s := RunMetrics(Default(start), ms).value;
            && s.status == (if !Votes(ms) then Joining else if Demoted(ms) then Leaving else Up)
            && |s.timeline| == (if !Votes(ms) then 1 else if Demoted(ms) then 3 else 2)
            && WellFormed(s) && s.connected == {} && s.isolated == {}
  {
    MetricsFromJoining(Default(start), ms);
  }

  lemma {:induction false} MetricsFromJoining(s: NetState, ms: seq<(RaftState, Time)>)
    requires WellFormed(s) && s.status == Joining
    ensures RunMetrics(s, ms).Some?
    ensures var s' := RunMetrics(s, ms).value;
            && s'.status == (if !Votes(ms) then Joining else if Demoted(ms) then Leaving else Up)
            && |s'.timeline| == |s.timeline| + (if !Votes(ms) then 0 else if Demoted(ms) then 2 else 1)
            && WellFormed(s') && s'.connected == s.connected && s'.isolated == s.isolated
    decreases |ms|
  {
    if ms != [] {
      var rest := ms[1..];
      assert forall k :: 0 <= k < |rest| ==> rest[k] == ms[k + 1];
      if ms[0].0 == NonVoter {
        MetricsFromJoining(s, rest);
        assert Votes(ms) ==> Votes(rest) by {
          if k :| 0 <= k < |ms| && ms[k].0 != NonVoter {
            assert rest[k - 1].0 != NonVoter;
          }
        }
        assert Demoted(ms) ==> Demoted(rest) by {
          if j, k :| 0 <= j < k < |ms| && ms[j].0 != NonVoter && ms[k].0 == NonVoter {
            assert rest[j - 1].0 != NonVoter && rest[k - 1].0 == NonVoter;
          }
        }
        assert Votes(rest) ==> Votes(ms);
        assert Demoted(rest) ==> Demoted(ms);
      } else {
        MetricsFromUp(OnRaftState(s, ms[0].0, ms[0].1).value, rest);
        assert Demoted(ms) ==> exists k :: 0 <= k < |rest| && rest[k].0 == NonVoter by {
          if j, k :| 0 <= j < k < |ms| && ms[j].0 != NonVoter && ms[k].0 == NonVoter {
            assert rest[k - 1].0 == NonVoter;
          }
        }
        if k :| 0 <= k < |rest| && rest[k].0 == NonVoter {
          assert ms[k + 1].0 == NonVoter;
        }
      }
    }
  }

  lemma {:induction false} MetricsFromUp(s: NetState, ms: seq<(RaftState, Time)>)
    requires WellFormed(s) && s.status == Up
    ensures RunMetrics(s, ms).Some?
    ensures var s' := RunMetrics(s, ms).value;
            var demoted := exists k :: 0 <= k < |ms| && ms[k].0 == NonVoter;
            && s'.status == (if demoted then Leaving else Up)
            && |s'.timeline| == |s.timeline| + (if demoted then 1 else 0)
            && WellFormed(s') && s'.connected == s.connected && s'.isolated == s.isolated
    decreases |ms|
  {
    if ms != [] {
      var rest := ms[1..];
      assert forall k :: 0 <= k < |rest| ==> rest[k] == ms[k + 1];
      if ms[0].0 == NonVoter {
        MetricsFromLeaving(OnRaftState(s, ms[0].0, ms[0].1).value, rest);
      } else {
        MetricsFromUp(s, rest);
        if k :| 0 <= k < |ms| && ms[k].0 == NonVoter {
          assert rest[k - 1].0 == NonVoter;
        }
      }
    }
  }

  lemma {:induction false} MetricsFromLeaving(s: NetState, ms: seq<(RaftState, Time)>)
    requires s.status == Leaving
    ensures RunMetrics(s, ms) == Some(s)
    decreases |ms|
  {
    if ms != [] {
      MetricsFromLeaving(s, ms[1..]);
    }
  }

  /* ---------- time accounting ---------- */

  /** A timeline whose entries follow one another up to now, with a clock that never ran backwards. */
  ghost predicate Chained(es: seq<StatusEntry>, now: Time) {
    && es != []
    && (forall k :: 0 <= k < |es| - 1 ==> es[k].exit == Some(es[k + 1].entry) && es[k].entry <= es[k + 1].entry)
    && es[|es| - 1].exit == None && es[|es| - 1].entry <= now
  }

  function TotalMillis(es: seq<StatusEntry>, now: Time): int {
    SumIn(es, Joining, now) + SumIn(es, WeaklyUp, now) + SumIn(es, Up, now) + SumIn(es, Leaving, now)
    + SumIn(es, Exiting, now) + SumIn(es, Down, now) + SumIn(es, Removed, now)
  }

  /** The time between two instants splits with a loss of at most one millisecond. */
  lemma MillisSplit(a: int, b: int)
    requires 0 <= a && 0 <= b
    ensures Millis(a) + Millis(b) <= Millis(a + b) <= Millis(a) + Millis(b) + 1
  {
  }

  lemma TotalStep(es: seq<StatusEntry>, now: Time)
    requires es != []
    ensures TotalMillis(es, now) == EntryMillis(es[0], now) + TotalMillis(es[1..], now)
  {
  }

  /**
   The durations of all statuses together never exceed the time since the first
   entry and miss at most one millisecond per change; none of them is negative.
   */
  lemma {:induction false} ChainedAccounted(es: seq<StatusEntry>, now: Time)
    requires Chained(es, now)
    ensures TotalMillis(es, now) <= Millis(now - es[0].entry) <= TotalMillis(es, now) + |es| - 1
    ensures forall status :: SumIn(es, status, now) >= 0
    ensures es[0].entry <= now
    decreases |es|
  {
    var rest := es[1..];
    TotalStep(es, now);
    if rest == [] {
      assert forall status :: SumIn(rest, status, now) == 0;
      assert TotalMillis(rest, now) == 0;
    } else {
      assert forall k :: 0 <= k < |rest| ==> rest[k] == es[k + 1];
      ChainedAccounted(rest, now);
      MillisSplit(es[1].entry - es[0].entry, now - es[1].entry);
      assert forall status :: SumIn(rest, status, now) >= 0;
    }
  }

  /** Times that never run backwards, from a start to now. */
  predicate Rising(start: Time, times: seq<Time>, now: Time)
    decreases |times|
  {
    if times == [] then start <= now else start <= times[0] && Rising(times[0], times[1..], now)
  }

  lemma ChainedLater(es: seq<StatusEntry>, now: Time, later: Time)
    requires Chained(es, now) && now <= later
    ensures Chained(es, later)
  {
  }

  /** A change made at a time that is not earlier than the last one keeps the timeline chained. */
  lemma AdvanceChained(s: NetState, next: Status, now: Time)
    requires Chained(s.timeline, now) && Advance(s, next, now).Some?
    ensures var es := Advance(s, next, now).value.timeline;
            Chained(es, now) && es[0].entry == s.timeline[0].entry
  {
    var es, es' := s.timeline, Advance(s, next, now).value.timeline;
    assert |es'| == |es| + 1 && forall k :: 0 <= k < |es| - 1 ==> es'[k] == es[k];
    assert es'[|es| - 1] == es[|es| - 1].(exit := Some(now));
  }

  function TimesOf(steps: seq<(Status, Time)>): seq<Time> {
    if steps == [] then [] else [steps[0].1] + TimesOf(steps[1..])
  }

  lemma {:induction false} RunChained(s: NetState, since: Time, steps: seq<(Status, Time)>, now: Time)
    requires Chained(s.timeline, since) && Rising(since, TimesOf(steps), now) && AdvanceAll(s, steps).Some?
    ensures var es := AdvanceAll(s, steps).value.timeline;
            Chained(es, now) && es[0].entry == s.timeline[0].entry
    decreases |steps|
  {
    if steps == [] {
      ChainedLater(s.timeline, since, now);
    } else {
      var t := steps[0].1;
      assert TimesOf(steps)[0] == t && TimesOf(steps)[1..] == TimesOf(steps[1..]);
      ChainedLater(s.timeline, since, t);
      AdvanceChained(s, steps[0].0, t);
      RunChained(Advance(s, steps[0].0, t).value, t, steps[1..], now);
    }
  }

  /** What the accounting of a timeline promises at some time, in milliseconds of a million nanoseconds. */
  ghost predicate Accounted(s: NetState, start: Time, now: Time) {
    && TotalMillis(s.timeline, now) * 1_000_000 <= now - start
    && now - start < (TotalMillis(s.timeline, now) + |s.timeline|) * 1_000_000
    && forall status :: DurationIn(s, status, now) == Some(SumIn(s.timeline, status, now))
  }

  lemma AccountedLiterally(s: NetState, start: Time, now: Time)
    requires Chained(s.timeline, now) && s.timeline[0].entry == start
    ensures Accounted(s, start, now)
  {
    ChainedAccounted(s.timeline, now);
    assert Millis(now - start) == (now - start) / 1_000_000;
  }

  /**
   After any accepted changes, with a clock that does not run backwards: no
   duration is negative, so asking for one never panics; together they never
   exceed the time since the start and miss at most one millisecond per change.
   */
  lemma TimeAccounted(start: Time, steps: seq<(Status, Time)>, now: Time)
    requires Rising(start, TimesOf(steps), now) && AdvanceAll(Default(start), steps).Some?
    ensures Accounted(AdvanceAll(Default(start), steps).value, start, now)
  {
    RunChained(Default(start), start, steps, now);
    AccountedLiterally(AdvanceAll(Default(start), steps).value, start, now);
  }

  function MetricsTimes(ms: seq<(RaftState, Time)>): seq<Time> {
    if ms == [] then [] else [ms[0].1] + MetricsTimes(ms[1..])
  }

  lemma {:induction false} MetricsChained(s: NetState, since: Time, ms: seq<(RaftState, Time)>, now: Time)
    requires Chained(s.timeline, since) && Rising(since, MetricsTimes(ms), now) && RunMetrics(s, ms).Some?
    ensures var es := RunMetrics(s, ms).value.timeline;
            Chained(es, now) && es[0].entry == s.timeline[0].entry
    decreases |ms|
  {
    if ms == [] {
      ChainedLater(s.timeline, since, now);
    } else {
      var t, s' := ms[0].1, OnRaftState(s, ms[0].0, ms[0].1).value;
      assert MetricsTimes(ms)[0] == t && MetricsTimes(ms)[1..] == MetricsTimes(ms[1..]);
      ChainedLater(s.timeline, since, t);
      if s' != s {
        AdvanceChained(s, s'.status, t);
      }
      MetricsChained(s', t, ms[1..], now);
    }
  }

  /** How a parallel sum may cut a list. */
  datatype Split = Whole | Cut(at: nat, left: Split, right: Split)

  function ParallelSum(es: seq<StatusEntry>, status: Status, now: Time, split: Split): int
    decreases split
  {
    match split
    case Whole => SumIn(es, status, now)
    case Cut(at, left, right) =>
      if at <= |es| then ParallelSum(es[..at], status, now, left) + ParallelSum(es[at..], status, now, right)
      else SumIn(es, status, now)
  }

  /** The sum does not depend on the cut. */
  lemma {:induction false} AnySplit(es: seq<StatusEntry>, status: Status, now: Time, split: Split)
    ensures ParallelSum(es, status, now, split) == SumIn(es, status, now)
    decreases split
  {
    match split
    case Whole =>
    case Cut(at, left, right) =>
      if at <= |es| {
        AnySplit(es[..at], status, now, left);
        AnySplit(es[at..], status, now, right);
        SumInSplit(es, at, status, now);
      }
  }

  lemma {:induction false} SumInSplit(es: seq<StatusEntry>, at: nat, status: Status, now: Time)
    requires at <= |es|
    ensures SumIn(es, status, now) == SumIn(es[..at], status, now) + SumIn(es[at..], status, now)
  {
    if at > 0 {
      SumInSplit(es[1..], at - 1, status, now);
      assert es[..at][1..] == es[1..][..at - 1] && es[at..] == es[1..][at - 1..];
    }
  }

  /* ---------- connected and isolated nodes ---------- */

  datatype NodeEvent = Isolate(id: NodeId) | Restore(id: NodeId)

  function OnNode(s: NetState, ev: NodeEvent): NetState {
    match ev
    case Isolate(id) => IsolateNode(s, id)
    case Restore(id) => RestoreNode(s, id)
  }

  function RunNodes(s: NetState, evs: seq<NodeEvent>): NetState {
    if evs == [] then s
    else OnNode(RunNodes(s, evs[..|evs| - 1]), evs[|evs| - 1])
  }

  /** The id was isolated at some point and not restored since. */
  ghost predicate IsolatedSince(evs: seq<NodeEvent>, id: NodeId) {
    exists k :: 0 <= k < |evs| && evs[k] == Isolate(id) && forall j :: k < j < |evs| ==> evs[j] != Restore(id)
  }

  /** The id was isolated at some point, and its last event is a restore. */
  ghost predicate RestoredSince(evs: seq<NodeEvent>, id: NodeId) {
    && Isolate(id) in evs
    && exists k :: 0 <= k < |evs| && evs[k] == Restore(id) && forall j :: k < j < |evs| ==> evs[j] != Isolate(id)
  }

  lemma {:induction false} NodeSetsAreHistory(start: Time, evs: seq<NodeEvent>, id: NodeId)
    ensures var s := RunNodes(Default(start), evs);
            && s.connected !! s.isolated
            && (id in s.isolated <==> IsolatedSince(evs, id))
            && (id in s.connected <==> RestoredSince(evs, id))
            && (id in s.connected + s.isolated <==> Isolate(id) in evs)
  {
    if evs != [] {
      var front, last := evs[..|evs| - 1], evs[|evs| - 1];
      assert evs == front + [last];
      NodeSetsAreHistory(start, front, id);
      IsolatedStep(front, last, id);
      RestoredStep(front, last, id);
    }
  }

  /** How one more event changes what history says about an id. */
  lemma IsolatedStep(evs: seq<NodeEvent>, ev: NodeEvent, id: NodeId)
    ensures IsolatedSince(evs + [ev], id) <==> ev == Isolate(id) || (ev != Restore(id) && IsolatedSince(evs, id))
  {
    var all, n := evs + [ev], |evs|;
    assert all[n] == ev && forall k :: 0 <= k < n ==> all[k] == evs[k];
    if ev == Isolate(id) {
      assert IsolatedSince(all, id);
    } else if IsolatedSince(all, id) {
      var k :| 0 <= k < |all| && all[k] == Isolate(id) && forall j :: k < j < |all| ==> all[j] != Restore(id);
      assert evs[k] == Isolate(id) && forall j :: k < j < n ==> evs[j] == all[j];
    }
  }

  lemma RestoredStep(evs: seq<NodeEvent>, ev: NodeEvent, id: NodeId)
    ensures RestoredSince(evs + [ev], id) <==>
            (ev == Restore(id) && Isolate(id) in evs) || (ev != Isolate(id) && RestoredSince(evs, id))
  {
    var all, n := evs + [ev], |evs|;
    assert all[n] == ev && forall k :: 0 <= k < n ==> all[k] == evs[k];
    if ev == Restore(id) {
      assert all[n] == Restore(id);
    } else if RestoredSince(all, id) {
      var k :| 0 <= k < |all| && all[k] == Restore(id) && forall j :: k < j < |all| ==> all[j] != Isolate(id);
      assert evs[k] == Restore(id) && forall j :: k < j < n ==> evs[j] == all[j];
    }
  }

  /** No id ever drops out of the two sets together. */
  lemma {:induction false} KnownNodesGrow(s: NetState, evs: seq<NodeEvent>, n: nat)
    requires n <= |evs|
    ensures RunNodes(s, evs[..n]).connected + RunNodes(s, evs[..n]).isolated
         <= RunNodes(s, evs).connected + RunNodes(s, evs).isolated
  {
    if n < |evs| {
      KnownNodesGrow(s, evs[..|evs| - 1], n);
      assert evs[..|evs| - 1][..n] == evs[..n];
    } else {
      assert evs[..n] == evs;
    }
  }
}
