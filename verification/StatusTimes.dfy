/** When a network entered each of its statuses and how long it stayed, told from the changes and from the metrics. */
module StatusTimes {
  import opened Wrappers
  import opened RaftMessages
  import opened NetStateSpec
  import opened NetStateLemmas

  /* ---------- which changes are accepted ---------- */

  /** Up the ladder, without and with the weak step. */
  const CLIMB: seq<Status> := [Up, Leaving, Exiting]
  const WEAK_CLIMB: seq<Status> := [WeaklyUp, Up, Leaving, Exiting]

  /** How many statuses come before the first Down or Removed. */
  function Leading(path: seq<Status>): (m: nat)
    ensures m <= |path|
  {
    if path == [] || path[0] in {Down, Removed} then 0 else 1 + Leading(path[1..])
  }

  function Downs(n: nat): seq<Status> {
    seq(n, _ => Down)
  }

  /** Nothing, or Down for some time, or that and then Removed; straight to Removed only after Exiting. */
  predicate Falls(tail: seq<Status>, exited: bool) {
    || tail == Downs(|tail|)
    || (|tail| > 0 && tail == Downs(|tail| - 1) + [Removed] && (|tail| > 1 || exited))
  }

  function Ladder(current: Status): seq<Status> {
    match current
    case WeaklyUp => CLIMB
    case Up => CLIMB[1..]
    case Leaving => CLIMB[2..]
    case _ => []
  }

  lemma {:induction false} AfterDown(path: seq<Status>)
    ensures LegalFrom(Down, path) <==> path == Downs(|path|) || (path != [] && path == Downs(|path| - 1) + [Removed])
    decreases |path|
  {
    if path != [] {
      AfterDown(path[1..]);
      assert LegalFrom(Removed, path[1..]) <==> path[1..] == [];
      if path[0] == Down {
        assert path == [Down] + path[1..];
        assert Downs(|path|) == [Down] + Downs(|path| - 1);
        if |path| > 1 {
          assert Downs(|path| - 1) == [Down] + Downs(|path| - 2);
          assert Downs(|path| - 1) + [Removed] == [Down] + (Downs(|path| - 2) + [Removed]);
        }
      } else {
        assert Downs(|path|)[0] == Down;
        assert |path| > 1 ==> (Downs(|path| - 1) + [Removed])[0] == Down;
      }
    }
  }

  lemma {:induction false} FallsFirst(current: Status, path: seq<Status>)
    requires path != [] && path[0] in {Down, Removed} && current !in {Down, Removed}
    ensures LegalFrom(current, path) <==> Falls(path, current == Exiting)
  {
    if path[0] == Down {
      AfterDown(path[1..]);
      assert path == [Down] + path[1..];
      assert Downs(|path|) == [Down] + Downs(|path| - 1);
      if |path| > 1 {
        assert Downs(|path| - 1) + [Removed] == [Down] + (Downs(|path| - 2) + [Removed]);
      } else {
        assert path == Downs(1);
      }
    } else {
      assert LegalFrom(Removed, path[1..]) <==> path[1..] == [];
      assert Downs(|path|)[0] == Down;
      assert |path| > 1 ==> (Downs(|path| - 1) + [Removed])[0] == Down;
      assert path[1..] == [] ==> path == Downs(0) + [Removed];
    }
  }

  lemma {:induction false} LegalClimbing(current: Status, path: seq<Status>)
    requires current in {WeaklyUp, Up, Leaving, Exiting}
    ensures var m := Leading(path);
            LegalFrom(current, path) <==>
            path[..m] <= Ladder(current)
            && Falls(path[m..], if m == 0 then current == Exiting else path[m - 1] == Exiting)
    decreases |path|
  {
    var m := Leading(path);
    if path == [] {
      assert Falls([], false) && Falls([], true);
    } else if path[0] in {Down, Removed} {
      FallsFirst(current, path);
      assert path[0..] == path;
    } else {
      LegalClimbingOn(current, path);
    }
  }

  lemma {:induction false} LegalClimbingOn(current: Status, path: seq<Status>)
    requires current in {WeaklyUp, Up, Leaving, Exiting}
    requires path != [] && path[0] !in {Down, Removed}
    ensures var m := Leading(path);
            LegalFrom(current, path) <==>
            path[..m] <= Ladder(current)
            && Falls(path[m..], if m == 0 then current == Exiting else path[m - 1] == Exiting)
    decreases |path|, 0
  {
    var m, rest := Leading(path), path[1..];
    var next := path[0];
    assert rest[m - 1..] == path[m..] && path[..m] == [next] + rest[..m - 1];
    assert m > 1 ==> rest[m - 2] == path[m - 1];
    var ladder := Ladder(current);
    assert Legal(current, next) <==> ladder != [] && ladder[0] == next;
    if ladder != [] && ladder[0] == next {
      assert ladder == [next] + Ladder(next);
      LegalClimbing(next, rest);
    }
  }

  /**
   The accepted paths, in full: from Joining up a ladder as far as one likes, with
   or without the weak step, then Down for as long as one likes; Removed may end
   the path, after Down or after the whole ladder.
   */
  lemma {:induction false} LegalPaths(path: seq<Status>)
    ensures var m := Leading(path);
            LegalFrom(Joining, path) <==>
            (path[..m] <= CLIMB || path[..m] <= WEAK_CLIMB)
            && Falls(path[m..], m > 0 && path[m - 1] == Exiting)
  {
    var m := Leading(path);
    if path == [] {
      assert Falls([], false);
    } else if path[0] in {Down, Removed} {
      FallsFirst(Joining, path);
      assert path[0..] == path;
    } else {
      var next, rest := path[0], path[1..];
      assert rest[m - 1..] == path[m..] && path[..m] == [next] + rest[..m - 1];
      assert m > 1 ==> rest[m - 2] == path[m - 1];
      assert Legal(Joining, next) <==> next in {WeaklyUp, Up};
      assert WEAK_CLIMB == [WeaklyUp] + CLIMB && CLIMB == [Up] + CLIMB[1..];
      if next in {WeaklyUp, Up} {
        LegalClimbing(next, rest);
      }
    }
  }

  /* ---------- the recorded times ---------- */

  function EntryTimes(es: seq<StatusEntry>): seq<Time> {
    seq(|es|, k requires 0 <= k < |es| => es[k].entry)
  }

  lemma AdvanceTimes(s: NetState, next: Status, now: Time)
    requires s.timeline != [] && Legal(s.status, next)
    ensures EntryTimes(Advance(s, next, now).value.timeline) == EntryTimes(s.timeline) + [now]
  {
  }

  /** Each entry is stamped with the time of its change. */
  lemma {:induction false} RunTimes(s: NetState, steps: seq<(Status, Time)>)
    requires s.timeline != [] && AdvanceAll(s, steps).Some?
    ensures EntryTimes(AdvanceAll(s, steps).value.timeline) == EntryTimes(s.timeline) + TimesOf(steps)
    decreases |steps|
  {
    if steps != [] {
      AdvanceTimes(s, steps[0].0, steps[0].1);
      RunTimes(Advance(s, steps[0].0, steps[0].1).value, steps[1..]);
    }
  }

  /** When each status of a run began: at the start, then at each change. */
  function Begins(start: Time, steps: seq<(Status, Time)>): seq<Time> {
    [start] + TimesOf(steps)
  }

  lemma {:induction false} TimesLength(steps: seq<(Status, Time)>)
    ensures |TimesOf(steps)| == |steps| == |Asked(steps)|
  {
    if steps != [] {
      TimesLength(steps[1..]);
    }
  }

  /** The timeline of a run, entry by entry: status, time of entry and time of exit. */
  lemma {:induction false} TimelineOf(start: Time, steps: seq<(Status, Time)>, k: nat)
    requires AdvanceAll(Default(start), steps).Some? && k <= |steps|
    ensures |TimesOf(steps)| == |steps| == |Asked(steps)|
    ensures var es := AdvanceAll(Default(start), steps).value.timeline;
            && |es| == |steps| + 1
            && es[k] == StatusEntry(
                          ([Joining] + Asked(steps))[k], Begins(start, steps)[k],
                          if k < |steps| then Some(Begins(start, steps)[k + 1]) else None)
  {
    var es := AdvanceAll(Default(start), steps).value.timeline;
    TimesLength(steps);
    RunTimes(Default(start), steps);
    RunIsPath(Default(start), steps);
    TimelineRun(start, steps);
    assert EntryTimes(Default(start).timeline) == [start] && StatusesOf(Default(start).timeline) == [Joining];
    assert EntryTimes(es) == Begins(start, steps) && StatusesOf(es) == [Joining] + Asked(steps);
    assert |es| == |EntryTimes(es)|;
    assert es[k].entry == EntryTimes(es)[k] && es[k].status == StatusesOf(es)[k];
    if k < |steps| {
      assert es[k + 1].entry == EntryTimes(es)[k + 1];
    }
  }

  /* ---------- durations ---------- */

  lemma {:induction false} RankFalls(es: seq<StatusEntry>, j: nat, k: nat)
    requires forall i :: 0 <= i < |es| - 1 ==> Legal(es[i].status, es[i + 1].status)
    requires j < k < |es|
    ensures Rank(es[k].status) < Rank(es[j].status) || (es[j].status == Down && es[k].status == Down)
    decreases k
  {
    assert Legal(es[k - 1].status, es[k].status);
    LegalLowersRank(es[k - 1].status, es[k].status);
    if j < k - 1 {
      RankFalls(es, j, k - 1);
    }
  }

  lemma SumFirst(es: seq<StatusEntry>, status: Status, now: Time)
    requires es != []
    ensures SumIn(es, status, now) ==
            (if es[0].status == status then EntryMillis(es[0], now) else 0) + SumIn(es[1..], status, now)
    ensures |es| == 1 ==> SumIn(es[1..], status, now) == 0
  {
  }

  /** An entry that is alone with its status accounts for all of its duration; a status without an entry has none. */
  lemma {:induction false} OnlyEntry(es: seq<StatusEntry>, status: Status, now: Time)
    ensures (forall j :: 0 <= j < |es| ==> es[j].status != status) ==> SumIn(es, status, now) == 0
    ensures forall k :: 0 <= k < |es| && es[k].status == status
                        && (forall j :: 0 <= j < |es| && j != k ==> es[j].status != status) ==>
                          SumIn(es, status, now) == EntryMillis(es[k], now)
    decreases |es|
  {
    if es != [] {
      var rest := es[1..];
      assert forall j :: 0 <= j < |rest| ==> rest[j] == es[j + 1];
      OnlyEntry(rest, status, now);
      forall k | 0 <= k < |es| && es[k].status == status
                 && (forall j :: 0 <= j < |es| && j != k ==> es[j].status != status)
        ensures SumIn(es, status, now) == EntryMillis(es[k], now)
      {
        if k > 0 {
          assert rest[k - 1].status == status;
          assert forall j :: 0 <= j < |rest| && j != k - 1 ==> rest[j].status != status;
        }
      }
    }
  }

  lemma {:induction false} RisingStep(start: Time, times: seq<Time>, now: Time, k: nat)
    requires Rising(start, times, now) && k <= |times|
    ensures ([start] + times)[k] <= (if k < |times| then ([start] + times)[k + 1] else now)
    decreases |times|
  {
    if k > 0 {
      RisingStep(times[0], times[1..], now, k - 1);
      assert [times[0]] + times[1..] == times;
    }
  }

  /**
   How long a run stayed in each status but Down, under a clock that does not run
   backwards: from the time of the change that entered it to the time of the next
   change, or to now, in whole milliseconds.
   */
  lemma {:induction false} DurationOf(start: Time, steps: seq<(Status, Time)>, now: Time, k: nat)
    requires AdvanceAll(Default(start), steps).Some? && Rising(start, TimesOf(steps), now) && k <= |steps|
    ensures |TimesOf(steps)| == |steps| == |Asked(steps)|
    ensures var s, status := AdvanceAll(Default(start), steps).value, ([Joining] + Asked(steps))[k];
            var until := if k < |steps| then Begins(start, steps)[k + 1] else now;
            status != Down ==>
              DurationIn(s, status, now) == Some((until - Begins(start, steps)[k]) / 1_000_000)
  {
    TimesLength(steps);
    var s, status := AdvanceAll(Default(start), steps).value, ([Joining] + Asked(steps))[k];
    TimelineOf(start, steps, k);
    TimelineRun(start, steps);
    RisingStep(start, TimesOf(steps), now, k);
    if status != Down {
      forall j | 0 <= j < |s.timeline| && j != k ensures s.timeline[j].status != status {
        if j < k {
          RankFalls(s.timeline, j, k);
        } else {
          RankFalls(s.timeline, k, j);
        }
      }
      OnlyEntry(s.timeline, status, now);
      assert s.timeline[k].status == status;
    }
  }

  /** A status that was never entered has no duration. */
  lemma {:induction false} NeverEntered(start: Time, steps: seq<(Status, Time)>, now: Time, status: Status)
    requires AdvanceAll(Default(start), steps).Some? && status !in [Joining] + Asked(steps)
    ensures DurationIn(AdvanceAll(Default(start), steps).value, status, now) == Some(0)
  {
    var s := AdvanceAll(Default(start), steps).value;
    TimesLength(steps);
    forall j | 0 <= j < |s.timeline| ensures s.timeline[j].status != status {
      AllEntries(start, steps);
      TimelineOf(start, steps, j);
    }
    OnlyEntry(s.timeline, status, now);
  }

  lemma {:induction false} AllEntries(start: Time, steps: seq<(Status, Time)>)
    requires AdvanceAll(Default(start), steps).Some?
    ensures |AdvanceAll(Default(start), steps).value.timeline| == |steps| + 1
  {
    TimelineOf(start, steps, 0);
  }

  /** A clock that runs back: the query panics exactly when it is a whole millisecond or more behind the start. */
  lemma BackwardClockPanics(start: Time, now: Time)
    ensures DurationIn(Default(start), Joining, now).None? <==> now <= start - 1_000_000
  {
    var es := Default(start).timeline;
    assert es[1..] == [];
    assert SumIn(es, Joining, now) == EntryMillis(es[0], now);
  }

  /* ---------- metrics ---------- */

  /** The first message of a voter, or of a non-voter; their number if there is none. */
  function FirstOf(ms: seq<(RaftState, Time)>, voter: bool): (k: nat)
    ensures k <= |ms|
    ensures forall j :: 0 <= j < k ==> ((ms[j].0 != NonVoter) != voter)
    ensures k < |ms| ==> ((ms[k].0 != NonVoter) == voter)
  {
    if ms == [] || (ms[0].0 != NonVoter) == voter then 0 else 1 + FirstOf(ms[1..], voter)
  }

  /**
   The status changes that metrics messages bring about: Up with the first message
   of a voter, then Leaving with the first message of a non-voter after that.
   */
  function Moves(status: Status, ms: seq<(RaftState, Time)>): seq<(Status, Time)> {
    if status in {Joining, WeaklyUp} then
      var v := FirstOf(ms, true);
      if v == |ms| then [] else [(Up, ms[v].1)] + MovesUp(ms[v + 1..])
    else if status == Up then MovesUp(ms)
    else []
  }

  function MovesUp(ms: seq<(RaftState, Time)>): seq<(Status, Time)> {
    var d := FirstOf(ms, false);
    if d == |ms| then [] else [(Leaving, ms[d].1)]
  }

  lemma {:induction false} MetricsRest(s: NetState, ms: seq<(RaftState, Time)>)
    requires s.status in {Leaving, Exiting, Removed}
    ensures RunMetrics(s, ms) == Some(s)
    decreases |ms|
  {
    if ms != [] {
      MetricsRest(s, ms[1..]);
    }
  }

  lemma {:induction false} MetricsDown(s: NetState, ms: seq<(RaftState, Time)>)
    requires s.status == Down
    ensures RunMetrics(s, ms) == if FirstOf(ms, false) == |ms| then Some(s) else None
    decreases |ms|
  {
    if ms != [] && ms[0].0 != NonVoter {
      MetricsDown(s, ms[1..]);
    }
  }

  lemma OneMove(s: NetState, next: Status, now: Time)
    requires s.timeline != [] && Legal(s.status, next)
    ensures AdvanceAll(s, [(next, now)]) == Advance(s, next, now)
  {
    var step := [(next, now)];
    assert step[1..] == [];
    assert AdvanceAll(Advance(s, next, now).value, step[1..]) == Some(Advance(s, next, now).value);
  }

  lemma {:induction false} MetricsUp(s: NetState, ms: seq<(RaftState, Time)>)
    requires s.status == Up && s.timeline != []
    ensures RunMetrics(s, ms) == AdvanceAll(s, MovesUp(ms))
    decreases |ms|
  {
    if ms != [] {
      if ms[0].0 == NonVoter {
        OneMove(s, Leaving, ms[0].1);
        MetricsRest(Advance(s, Leaving, ms[0].1).value, ms[1..]);
      } else {
        MetricsUp(s, ms[1..]);
        assert MovesUp(ms) == MovesUp(ms[1..]);
      }
    }
  }

  /** Metrics messages act, from any status, as these changes, and panic exactly on a non-voter when Down. */
  lemma {:induction false} MetricsAct(s: NetState, ms: seq<(RaftState, Time)>)
    requires s.timeline != []
    ensures RunMetrics(s, ms).None? <==> s.status == Down && FirstOf(ms, false) < |ms|
    ensures RunMetrics(s, ms).Some? ==> RunMetrics(s, ms) == AdvanceAll(s, Moves(s.status, ms))
    decreases |ms|
  {
    if s.status == Down {
      MetricsDown(s, ms);
    } else if s.status == Up {
      MetricsUp(s, ms);
      MovesUpLegal(s, ms);
    } else if s.status in {Leaving, Exiting, Removed} {
      MetricsRest(s, ms);
    } else if ms != [] {
      if ms[0].0 == NonVoter {
        MetricsAct(s, ms[1..]);
        MovesLater(s.status, ms);
      } else {
        var s' := Advance(s, Up, ms[0].1).value;
        MetricsUp(s', ms[1..]);
        MovesUpLegal(s', ms[1..]);
        var moves := Moves(s.status, ms);
        assert ms[0 + 1..] == ms[1..];
        assert moves[0] == (Up, ms[0].1) && moves[1..] == MovesUp(ms[1..]);
      }
    }
  }

  lemma MovesLater(status: Status, ms: seq<(RaftState, Time)>)
    requires status in {Joining, WeaklyUp} && ms != [] && ms[0].0 == NonVoter
    ensures Moves(status, ms) == Moves(status, ms[1..])
  {
    var v := FirstOf(ms[1..], true);
    assert FirstOf(ms, true) == v + 1;
    if v < |ms| - 1 {
      assert ms[1..][v + 1..] == ms[v + 2..];
    }
  }

  lemma MovesUpLegal(s: NetState, ms: seq<(RaftState, Time)>)
    requires s.status == Up && s.timeline != []
    ensures AdvanceAll(s, MovesUp(ms)).Some?
  {
    var d := FirstOf(ms, false);
    if d < |ms| {
      OneMove(s, Leaving, ms[d].1);
    }
  }
}
