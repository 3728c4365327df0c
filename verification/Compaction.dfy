/** What a snapshot leaves in the log, in the metadata and in its file. */
module Compaction {
  import opened Wrappers
  import opened RaftMessages
  import opened StorageSpec
  import opened LayeredLog
  import opened SnapshotHistory
  import opened SnapshotLimits
  import NameReuse
  import StorageBatches

  /** Index and term of the last captured entry; zeros for an empty capture. */
  function LastOf(es: seq<LogEntry>): (nat, nat) {
    if es == [] then (0, 0) else (es[|es| - 1].index, es[|es| - 1].term)
  }

  lemma RequestShape(c: Codec, s: Store, through: nat)
    requires Sound(c) && c.encode(Range(s.log, 0, through + 1)).Some?
    ensures var r, es := RequestSnapshot(c, s, through).pending[|s.pending|], Range(s.log, 0, through + 1);
            r.through == through && (r.index, r.term) == LastOf(es) && c.decode(r.data) == Some(es)
  {
  }

  /**
   A snapshot, whatever was handled since it was asked for: metadata and pointer
   carry index and term of the last captured entry, the metadata the membership
   of the moment, the file holds the log up to the index as it was, the log keeps
   what is above, nothing else changes.
   */
  lemma SnapshotTaken(c: Codec, s: Store, through: nat, evs: seq<Event>, k: nat)
    requires Sound(c) && AboutToLand(c, s, through, evs, k)
    ensures var end := SnapshotHistory.Run(c, RequestSnapshot(c, s, through), evs);
            var end', path := CompleteSnapshot(end, k), SnapshotPath(end.dir, through);
            var (index, term) := LastOf(Range(s.log, 0, through + 1));
            && end'.snapshot == Some(CurrentSnapshot(term, index, end.hs.membership, path))
            && end'.log == Above(end.log, through)[through := Entry(term, index, SnapshotPointer(path))]
            && Readable(c, end'.files, path) && Contents(c, end'.files, path) == Range(s.log, 0, through + 1)
            && end' == end.(log := end'.log, snapshot := end'.snapshot, pending := Without(end.pending, k))
  {
    var asked := RequestSnapshot(c, s, through);
    var end := SnapshotHistory.Run(c, asked, evs);
    StillThatRequest(c, s, through, evs, k);
    var r := end.pending[k];
    RequestShape(c, s, through);
    assert r in end.pending;
    assert CutLog(end.log, end.dir, through, r.index, r.term) ==
           Above(end.log, through)[through := PointerEntry(PathOf(end.dir, through), r.index, r.term)];
  }

  /** The last captured entry is the last one of the log, once the capture reaches that far. */
  lemma {:induction false} LastOfRange(log: Log, last: nat, through: nat)
    requires IsLast(log, last)
    ensures last <= through ==>
              var es := Range(log, 0, through + 1); es != [] && es[|es| - 1] == log[last]
  {
    if last < through {
      LastOfRange(log, last, through - 1);
      assert through !in log;
    }
  }

  /** The last index and term a restarted node would report after a snapshot. */
  lemma CompactionKeepsLast(c: Codec, s: Store, last: nat, through: nat)
    requires s.pending == [] && IsLast(s.log, last)
    requires c.encode(Range(s.log, 0, through + 1)).Some?
    ensures var log := NameReuse.TakeSnapshot(c, s, through).log;
            && (IsLast(log, last) <==> through <= last)
            && (through <= last ==> log[last].term == s.log[last].term)
            && (last < through ==> IsLast(log, through) && log[through].term == s.log[last].term)
  {
    LastOfRange(s.log, last, through);
    NameReuse.TakenAlone(c, s, through);
  }

  /* ---------- entries under their own index ---------- */

  /** Every entry, pointers too, sits under its own index. */
  ghost predicate KeyedByIndex(log: Log) {
    forall k :: k in log ==> log[k].index == k
  }

  ghost predicate KeyedStore(s: Store) {
    KeyedByIndex(s.log) && forall r :: r in s.pending ==> r.index == r.through
  }

  /** Every snapshot is asked for at an index that is in the log. */
  ghost predicate RequestsLogged(c: Codec, s: Store, evs: seq<Event>)
    decreases |evs|
  {
    evs == [] ||
    (&& (evs[0].Requested? ==> evs[0].through in s.log)
     && RequestsLogged(c, SnapshotHistory.Step(c, s, evs[0]), evs[1..]))
  }

  lemma {:induction false} InsertKeyed(m: Log, es: seq<LogEntry>)
    requires KeyedByIndex(m)
    ensures KeyedByIndex(InsertAll(m, es))
    decreases |es|
  {
    if es != [] {
      InsertKeyed(m[es[0].index := es[0]], es[1..]);
    }
  }

  lemma RequestKeyed(c: Codec, s: Store, through: nat)
    requires KeyedStore(s) && (through in s.log || c.encode(Range(s.log, 0, through + 1)).None?)
    ensures KeyedStore(RequestSnapshot(c, s, through))
  {
    if through in s.log {
      assert Range(s.log, 0, through + 1) == Range(s.log, 0, through) + [s.log[through]];
    }
  }

  lemma FewerKeyed(s: Store, k: nat)
    requires KeyedStore(s) && k < |s.pending|
    ensures s.pending[k].index == s.pending[k].through
    ensures forall r :: r in Without(s.pending, k) ==> r.index == r.through
  {
    assert s.pending[k] in s.pending && forall r :: r in Without(s.pending, k) ==> r in s.pending;
  }

  lemma StepKeyed(c: Codec, s: Store, ev: Event)
    requires KeyedStore(s) && (ev.Requested? ==> ev.through in s.log)
    requires ev.Refused? ==> c.encode(Range(s.log, 0, ev.through + 1)).None?
    ensures KeyedStore(SnapshotHistory.Step(c, s, ev))
  {
    match ev
    case Appended(_) =>
    case Replicated(es) => InsertKeyed(s.log, es);
    case Requested(through) => RequestKeyed(c, s, through);
    case Refused(through) => RequestKeyed(c, s, through);
    case FileWritten =>
    case FileFailed(_) =>
      if NextUnwritten(s.pending) < |s.pending| {
        FewerKeyed(s, NextUnwritten(s.pending));
      }
    case Completed(k) =>
      if k < |s.pending| {
        FewerKeyed(s, k);
      }
    case Received(_, _) =>
    case Installed(_, _, _) =>
  }

  /** As long as snapshots are asked for at logged indices, every entry stays under its own index. */
  lemma {:induction false} RunKeyed(c: Codec, s: Store, evs: seq<Event>)
    requires KeyedStore(s) && RequestsLogged(c, s, evs) && AllAllowed(c, s, evs)
    ensures KeyedStore(SnapshotHistory.Run(c, s, evs))
    decreases |evs|
  {
    if evs != [] {
      StepKeyed(c, s, evs[0]);
      RunKeyed(c, SnapshotHistory.Step(c, s, evs[0]), evs[1..]);
    }
  }

  lemma LastKeyed(log: Log, through: nat)
    requires KeyedByIndex(log)
    ensures LastOf(Range(log, 0, through + 1)).0 == through <==> through in log || through == 0
  {
    var es := Range(log, 0, through + 1);
    if through in log {
      assert es == Range(log, 0, through) + [log[through]];
    } else {
      assert es == Range(log, 0, through);
      if es != [] {
        assert es[|es| - 1] in es;
        StorageBatches.RangeMembers(log, 0, through, es[|es| - 1]);
      }
    }
  }

  /** The condition is exact: a snapshot of an index that is not in the log leaves a pointer with another index. */
  lemma KeyedExactly(c: Codec, s: Store, through: nat)
    requires s.pending == [] && KeyedByIndex(s.log) && c.encode(Range(s.log, 0, through + 1)).Some?
    ensures KeyedByIndex(NameReuse.TakeSnapshot(c, s, through).log) <==> through in s.log || through == 0
  {
    NameReuse.TakenAlone(c, s, through);
    LastKeyed(s.log, through);
    var log := NameReuse.TakeSnapshot(c, s, through).log;
    assert through in log && log[through].index == LastOf(Range(s.log, 0, through + 1)).0;
    assert forall k :: k in log && k != through ==> k in s.log && log[k] == s.log[k];
  }
}
