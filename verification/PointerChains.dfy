/**
 Following pointers ends: in every allowed run each pointer leads to a legible
 file, and the names of the files get smaller on the way.
 */
module PointerChains {
  import opened Wrappers
  import opened RaftMessages
  import opened StorageSpec
  import opened LayeredLog
  import opened SnapshotHistory

  /**
   No entry of the list speaks about an index above the bound, and each of its
   pointers leads to a legible file with a name below the bound of which the
   same is true, with that name for bound.
   */
  predicate Grounded(c: Codec, files: Files, es: seq<LogEntry>, bound: nat)
    decreases bound, |es|
  {
    es == [] ||
    (var last := es[|es| - 1];
     && Grounded(c, files, es[..|es| - 1], bound)
     && (!IsPointer(last) ==> last.index <= bound)
     && (IsPointer(last) ==>
           && last.payload.path.index < bound
           && Readable(c, files, last.payload.path)
           && Grounded(c, files, Contents(c, files, last.payload.path), last.payload.path.index)))
  }

  predicate FileGrounded(c: Codec, files: Files, p: SnapshotPath) {
    Readable(c, files, p) && Grounded(c, files, Contents(c, files, p), p.index)
  }

  ghost predicate AllGrounded(c: Codec, s: Store) {
    && (forall k :: k in s.log && IsPointer(s.log[k]) ==> FileGrounded(c, s.files, s.log[k].payload.path))
    && (forall r :: r in s.pending ==> Grounded(c, s.files, Captured(c, r), r.through))
  }

  /** Every file that is installed is grounded. */
  ghost predicate InstallsGrounded(c: Codec, s: Store, evs: seq<Event>)
    decreases |evs|
  {
    evs == [] ||
    (&& (evs[0].Installed? ==> FileGrounded(c, s.files, PathOf(s.dir, evs[0].index)))
     && InstallsGrounded(c, SnapshotHistory.Step(c, s, evs[0]), evs[1..]))
  }

  lemma {:induction false} GroundedFrame(
    c: Codec, f: Files, f': Files, es: seq<LogEntry>, bound: nat, p: SnapshotPath)
    requires !Reaches(c, f, es, bound, p) && f' - {p} == f - {p} && Grounded(c, f, es, bound)
    ensures Grounded(c, f', es, bound)
    decreases bound, |es|
  {
    if es != [] {
      var last := es[|es| - 1];
      GroundedFrame(c, f, f', es[..|es| - 1], bound, p);
      if IsPointer(last) {
        SameElsewhere(c, f, f', p, last.payload.path);
        GroundedFrame(c, f, f', Contents(c, f, last.payload.path), last.payload.path.index, p);
      }
    }
  }

  lemma FileKeeps(c: Codec, s: Store, p: SnapshotPath, data: seq<byte>)
    requires AllGrounded(c, s) && !InUse(c, s, p)
    ensures AllGrounded(c, s.(files := s.files[p := data]))
  {
    var f, f' := s.files, s.files[p := data];
    assert f' - {p} == f - {p};
    forall k | k in s.log && IsPointer(s.log[k]) ensures FileGrounded(c, f', s.log[k].payload.path) {
      var q := s.log[k].payload.path;
      assert !Leads(c, f, q, p);
      SameElsewhere(c, f, f', p, q);
      GroundedFrame(c, f, f', Contents(c, f, q), q.index, p);
    }
    forall r | r in s.pending ensures Grounded(c, f', Captured(c, r), r.through) {
      GroundedFrame(c, f, f', Captured(c, r), r.through, p);
    }
  }

  /** A capture is grounded if the pointers it captures are, and stay below its name. */
  lemma {:induction false} RangeGrounded(c: Codec, s: Store, n: nat, bound: nat)
    requires WellKeyed(s.log, s.dir) && AllGrounded(c, s) && n <= bound + 1
    requires forall k :: k in s.log && IsPointer(s.log[k]) && k < n ==> k < bound
    ensures Grounded(c, s.files, Range(s.log, 0, n), bound)
  {
    if n > 0 {
      RangeGrounded(c, s, n - 1, bound);
      var es := Range(s.log, 0, n - 1);
      if n - 1 in s.log {
        assert (es + [s.log[n - 1]])[..|es|] == es;
      } else {
        assert Range(s.log, 0, n) == es;
      }
    }
  }

  lemma RequestKeeps(c: Codec, s: Store, through: nat)
    requires Sound(c) && Tidy(c, s) && AllGrounded(c, s) && Allowed(c, s, Requested(through))
    ensures AllGrounded(c, RequestSnapshot(c, s, through))
  {
    assert Leads(c, s.files, PathOf(s.dir, through), PathOf(s.dir, through));
    RangeGrounded(c, s, through + 1, through);
    var s' := RequestSnapshot(c, s, through);
    assert s'.pending == s.pending + [s'.pending[|s.pending|]];
  }

  lemma ServeKeeps(c: Codec, s: Store)
    requires Tidy(c, s) && AllGrounded(c, s)
    ensures AllGrounded(c, WriteSnapshotFile(s))
  {
    var k := NextUnwritten(s.pending);
    if k < |s.pending| {
      var r := s.pending[k];
      assert r in s.pending;
      FileKeeps(c, s, PathOf(s.dir, r.through), r.data);
      forall q | q in s.pending[k := r.(written := true)]
        ensures exists p :: p in s.pending && p.data == q.data && p.through == q.through
      {
        var j :| 0 <= j < |s.pending| && s.pending[k := r.(written := true)][j] == q;
        assert s.pending[j] in s.pending;
      }
    }
  }

  lemma FailKeeps(c: Codec, s: Store, left: Option<seq<byte>>)
    requires Tidy(c, s) && AllGrounded(c, s)
    ensures AllGrounded(c, FailSnapshotFile(s, left))
  {
    var k := NextUnwritten(s.pending);
    if k < |s.pending| {
      assert s.pending[k] in s.pending;
      if left.Some? {
        FileKeeps(c, s, PathOf(s.dir, s.pending[k].through), left.value);
      }
    }
  }

  lemma CompleteKeeps(c: Codec, s: Store, k: nat)
    requires Tidy(c, s) && AllGrounded(c, s)
    ensures AllGrounded(c, CompleteSnapshot(s, k))
  {
    if k < |s.pending| && s.pending[k].written {
      var r := s.pending[k];
      assert r in s.pending && Contents(c, s.files, PathOf(s.dir, r.through)) == Captured(c, r);
      assert forall q :: q in Without(s.pending, k) ==> q in s.pending;
    }
  }

  lemma StepKeeps(c: Codec, s: Store, ev: Event)
    requires Sound(c) && Tidy(c, s) && AllGrounded(c, s) && Allowed(c, s, ev)
    requires ev.Installed? ==> FileGrounded(c, s.files, PathOf(s.dir, ev.index))
    ensures AllGrounded(c, SnapshotHistory.Step(c, s, ev))
  {
    match ev
    case Appended(_) =>
    case Replicated(es) => BatchPointers(s.log, es);
    case Requested(through) => RequestKeeps(c, s, through);
    case Refused(_) =>
    case FileWritten => ServeKeeps(c, s);
    case FileFailed(left) => FailKeeps(c, s, left);
    case Completed(k) => CompleteKeeps(c, s, k);
    case Received(index, stream) => FileKeeps(c, s, PathOf(s.dir, index), Reassembled(stream));
    case Installed(_, _, _) =>
  }

  lemma {:induction false} BatchPointers(log: Log, es: seq<LogEntry>)
    requires forall e :: e in es ==> !IsPointer(e)
    ensures forall k :: k in InsertAll(log, es) && IsPointer(InsertAll(log, es)[k]) ==>
                          k in log && log[k] == InsertAll(log, es)[k]
    decreases |es|
  {
    if es != [] {
      assert es[0] in es && forall e :: e in es[1..] ==> e in es;
      BatchPointers(log[es[0].index := es[0]], es[1..]);
    }
  }

  lemma {:induction false} RunKeeps(c: Codec, s: Store, evs: seq<Event>)
    requires Sound(c) && Tidy(c, s) && AllGrounded(c, s) && AllAllowed(c, s, evs) && InstallsGrounded(c, s, evs)
    ensures AllGrounded(c, SnapshotHistory.Run(c, s, evs))
    decreases |evs|
  {
    if evs != [] {
      StepSimulates(c, s, evs[0]);
      StepKeeps(c, s, evs[0]);
      RunKeeps(c, SnapshotHistory.Step(c, s, evs[0]), evs[1..]);
    }
  }

  /** From a fresh engine, after any allowed run following the pointers of the log ends, each time at a legible file. */
  lemma PointersEnd(c: Codec, s: Store, evs: seq<Event>)
    requires Sound(c) && Fresh(s) && AllAllowed(c, s, evs) && InstallsGrounded(c, s, evs)
    ensures var s' := SnapshotHistory.Run(c, s, evs);
            forall k :: k in s'.log && IsPointer(s'.log[k]) ==> FileGrounded(c, s'.files, s'.log[k].payload.path)
  {
    FreshInv(c, s);
    RunKeeps(c, s, evs);
  }
}
