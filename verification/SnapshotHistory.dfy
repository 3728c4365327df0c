/**
 Compaction loses nothing: whatever the order of writes, snapshot requests,
 file writes, completions and installations, the engine with its pointers and
 files tells exactly what an engine without files would hold.
 */
module SnapshotHistory {
  import opened Wrappers
  import opened RaftMessages
  import opened StorageSpec
  import opened LayeredLog
  import StorageBatches

  /* ---------- reading through pointers ---------- */

  /** The first ordinary entry of a list with the given index. */
  function Direct(es: seq<LogEntry>, i: nat): Option<LogEntry> {
    if es == [] then None
    else
      var last := es[|es| - 1];
      OrElse(Direct(es[..|es| - 1], i), if !IsPointer(last) && last.index == i then Some(last) else None)
  }

  predicate Readable(c: Codec, files: Files, p: SnapshotPath) {
    p in files && c.decode(files[p]).Some?
  }

  function Contents(c: Codec, files: Files, p: SnapshotPath): seq<LogEntry>
    requires Readable(c, files, p)
  {
    c.decode(files[p]).value
  }

  /** The entry at index i, from the list itself or else from behind its pointers. */
  function Lookup(c: Codec, files: Files, es: seq<LogEntry>, bound: nat, i: nat): Option<LogEntry>
    decreases bound, |es| + 1
  {
    OrElse(Direct(es, i), Behind(c, files, es, bound, i))
  }

  /**
   The first answer from behind the pointers of a list. Pointers are followed
   to files with smaller and smaller names, and a file speaks for no index
   above its name.
   */
  function Behind(c: Codec, files: Files, es: seq<LogEntry>, bound: nat, i: nat): Option<LogEntry>
    decreases bound, |es|
  {
    if es == [] then None
    else
      var last := es[|es| - 1];
      OrElse(
        Behind(c, files, es[..|es| - 1], bound, i),
        if IsPointer(last) && last.payload.path.index < bound && i <= last.payload.path.index
           && Readable(c, files, last.payload.path)
        then Lookup(c, files, Contents(c, files, last.payload.path), last.payload.path.index, i)
        else None)
  }

  /** All that a list tells about the indices up to a bound. */
  function Told(c: Codec, files: Files, es: seq<LogEntry>, bound: nat): Log {
    map i: nat | i <= bound && Lookup(c, files, es, bound, i).Some? :: Lookup(c, files, es, bound, i).value
  }

  /** What a pointer to this file stands for. */
  function Layer(c: Codec, files: Files, p: SnapshotPath): Log {
    if Readable(c, files, p) then Told(c, files, Contents(c, files, p), p.index) else map[]
  }

  /** The captured entries of a request. */
  function Captured(c: Codec, r: Request): seq<LogEntry> {
    var es := c.decode(r.data);
    if es.Some? then es.value else []
  }

  function CaptureOf(c: Codec, files: Files, r: Request): Capture {
    Capture(r.through, Told(c, files, Captured(c, r), r.through), r.written)
  }

  function Queue(c: Codec, files: Files, pending: seq<Request>): seq<Capture> {
    seq(|pending|, j requires 0 <= j < |pending| => CaptureOf(c, files, pending[j]))
  }

  function Live(log: Log): Log {
    map k | k in log && !IsPointer(log[k]) :: log[k]
  }

  function Layers(c: Codec, files: Files, log: Log): map<nat, Log> {
    map k | k in log && IsPointer(log[k]) :: Layer(c, files, log[k].payload.path)
  }

  /** The engine with every pointer replaced by what it stands for. */
  function ImageOf(c: Codec, s: Store): Image {
    Image(Live(s.log), Layers(c, s.files, s.log), Queue(c, s.files, s.pending))
  }

  /** What the engine can still tell about index i, from the live log and the files. */
  ghost function Recover(c: Codec, s: Store, i: nat): Option<LogEntry> {
    Read(ImageOf(c, s), i)
  }

  /* ---------- files in use ---------- */

  /** Following pointers from the list leads to the file. */
  predicate Reaches(c: Codec, files: Files, es: seq<LogEntry>, bound: nat, p: SnapshotPath)
    decreases bound, |es|
  {
    && es != []
    && var last := es[|es| - 1];
       || Reaches(c, files, es[..|es| - 1], bound, p)
       || (&& IsPointer(last) && last.payload.path.index < bound
           && (|| last.payload.path == p
               || (&& Readable(c, files, last.payload.path)
                   && Reaches(c, files, Contents(c, files, last.payload.path), last.payload.path.index, p))))
  }

  predicate Leads(c: Codec, files: Files, from: SnapshotPath, p: SnapshotPath) {
    from == p || (Readable(c, files, from) && Reaches(c, files, Contents(c, files, from), from.index, p))
  }

  ghost predicate LogUses(c: Codec, files: Files, log: Log, p: SnapshotPath) {
    exists k :: k in log && IsPointer(log[k]) && Leads(c, files, log[k].payload.path, p)
  }

  ghost predicate PendingUses(c: Codec, files: Files, pending: seq<Request>, p: SnapshotPath) {
    exists r :: r in pending && Reaches(c, files, Captured(c, r), r.through, p)
  }

  /** A pointer of the log or of a capture under way leads to the file. */
  ghost predicate InUse(c: Codec, s: Store, p: SnapshotPath) {
    LogUses(c, s.files, s.log, p) || PendingUses(c, s.files, s.pending, p)
  }

  /* ---------- runs ---------- */

  function Step(c: Codec, s: Store, ev: Event): Store {
    match ev
    case Appended(e) => Append(s, e)
    case Replicated(es) => Replicate(s, es)
    case Requested(through) => RequestSnapshot(c, s, through)
    case Refused(through) => RequestSnapshot(c, s, through)
    case FileWritten => WriteSnapshotFile(s)
    case FileFailed(left) => FailSnapshotFile(s, left)
    case Completed(k) => CompleteSnapshot(s, k)
    case Received(index, stream) => ReceiveFile(s, index, stream)
    case Installed(index, term, _) => FinishInstall(s, index, term, PathOf(s.dir, index))
  }

  /** The file at hand says what the installed snapshot is said to tell, without the files still to be written. */
  ghost predicate InstallAllowed(c: Codec, s: Store, index: nat, told: Log) {
    && Readable(c, s.files, PathOf(s.dir, index))
    && told == Layer(c, s.files, PathOf(s.dir, index))
    && (forall r :: r in s.pending && !r.written ==>
          !Leads(c, s.files, PathOf(s.dir, index), PathOf(s.dir, r.through)))
  }

  /**
   The one rule behind compaction: a file in use is not written again. Nor are
   two snapshots of one name under way at a time.
   */
  ghost predicate Allowed(c: Codec, s: Store, ev: Event) {
    match ev
    case Appended(e) => !IsPointer(e)
    case Replicated(es) => forall e :: e in es ==> !IsPointer(e)
    case Requested(through) =>
      && c.encode(Range(s.log, 0, through + 1)).Some?
      && !InUse(c, s, PathOf(s.dir, through))
      && forall r :: r in s.pending ==> r.through != through
    case Refused(through) => c.encode(Range(s.log, 0, through + 1)).None?
    case FileWritten => true
    case FileFailed(_) => true
    case Completed(_) => true
    case Received(index, _) =>
      !InUse(c, s, PathOf(s.dir, index)) && forall r :: r in s.pending && r.written ==> r.through != index
    case Installed(index, _, told) => InstallAllowed(c, s, index, told)
  }

  function Run(c: Codec, s: Store, evs: seq<Event>): Store
    decreases |evs|
  {
    if evs == [] then s else Run(c, Step(c, s, evs[0]), evs[1..])
  }

  ghost predicate AllAllowed(c: Codec, s: Store, evs: seq<Event>)
    decreases |evs|
  {
    evs == [] || (Allowed(c, s, evs[0]) && AllAllowed(c, Step(c, s, evs[0]), evs[1..]))
  }

  /* ---------- what every run keeps ---------- */

  /** Entries sit under their own index and pointers under the name of their file. */
  ghost predicate WellKeyed(log: Log, dir: string) {
    && (forall k :: k in log && !IsPointer(log[k]) ==> log[k].index == k)
    && (forall k :: k in log && IsPointer(log[k]) ==> log[k].payload.path == PathOf(dir, k))
  }

  /** Captures are legible, under different names; a served one is in its file, the file of another is not in use. */
  ghost predicate PendingTidy(c: Codec, s: Store) {
    && (forall j, k :: 0 <= j < k < |s.pending| ==> s.pending[j].through != s.pending[k].through)
    && (forall r :: r in s.pending ==>
          && c.decode(r.data).Some?
          && (r.written ==> PathOf(s.dir, r.through) in s.files && s.files[PathOf(s.dir, r.through)] == r.data)
          && (!r.written ==> !InUse(c, s, PathOf(s.dir, r.through))))
  }

  ghost predicate Tidy(c: Codec, s: Store) {
    WellKeyed(s.log, s.dir) && PendingTidy(c, s)
  }

  /** Reading depends only on the files that pointers lead to. */
  lemma {:induction false} BehindFrame(c: Codec, f: Files, f': Files, es: seq<LogEntry>, bound: nat, p: SnapshotPath)
    requires !Reaches(c, f, es, bound, p) && f' - {p} == f - {p}
    ensures forall i: nat :: Behind(c, f', es, bound, i) == Behind(c, f, es, bound, i)
    ensures forall q :: Reaches(c, f', es, bound, q) <==> Reaches(c, f, es, bound, q)
    decreases bound, |es|
  {
    if es != [] {
      var last := es[|es| - 1];
      BehindFrame(c, f, f', es[..|es| - 1], bound, p);
      if IsPointer(last) && last.payload.path.index < bound {
        SameElsewhere(c, f, f', p, last.payload.path);
        if Readable(c, f, last.payload.path) {
          var inner, n := Contents(c, f, last.payload.path), last.payload.path.index;
          BehindFrame(c, f, f', inner, n, p);
          assert forall i: nat :: Lookup(c, f', inner, n, i) == Lookup(c, f, inner, n, i);
        }
      }
    }
  }

  lemma SameElsewhere(c: Codec, f: Files, f': Files, p: SnapshotPath, q: SnapshotPath)
    requires f' - {p} == f - {p} && q != p
    ensures Readable(c, f', q) <==> Readable(c, f, q)
    ensures Readable(c, f, q) ==> Contents(c, f', q) == Contents(c, f, q)
  {
    assert q in f <==> q in f - {p};
    assert q in f' <==> q in f' - {p};
    assert q in f ==> f[q] == (f - {p})[q];
    assert q in f' ==> f'[q] == (f' - {p})[q];
  }

  lemma ToldFrame(c: Codec, f: Files, f': Files, es: seq<LogEntry>, bound: nat, p: SnapshotPath)
    requires !Reaches(c, f, es, bound, p) && f' - {p} == f - {p}
    ensures Told(c, f', es, bound) == Told(c, f, es, bound)
  {
    BehindFrame(c, f, f', es, bound, p);
    assert forall i: nat :: Lookup(c, f', es, bound, i) == Lookup(c, f, es, bound, i);
  }

  lemma LayerFrame(c: Codec, f: Files, f': Files, from: SnapshotPath, p: SnapshotPath)
    requires !Leads(c, f, from, p) && f' - {p} == f - {p}
    ensures Layer(c, f', from) == Layer(c, f, from)
    ensures forall q :: Leads(c, f', from, q) <==> Leads(c, f, from, q)
  {
    SameElsewhere(c, f, f', p, from);
    if Readable(c, f, from) {
      BehindFrame(c, f, f', Contents(c, f, from), from.index, p);
      ToldFrame(c, f, f', Contents(c, f, from), from.index, p);
    }
  }

  /** A file that is not in use may be written. */
  lemma FileFrame(c: Codec, s: Store, p: SnapshotPath, data: seq<byte>)
    requires !InUse(c, s, p)
    ensures var s' := s.(files := s.files[p := data]);
            && ImageOf(c, s') == ImageOf(c, s)
            && forall q :: InUse(c, s', q) <==> InUse(c, s, q)
  {
    var f, f' := s.files, s.files[p := data];
    assert f' - {p} == f - {p};
    forall k | k in s.log && IsPointer(s.log[k])
      ensures Layer(c, f', s.log[k].payload.path) == Layer(c, f, s.log[k].payload.path)
      ensures forall q :: Leads(c, f', s.log[k].payload.path, q) <==> Leads(c, f, s.log[k].payload.path, q)
    {
      LayerFrame(c, f, f', s.log[k].payload.path, p);
    }
    forall r | r in s.pending
      ensures CaptureOf(c, f', r) == CaptureOf(c, f, r)
      ensures forall q :: Reaches(c, f', Captured(c, r), r.through, q) <==> Reaches(c, f, Captured(c, r), r.through, q)
    {
      BehindFrame(c, f, f', Captured(c, r), r.through, p);
      ToldFrame(c, f, f', Captured(c, r), r.through, p);
    }
  }

  /* ---------- each message against the image ---------- */

  /** Dropping pointers puts no file into use. */
  lemma FewerPointers(c: Codec, s: Store, log: Log)
    requires forall k :: k in log && IsPointer(log[k]) ==> k in s.log && s.log[k] == log[k]
    ensures forall p :: InUse(c, s.(log := log), p) ==> InUse(c, s, p)
  {
  }

  lemma AppendImage(c: Codec, s: Store, e: LogEntry)
    requires !IsPointer(e)
    ensures ImageOf(c, Append(s, e)) == Write(ImageOf(c, s), e)
  {
    assert Live(s.log[e.index := e]) == Live(s.log)[e.index := e];
    assert Layers(c, s.files, s.log[e.index := e]) == Layers(c, s.files, s.log) - {e.index};
  }

  lemma AppendSimulates(c: Codec, s: Store, e: LogEntry)
    requires Tidy(c, s) && !IsPointer(e)
    ensures Tidy(c, Append(s, e))
    ensures ImageOf(c, Append(s, e)) == Write(ImageOf(c, s), e)
  {
    AppendImage(c, s, e);
    FewerPointers(c, s, s.log[e.index := e]);
  }

  lemma {:induction false} ReplicateSimulates(c: Codec, s: Store, es: seq<LogEntry>)
    requires Tidy(c, s) && forall e :: e in es ==> !IsPointer(e)
    ensures Tidy(c, Replicate(s, es))
    ensures ImageOf(c, Replicate(s, es)) == WriteBatch(ImageOf(c, s), es)
    decreases |es|
  {
    if es != [] {
      assert es[0] in es && forall e :: e in es[1..] ==> e in es;
      AppendSimulates(c, s, es[0]);
      ReplicateSimulates(c, Append(s, es[0]), es[1..]);
    }
  }

  lemma {:induction false} DirectAppend(es: seq<LogEntry>, e: LogEntry, i: nat)
    ensures Direct(es + [e], i) == OrElse(Direct(es, i), if !IsPointer(e) && e.index == i then Some(e) else None)
  {
    assert (es + [e])[..|es + [e]| - 1] == es;
  }

  lemma {:induction false} RangeDirect(log: Log, dir: string, n: nat, i: nat)
    requires WellKeyed(log, dir)
    ensures Direct(Range(log, 0, n), i) == if i < n then Get(Live(log), i) else None
  {
    if n > 0 {
      RangeDirect(log, dir, n - 1, i);
      if n - 1 in log {
        DirectAppend(Range(log, 0, n - 1), log[n - 1], i);
      } else {
        assert Range(log, 0, n) == Range(log, 0, n - 1);
      }
    }
  }

  lemma BehindAppend(c: Codec, files: Files, es: seq<LogEntry>, e: LogEntry, bound: nat, i: nat)
    ensures Behind(c, files, es + [e], bound, i) ==
            OrElse(
              Behind(c, files, es, bound, i),
              if IsPointer(e) && e.payload.path.index < bound then Get(Layer(c, files, e.payload.path), i) else None)
  {
    assert (es + [e])[..|es + [e]| - 1] == es;
  }

  /** What a read of the keys below n finds behind pointers is what the layers below n hold. */
  lemma {:induction false} RangeBehind(c: Codec, files: Files, log: Log, n: nat, bound: nat, i: nat)
    requires forall k :: k in log && IsPointer(log[k]) && k < n ==> log[k].payload.path.index < bound
    ensures Behind(c, files, Range(log, 0, n), bound, i) == FromLayers(Below(Layers(c, files, log), n), i)
  {
    var layers := Layers(c, files, log);
    if n == 0 {
      LayersKnow(Below(layers, 0), i);
    } else {
      RangeBehind(c, files, log, n - 1, bound, i);
      TopLayer(layers, n - 1, i);
      if n - 1 in log {
        BehindAppend(c, files, Range(log, 0, n - 1), log[n - 1], bound, i);
      } else {
        assert Range(log, 0, n) == Range(log, 0, n - 1);
      }
    }
  }

  function Below<T>(m: map<nat, T>, n: nat): map<nat, T> {
    map k | k in m && k < n :: m[k]
  }

  /** The topmost layer is read last. */
  lemma TopLayer(layers: map<nat, Log>, n: nat, i: nat)
    ensures FromLayers(Below(layers, n + 1), i) ==
            OrElse(FromLayers(Below(layers, n), i), if n in layers then Get(layers[n], i) else None)
  {
    var most, all := Below(layers, n), Below(layers, n + 1);
    LayersKnow(most, i);
    LayersKnow(all, i);
    assert forall k :: k in all && k != n ==> k in most && all[k] == most[k];
    assert forall k :: k in most ==> k in all && all[k] == most[k];
    if k :| First(most, i, k) {
      assert First(all, i, k);
    } else if n in layers && i in layers[n] {
      assert First(all, i, n);
    }
  }

  lemma CaptureTellsAt(c: Codec, s: Store, through: nat, i: nat)
    requires WellKeyed(s.log, s.dir) && !(through in s.log && IsPointer(s.log[through])) && i <= through
    ensures Lookup(c, s.files, Range(s.log, 0, through + 1), through, i) == ReadUpTo(ImageOf(c, s), through, i)
  {
    var layers := Layers(c, s.files, s.log);
    assert Below(layers, through + 1) == UpTo(layers, through);
    RangeDirect(s.log, s.dir, through + 1, i);
    RangeBehind(c, s.files, s.log, through + 1, through, i);
    assert Get(UpTo(Live(s.log), through), i) == Get(Live(s.log), i);
  }

  /** A capture tells what the image holds up to its index. */
  lemma CaptureTells(c: Codec, s: Store, through: nat)
    requires WellKeyed(s.log, s.dir) && !(through in s.log && IsPointer(s.log[through]))
    ensures Told(c, s.files, Range(s.log, 0, through + 1), through) == Flat(ImageOf(c, s), through)
  {
    var im, es := ImageOf(c, s), Range(s.log, 0, through + 1);
    forall i: nat | i <= through
      ensures Lookup(c, s.files, es, through, i) == ReadUpTo(im, through, i)
    {
      CaptureTellsAt(c, s, through, i);
    }
  }

  lemma {:induction false} RangeReaches(c: Codec, files: Files, log: Log, n: nat, bound: nat, p: SnapshotPath)
    ensures Reaches(c, files, Range(log, 0, n), bound, p) ==> LogUses(c, files, log, p)
  {
    if n > 0 {
      RangeReaches(c, files, log, n - 1, bound, p);
      var es := Range(log, 0, n - 1);
      if n - 1 in log {
        assert (es + [log[n - 1]])[..|es|] == es;
      } else {
        assert Range(log, 0, n) == es;
      }
    }
  }

  lemma RequestSimulates(c: Codec, s: Store, through: nat)
    requires Sound(c) && Tidy(c, s) && Allowed(c, s, Requested(through))
    ensures Tidy(c, RequestSnapshot(c, s, through))
    ensures ImageOf(c, RequestSnapshot(c, s, through)) == BeginCapture(ImageOf(c, s), through)
  {
    var s' := RequestSnapshot(c, s, through);
    var es := Range(s.log, 0, through + 1);
    var r := s'.pending[|s.pending|];
    assert s'.pending == s.pending + [r] && Captured(c, r) == es;
    assert Leads(c, s.files, PathOf(s.dir, through), PathOf(s.dir, through));
    CaptureTells(c, s, through);
    forall p ensures InUse(c, s', p) ==> InUse(c, s, p) {
      RangeReaches(c, s.files, s.log, through + 1, through, p);
    }
  }

  /** Requests keep their captures when they are marked or leave the queue. */
  lemma FewerPending(c: Codec, s: Store, pending: seq<Request>)
    requires forall r :: r in pending ==> exists q :: q in s.pending && r.(written := true) == q.(written := true)
    ensures forall p :: InUse(c, s.(pending := pending), p) ==> InUse(c, s, p)
  {
    forall p | PendingUses(c, s.files, pending, p) ensures PendingUses(c, s.files, s.pending, p) {
      var r :| r in pending && Reaches(c, s.files, Captured(c, r), r.through, p);
      var q :| q in s.pending && r.(written := true) == q.(written := true);
      assert Reaches(c, s.files, Captured(c, q), q.through, p);
    }
  }

  lemma {:induction false} SameNext(c: Codec, files: Files, pending: seq<Request>)
    ensures NextInQueue(Queue(c, files, pending)) == NextUnwritten(pending)
  {
    if pending != [] && pending[0].written {
      assert Queue(c, files, pending)[1..] == Queue(c, files, pending[1..]);
      SameNext(c, files, pending[1..]);
    }
  }

  lemma FileWrittenSimulates(c: Codec, s: Store)
    requires Tidy(c, s)
    ensures Tidy(c, WriteSnapshotFile(s))
    ensures ImageOf(c, WriteSnapshotFile(s)) == MarkWritten(ImageOf(c, s))
  {
    var k := NextUnwritten(s.pending);
    SameNext(c, s.files, s.pending);
    if k < |s.pending| {
      var r := s.pending[k];
      var s1 := s.(files := s.files[PathOf(s.dir, r.through) := r.data]);
      var s' := WriteSnapshotFile(s);
      assert r in s.pending;
      FileFrame(c, s, PathOf(s.dir, r.through), r.data);
      MarkedTidy(c, s, k);
      assert ImageOf(c, s') == ImageOf(c, s1).(queue := Queue(c, s1.files, s'.pending));
      assert Queue(c, s1.files, s'.pending) ==
             Queue(c, s1.files, s.pending)[k := CaptureOf(c, s1.files, r).(written := true)];
    }
  }

  lemma MarkedTidy(c: Codec, s: Store, k: nat)
    requires Tidy(c, s) && k < |s.pending| && !s.pending[k].written
    ensures var r := s.pending[k];
            Tidy(c, s.(files := s.files[PathOf(s.dir, r.through) := r.data],
                       pending := s.pending[k := r.(written := true)]))
  {
    var r := s.pending[k];
    var s1 := s.(files := s.files[PathOf(s.dir, r.through) := r.data]);
    var pending := s.pending[k := r.(written := true)];
    FileFrame(c, s, PathOf(s.dir, r.through), r.data);
    forall q | q in pending ensures exists q' :: q' in s.pending && q.(written := true) == q'.(written := true) {
      var j :| 0 <= j < |pending| && pending[j] == q;
      assert s.pending[j] in s.pending;
    }
    FewerPending(c, s1, pending);
    forall j | 0 <= j < |pending|
      ensures var q := pending[j];
              && c.decode(q.data).Some?
              && (q.written ==> PathOf(s.dir, q.through) in s1.files && s1.files[PathOf(s.dir, q.through)] == q.data)
              && (!q.written ==> !InUse(c, s1.(pending := pending), PathOf(s.dir, q.through)))
    {
      assert s.pending[j] in s.pending;
    }
  }

  lemma DropDistinct(pending: seq<Request>, k: nat)
    requires k < |pending|
    requires forall i, j :: 0 <= i < j < |pending| ==> pending[i].through != pending[j].through
    ensures var rest := Without(pending, k);
            forall i, j :: 0 <= i < j < |rest| ==> rest[i].through != rest[j].through
  {
  }

  lemma DropTidy(c: Codec, s: Store, k: nat)
    requires Tidy(c, s) && k < |s.pending|
    ensures Tidy(c, s.(pending := Without(s.pending, k)))
  {
    var rest := Without(s.pending, k);
    DropDistinct(s.pending, k);
    forall r | r in rest ensures r in s.pending {}
    FewerPending(c, s, rest);
  }

  lemma DropImage(c: Codec, files: Files, pending: seq<Request>, k: nat)
    requires k < |pending|
    ensures Queue(c, files, Without(pending, k)) ==
            Without(Queue(c, files, pending), k)
  {
  }

  /** The file of a snapshot that is not served yet may hold anything. */
  lemma UnservedTidy(c: Codec, s: Store, k: nat, left: Option<seq<byte>>)
    requires Tidy(c, s) && k < |s.pending| && !s.pending[k].written
    ensures Tidy(c, s.(files := Failed(s.files, PathOf(s.dir, s.pending[k].through), left)))
    ensures ImageOf(c, s.(files := Failed(s.files, PathOf(s.dir, s.pending[k].through), left))) == ImageOf(c, s)
  {
    assert s.pending[k] in s.pending;
    if left.Some? {
      FileFrame(c, s, PathOf(s.dir, s.pending[k].through), left.value);
    }
    forall r | r in s.pending && r.written ensures r.through != s.pending[k].through {
      var j :| 0 <= j < |s.pending| && s.pending[j] == r;
    }
  }

  lemma FileFailedSimulates(c: Codec, s: Store, left: Option<seq<byte>>)
    requires Tidy(c, s)
    ensures Tidy(c, FailSnapshotFile(s, left))
    ensures ImageOf(c, FailSnapshotFile(s, left)) == Abandon(ImageOf(c, s))
  {
    var k := NextUnwritten(s.pending);
    SameNext(c, s.files, s.pending);
    if k < |s.pending| {
      DropSimulates(c, s.(files := Failed(s.files, PathOf(s.dir, s.pending[k].through), left)), k);
      UnservedTidy(c, s, k, left);
    }
  }

  lemma DropSimulates(c: Codec, s: Store, k: nat)
    requires k < |s.pending|
    ensures var s', im := s.(pending := Without(s.pending, k)), ImageOf(c, s);
            && (Tidy(c, s) ==> Tidy(c, s'))
            && ImageOf(c, s') == im.(queue := Without(im.queue, k))
  {
    if Tidy(c, s) {
      DropTidy(c, s, k);
    }
    DropImage(c, s.files, s.pending, k);
  }

  /** Cutting the log at an index and leaving a pointer there puts a layer into the image. */
  function CutLog(log: Log, dir: string, index: nat, entryIndex: nat, term: nat): Log {
    SplitOff(log, index)[index := PointerEntry(PathOf(dir, index), entryIndex, term)]
  }

  lemma PointerImage(c: Codec, s: Store, index: nat, entryIndex: nat, term: nat)
    ensures ImageOf(c, s.(log := CutLog(s.log, s.dir, index, entryIndex, term))) ==
            PutLayer(ImageOf(c, s), index, Layer(c, s.files, PathOf(s.dir, index)))
  {
    var log' := CutLog(s.log, s.dir, index, entryIndex, term);
    assert Live(log') == Above(Live(s.log), index);
    assert Layers(c, s.files, log') ==
           Above(Layers(c, s.files, s.log), index)[index := Layer(c, s.files, PathOf(s.dir, index))];
  }

  lemma PointerUses(c: Codec, s: Store, index: nat, entryIndex: nat, term: nat, p: SnapshotPath)
    requires InUse(c, s.(log := CutLog(s.log, s.dir, index, entryIndex, term)), p)
    ensures InUse(c, s, p) || Leads(c, s.files, PathOf(s.dir, index), p)
  {
  }

  lemma PointerTidy(c: Codec, s: Store, index: nat, entryIndex: nat, term: nat)
    requires Tidy(c, s)
    requires forall r :: r in s.pending && !r.written ==>
                           !Leads(c, s.files, PathOf(s.dir, index), PathOf(s.dir, r.through))
    ensures Tidy(c, s.(log := CutLog(s.log, s.dir, index, entryIndex, term)))
  {
    var s' := s.(log := CutLog(s.log, s.dir, index, entryIndex, term));
    forall r | r in s'.pending && !r.written ensures !InUse(c, s', PathOf(s.dir, r.through)) {
      if InUse(c, s', PathOf(s.dir, r.through)) {
        PointerUses(c, s, index, entryIndex, term, PathOf(s.dir, r.through));
      }
    }
  }

  /** Use of files and the image depend on log, files and queue only. */
  lemma SameParts(c: Codec, s: Store, s': Store)
    requires s'.log == s.log && s'.files == s.files && s'.pending == s.pending && s'.dir == s.dir
    ensures ImageOf(c, s') == ImageOf(c, s)
    ensures Tidy(c, s') <==> Tidy(c, s)
  {
    assert forall p :: InUse(c, s', p) <==> InUse(c, s, p);
  }

  /** The file of a served request leads nowhere that another snapshot has yet to write. */
  lemma ServedLeads(c: Codec, s: Store, k: nat, q: Request)
    requires Tidy(c, s) && k < |s.pending| && s.pending[k].written
    requires q in Without(s.pending, k) && !q.written
    ensures !Leads(c, s.files, PathOf(s.dir, s.pending[k].through), PathOf(s.dir, q.through))
  {
    var r := s.pending[k];
    assert q in s.pending && r in s.pending;
    var j :| 0 <= j < |s.pending| && s.pending[j] == q;
    assert j != k;
    assert r.through != q.through;
    assert !PendingUses(c, s.files, s.pending, PathOf(s.dir, q.through));
    assert Contents(c, s.files, PathOf(s.dir, r.through)) == Captured(c, r);
  }

  /** The file of a served request tells what was captured. */
  lemma ServedLayer(c: Codec, s: Store, k: nat)
    requires Tidy(c, s) && k < |s.pending| && s.pending[k].written
    ensures Layer(c, s.files, PathOf(s.dir, s.pending[k].through)) == CaptureOf(c, s.files, s.pending[k]).table
  {
    assert s.pending[k] in s.pending;
    assert Contents(c, s.files, PathOf(s.dir, s.pending[k].through)) == Captured(c, s.pending[k]);
  }

  /** The engine when a request has been taken off the queue, and nothing else done. */
  function Taken(s: Store, k: nat): Store
    requires k < |s.pending|
  {
    s.(pending := Without(s.pending, k))
  }

  lemma CompletedIsCut(c: Codec, s: Store, k: nat)
    requires k < |s.pending| && s.pending[k].written
    ensures var r := s.pending[k];
            var cut := Taken(s, k).(log := CutLog(s.log, s.dir, r.through, r.index, r.term));
            && ImageOf(c, CompleteSnapshot(s, k)) == ImageOf(c, cut)
            && (Tidy(c, CompleteSnapshot(s, k)) <==> Tidy(c, cut))
  {
    var r := s.pending[k];
    SameParts(
      c, Taken(s, k).(log := CutLog(s.log, s.dir, r.through, r.index, r.term)), CompleteSnapshot(s, k));
  }

  lemma CompletedTidy(c: Codec, s: Store, k: nat)
    requires Tidy(c, s) && k < |s.pending| && s.pending[k].written
    ensures Tidy(c, CompleteSnapshot(s, k))
  {
    var r, taken := s.pending[k], Taken(s, k);
    DropTidy(c, s, k);
    forall q | q in taken.pending && !q.written
      ensures !Leads(c, taken.files, PathOf(taken.dir, r.through), PathOf(taken.dir, q.through))
    {
      ServedLeads(c, s, k, q);
    }
    PointerTidy(c, taken, r.through, r.index, r.term);
    CompletedIsCut(c, s, k);
  }

  lemma CompletedSimulates(c: Codec, s: Store, k: nat)
    requires Tidy(c, s)
    ensures Tidy(c, CompleteSnapshot(s, k))
    ensures ImageOf(c, CompleteSnapshot(s, k)) == Land(ImageOf(c, s), k)
  {
    if k < |s.pending| && s.pending[k].written {
      var r := s.pending[k];
      CompletedTidy(c, s, k);
      CompletedIsCut(c, s, k);
      DropImage(c, s.files, s.pending, k);
      ServedLayer(c, s, k);
      PointerImage(c, Taken(s, k), r.through, r.index, r.term);
    }
  }

  lemma ReceivedSimulates(c: Codec, s: Store, index: nat, data: seq<byte>)
    requires Tidy(c, s) && !InUse(c, s, PathOf(s.dir, index))
    requires forall r :: r in s.pending && r.written ==> r.through != index
    ensures Tidy(c, s.(files := s.files[PathOf(s.dir, index) := data]))
    ensures ImageOf(c, s.(files := s.files[PathOf(s.dir, index) := data])) == ImageOf(c, s)
  {
    FileFrame(c, s, PathOf(s.dir, index), data);
  }

  lemma InstalledSimulates(c: Codec, s: Store, index: nat, term: nat, told: Log)
    requires Tidy(c, s) && InstallAllowed(c, s, index, told)
    ensures var s' := FinishInstall(s, index, term, PathOf(s.dir, index));
            Tidy(c, s') && ImageOf(c, s') == PutLayer(ImageOf(c, s), index, told)
  {
    var s' := FinishInstall(s, index, term, PathOf(s.dir, index));
    PointerTidy(c, s, index, index, term);
    PointerImage(c, s, index, index, term);
    SameParts(c, s.(log := CutLog(s.log, s.dir, index, index, term)), s');
  }

  /** Every allowed message does to the engine's image what it does to an engine without files. */
  lemma StepSimulates(c: Codec, s: Store, ev: Event)
    requires Sound(c) && Tidy(c, s) && Allowed(c, s, ev)
    ensures Tidy(c, Step(c, s, ev))
    ensures ImageOf(c, Step(c, s, ev)) == LayeredLog.Step(ImageOf(c, s), ev)
  {
    match ev
    case Appended(e) => AppendSimulates(c, s, e);
    case Replicated(es) => ReplicateSimulates(c, s, es);
    case Requested(through) => RequestSimulates(c, s, through);
    case Refused(_) =>
    case FileWritten => FileWrittenSimulates(c, s);
    case FileFailed(left) => FileFailedSimulates(c, s, left);
    case Completed(k) => CompletedSimulates(c, s, k);
    case Received(index, stream) => ReceivedSimulates(c, s, index, Reassembled(stream));
    case Installed(index, term, told) => InstalledSimulates(c, s, index, term, told);
  }

  lemma {:induction false} RunSimulates(c: Codec, s: Store, evs: seq<Event>)
    requires Sound(c) && Tidy(c, s) && AllAllowed(c, s, evs)
    ensures Tidy(c, Run(c, s, evs))
    ensures ImageOf(c, Run(c, s, evs)) == LayeredLog.Run(ImageOf(c, s), evs)
    decreases |evs|
  {
    if evs != [] {
      StepSimulates(c, s, evs[0]);
      RunSimulates(c, Step(c, s, evs[0]), evs[1..]);
    }
  }

  /* ---------- conservation ---------- */

  ghost predicate Conserves(c: Codec, s: Store, hist: Log) {
    forall i: nat :: Recover(c, s, i) == Get(hist, i)
  }

  /** An engine that holds nothing yet; the directory may already contain files. */
  predicate Fresh(s: Store) {
    s.log == map[] && s.pending == []
  }

  lemma FreshInv(c: Codec, s: Store)
    requires Fresh(s)
    ensures Tidy(c, s) && Inv(ImageOf(c, s), map[])
  {
    forall i: nat ensures Recover(c, s, i) == None {
      LayersKnow(ImageOf(c, s).layers, i);
    }
  }

  /**
   Conservation: from a fresh engine, after any allowed run the latest write at
   every index is recoverable.
   */
  lemma HistoryConserved(c: Codec, s: Store, evs: seq<Event>)
    requires Sound(c) && Fresh(s) && AllAllowed(c, s, evs) && AllCareful(ImageOf(c, s), evs)
    ensures Conserves(c, Run(c, s, evs), LatestWrites(map[], evs))
  {
    FreshInv(c, s);
    RunSimulates(c, s, evs);
    LayeredLog.RunKeeps(ImageOf(c, s), map[], evs);
  }
}
