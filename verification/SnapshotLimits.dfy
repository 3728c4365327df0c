/**
 How far conservation reaches: what a write at a pointer, a write during a
 snapshot, a snapshot completed after an installation, and a request for a
 name in use each do to what can be read, exactly.
 */
module SnapshotLimits {
  import opened Wrappers
  import opened RaftMessages
  import opened StorageSpec
  import opened LayeredLog
  import opened SnapshotHistory
  import opened FileReuse

  /* ---------- rising names ---------- */

  /** A name above every pointer and every snapshot under way is not in use: rising requests are always allowed. */
  lemma RisingNames(c: Codec, s: Store, through: nat)
    requires Tidy(c, s)
    requires forall k :: k in s.log && IsPointer(s.log[k]) ==> k < through
    requires forall r :: r in s.pending ==> r.through < through
    ensures !InUse(c, s, PathOf(s.dir, through))
  {
    var p := PathOf(s.dir, through);
    forall k | k in s.log && IsPointer(s.log[k]) ensures !Leads(c, s.files, s.log[k].payload.path, p) {
      if Readable(c, s.files, PathOf(s.dir, k)) {
        ReachesBelow(c, s.files, Contents(c, s.files, PathOf(s.dir, k)), k, p);
      }
    }
    forall r | r in s.pending ensures !Reaches(c, s.files, Captured(c, r), r.through, p) {
      ReachesBelow(c, s.files, Captured(c, r), r.through, p);
    }
  }

  /** The index is above every pointer and every snapshot under way. */
  predicate IsAbove(s: Store, n: nat) {
    && (forall k :: k in s.log && IsPointer(s.log[k]) ==> k < n)
    && (forall r :: r in s.pending ==> r.through < n)
  }

  /**
   What a caller can do who only moves upwards: write, ask for snapshots and
   receive files above everything compacted or being compacted, and install above
   that with nothing under way.
   */
  ghost predicate Upward(c: Codec, s: Store, ev: Event) {
    match ev
    case Appended(e) => !IsPointer(e) && IsAbove(s, e.index)
    case Replicated(es) => forall e :: e in es ==> !IsPointer(e) && IsAbove(s, e.index)
    case Requested(through) => c.encode(Range(s.log, 0, through + 1)).Some? && IsAbove(s, through)
    case Refused(through) => c.encode(Range(s.log, 0, through + 1)).None?
    case FileWritten => true
    case FileFailed(_) => true
    case Completed(_) => true
    case Received(index, _) => IsAbove(s, index)
    case Installed(index, _, told) => InstallAllowed(c, s, index, told) && s.pending == [] && IsAbove(s, index)
  }

  ghost predicate AllUpward(c: Codec, s: Store, evs: seq<Event>)
    decreases |evs|
  {
    evs == [] || (Upward(c, s, evs[0]) && AllUpward(c, SnapshotHistory.Step(c, s, evs[0]), evs[1..]))
  }

  lemma UpwardAllowed(c: Codec, s: Store, ev: Event)
    requires Tidy(c, s) && Upward(c, s, ev)
    ensures Allowed(c, s, ev)
  {
    match ev
    case Requested(through) => RisingNames(c, s, through);
    case Received(index, _) => RisingNames(c, s, index);
    case _ =>
  }

  lemma UpwardCareful(c: Codec, s: Store, ev: Event)
    requires Upward(c, s, ev)
    ensures Careful(ImageOf(c, s), ev)
  {
    var im := ImageOf(c, s);
    assert forall q :: q in im.queue ==> exists r :: r in s.pending && q == CaptureOf(c, s.files, r);
    match ev
    case Installed(index, _, told) =>
      assert Above(im.layers, index) == map[];
      forall i: nat ensures FromLayers(Above(im.layers, index), i).None? {
        LayersKnow(Above(im.layers, index), i);
      }
    case _ =>
  }

  lemma {:induction false} UpwardRun(c: Codec, s: Store, evs: seq<Event>)
    requires Sound(c) && Tidy(c, s) && AllUpward(c, s, evs)
    ensures AllAllowed(c, s, evs) && AllCareful(ImageOf(c, s), evs)
    decreases |evs|
  {
    if evs != [] {
      UpwardAllowed(c, s, evs[0]);
      UpwardCareful(c, s, evs[0]);
      StepSimulates(c, s, evs[0]);
      UpwardRun(c, SnapshotHistory.Step(c, s, evs[0]), evs[1..]);
    }
  }

  /** So whoever only moves upwards, from a fresh engine, loses nothing. */
  lemma UpwardConserves(c: Codec, s: Store, evs: seq<Event>)
    requires Sound(c) && Fresh(s) && AllUpward(c, s, evs)
    ensures Conserves(c, SnapshotHistory.Run(c, s, evs), LatestWrites(map[], evs))
  {
    FreshInv(c, s);
    UpwardRun(c, s, evs);
    HistoryConserved(c, s, evs);
  }

  /* ---------- writing at a pointer ---------- */

  /**
   A write at the key of a pointer keeps the history exactly when everything
   else that is not in the live log can be read behind the other pointers; with
   no other pointer, when everything else is in the live log.
   */
  lemma WriteOverPointer(c: Codec, s: Store, hist: Log, e: LogEntry)
    requires Conserves(c, s, hist) && !IsPointer(e) && e.index in s.log && IsPointer(s.log[e.index])
    ensures Conserves(c, Append(s, e), hist[e.index := e]) <==>
            forall i :: i in hist && i != e.index && i !in Live(s.log) ==>
                          FromLayers(Layers(c, s.files, s.log) - {e.index}, i) == Get(hist, i)
    ensures (forall k :: k in s.log && IsPointer(s.log[k]) ==> k == e.index) ==>
              (Conserves(c, Append(s, e), hist[e.index := e]) <==>
               forall i :: i in hist && i != e.index ==> i in s.log)
  {
    var im, hist' := ImageOf(c, s), hist[e.index := e];
    var rest := im.layers - {e.index};
    AppendImage(c, s, e);
    forall i: nat
      ensures Recover(c, Append(s, e), i) == Get(hist', i) <==>
              (i in hist && i != e.index && i !in im.live ==> FromLayers(rest, i) == Get(hist, i))
      ensures rest == map[] ==> FromLayers(rest, i).None?
    {
      assert Recover(c, s, i) == Get(hist, i);
      OverPointerReads(im, hist, e, i);
    }
    assert (forall k :: k in s.log && IsPointer(s.log[k]) ==> k == e.index) ==> rest == map[];
  }

  lemma OverPointerReads(im: Image, hist: Log, e: LogEntry, i: nat)
    requires Read(im, i) == Get(hist, i)
    ensures var rest := im.layers - {e.index};
            && (Read(Write(im, e), i) == Get(hist[e.index := e], i) <==>
                (i in hist && i != e.index && i !in im.live ==> FromLayers(rest, i) == Get(hist, i)))
            && (rest == map[] ==> FromLayers(rest, i).None?)
  {
    LayersKnow(im.layers, i);
    LayersKnow(im.layers - {e.index}, i);
  }

  /* ---------- between a request and its completion ---------- */

  /** The place in the queue of the snapshot at place n after a message; None once it is finished. */
  function Moved(s: Store, ev: Event, n: nat): Option<nat> {
    match ev
    case Completed(k) =>
      if k >= |s.pending| || !s.pending[k].written || n < k then Some(n)
      else if n == k then None else Some(n - 1)
    case FileFailed(_) =>
      var k := NextUnwritten(s.pending);
      if k == |s.pending| || n < k then Some(n) else if n == k then None else Some(n - 1)
    case _ => Some(n)
  }

  function Place(c: Codec, s: Store, evs: seq<Event>, n: nat): Option<nat>
    decreases |evs|
  {
    if evs == [] then Some(n)
    else match Moved(s, evs[0], n)
      case None => None
      case Some(m) => Place(c, SnapshotHistory.Step(c, s, evs[0]), evs[1..], m)
  }

  /** The same request, and its capture tells the same. */
  predicate SameCapture(c: Codec, s: Store, r: Request, s': Store, r': Request) {
    && r'.(written := true) == r.(written := true)
    && Told(c, s'.files, Captured(c, r), r.through) == Told(c, s.files, Captured(c, r), r.through)
  }

  lemma CaptureStays(c: Codec, s: Store, r: Request, p: SnapshotPath, data: seq<byte>)
    requires r in s.pending && !InUse(c, s, p)
    ensures Told(c, s.files[p := data], Captured(c, r), r.through) == Told(c, s.files, Captured(c, r), r.through)
  {
    assert s.files[p := data] - {p} == s.files - {p};
    ToldFrame(c, s.files, s.files[p := data], Captured(c, r), r.through, p);
  }

  lemma WrittenStays(c: Codec, s: Store, n: nat)
    requires Tidy(c, s) && n < |s.pending|
    ensures var s' := WriteSnapshotFile(s);
            n < |s'.pending| && SameCapture(c, s, s.pending[n], s', s'.pending[n])
  {
    var k := NextUnwritten(s.pending);
    if k < |s.pending| {
      assert s.pending[k] in s.pending && s.pending[n] in s.pending;
      CaptureStays(c, s, s.pending[n], PathOf(s.dir, s.pending[k].through), s.pending[k].data);
    }
  }

  lemma FailedStays(c: Codec, s: Store, left: Option<seq<byte>>, n: nat)
    requires Tidy(c, s) && n < |s.pending| && Moved(s, FileFailed(left), n).Some?
    ensures var m, s' := Moved(s, FileFailed(left), n).value, FailSnapshotFile(s, left);
            m < |s'.pending| && SameCapture(c, s, s.pending[n], s', s'.pending[m])
  {
    var k := NextUnwritten(s.pending);
    if k < |s.pending| {
      LeftBehind(s.pending, k, n);
      FailedCaptures(c, s, left, k, n);
    }
  }

  lemma FailedCaptures(c: Codec, s: Store, left: Option<seq<byte>>, k: nat, n: nat)
    requires Tidy(c, s) && k < |s.pending| && !s.pending[k].written && n < |s.pending|
    ensures var r, files := s.pending[n], Failed(s.files, PathOf(s.dir, s.pending[k].through), left);
            Told(c, files, Captured(c, r), r.through) == Told(c, s.files, Captured(c, r), r.through)
  {
    assert s.pending[k] in s.pending && s.pending[n] in s.pending;
    if left.Some? {
      CaptureStays(c, s, s.pending[n], PathOf(s.dir, s.pending[k].through), left.value);
    }
  }

  lemma LeftBehind(pending: seq<Request>, k: nat, n: nat)
    requires k < |pending| && n < |pending| && n != k
    ensures var rest, m := Without(pending, k), if n < k then n else n - 1;
            m < |rest| && rest[m] == pending[n]
  {
  }

  lemma StepStays(c: Codec, s: Store, ev: Event, n: nat)
    requires Tidy(c, s) && Allowed(c, s, ev) && n < |s.pending| && Moved(s, ev, n).Some?
    ensures var m, s' := Moved(s, ev, n).value, SnapshotHistory.Step(c, s, ev);
            m < |s'.pending| && SameCapture(c, s, s.pending[n], s', s'.pending[m])
  {
    match ev
    case FileWritten => WrittenStays(c, s, n);
    case FileFailed(left) => FailedStays(c, s, left, n);
    case Completed(k) =>
      if k < |s.pending| && n != k {
        LeftBehind(s.pending, k, n);
      }
    case Received(index, stream) => CaptureStays(c, s, s.pending[n], PathOf(s.dir, index), Reassembled(stream));
    case _ =>
  }

  lemma {:induction false} RunStays(c: Codec, s: Store, evs: seq<Event>, n: nat)
    requires Sound(c) && Tidy(c, s) && AllAllowed(c, s, evs) && n < |s.pending| && Place(c, s, evs, n).Some?
    ensures var m, s' := Place(c, s, evs, n).value, SnapshotHistory.Run(c, s, evs);
            m < |s'.pending| && SameCapture(c, s, s.pending[n], s', s'.pending[m])
    decreases |evs|
  {
    if evs != [] {
      StepSimulates(c, s, evs[0]);
      StepStays(c, s, evs[0], n);
      var s', m := SnapshotHistory.Step(c, s, evs[0]), Moved(s, evs[0], n).value;
      assert Captured(c, s'.pending[m]) == Captured(c, s.pending[n]);
      RunStays(c, s', evs[1..], m);
    }
  }

  lemma ImageBounded(c: Codec, s: Store)
    requires WellKeyed(s.log, s.dir)
    ensures Bounded(ImageOf(c, s))
  {
  }

  /** The request made in s is now at place k in the queue and is served, after these messages. */
  ghost predicate AboutToLand(c: Codec, s: Store, through: nat, evs: seq<Event>, k: nat) {
    var asked := RequestSnapshot(c, s, through);
    && Tidy(c, s) && Allowed(c, s, Requested(through)) && AllAllowed(c, asked, evs)
    && Place(c, asked, evs, |s.pending|) == Some(k)
    && var end := SnapshotHistory.Run(c, asked, evs);
       k < |end.pending| && end.pending[k].written
  }

  /** The request there, and what its capture tells. */
  lemma StillThatRequest(c: Codec, s: Store, through: nat, evs: seq<Event>, k: nat)
    requires Sound(c) && AboutToLand(c, s, through, evs, k)
    ensures var asked := RequestSnapshot(c, s, through);
            var end := SnapshotHistory.Run(c, asked, evs);
            && Tidy(c, end)
            && end.pending[k] == asked.pending[|s.pending|].(written := true)
            && ImageOf(c, end).queue[k] == Capture(through, Flat(ImageOf(c, s), through), true)
  {
    var asked := RequestSnapshot(c, s, through);
    RequestSimulates(c, s, through);
    assert ImageOf(c, asked).queue[|s.pending|].table == Flat(ImageOf(c, s), through);
    RunSimulates(c, asked, evs);
    RunStays(c, asked, evs, |s.pending|);
  }

  /**
   Whatever happened since it was asked for (writes, other snapshots,
   installations), a snapshot that completes puts every index up to its own back
   to what was captured; only what was not captured is left to higher pointers.
   */
  lemma SnapshotRestores(c: Codec, s: Store, through: nat, evs: seq<Event>, k: nat, i: nat)
    requires Sound(c) && AboutToLand(c, s, through, evs, k)
    ensures var end := SnapshotHistory.Run(c, RequestSnapshot(c, s, through), evs);
            Recover(c, CompleteSnapshot(end, k), i) ==
            if i <= through then
              OrElse(ReadUpTo(ImageOf(c, s), through, i), FromLayers(Above(Layers(c, end.files, end.log), through), i))
            else Recover(c, end, i)
  {
    var end := SnapshotHistory.Run(c, RequestSnapshot(c, s, through), evs);
    StillThatRequest(c, s, through, evs, k);
    CompletedSimulates(c, end, k);
    ImageBounded(c, end);
    PutLayerReads(ImageOf(c, end), through, Flat(ImageOf(c, s), through), i);
  }

  /**
   So a write made after the request, at an index it captures, survives the
   completion exactly when it repeats what was captured, or nothing was and a
   higher pointer says the same. Without higher pointers: when it repeats what
   could be read at the time of the request.
   */
  lemma WriteDuringSnapshot(
    c: Codec, s: Store, through: nat, before: seq<Event>, e: LogEntry, after: seq<Event>, k: nat)
    requires Sound(c) && AboutToLand(c, s, through, before + [Appended(e)] + after, k) && e.index <= through
    ensures var end := SnapshotHistory.Run(c, RequestSnapshot(c, s, through), before + [Appended(e)] + after);
            var survives := Recover(c, CompleteSnapshot(end, k), e.index) == Some(e);
            && (survives <==>
                OrElse(ReadUpTo(ImageOf(c, s), through, e.index),
                       FromLayers(Above(Layers(c, end.files, end.log), through), e.index)) == Some(e))
            && ((forall k :: k in s.log && IsPointer(s.log[k]) ==> k <= through) &&
                (forall k :: k in end.log && IsPointer(end.log[k]) ==> k <= through) ==>
                  (survives <==> Recover(c, s, e.index) == Some(e)))
  {
    var evs := before + [Appended(e)] + after;
    var end := SnapshotHistory.Run(c, RequestSnapshot(c, s, through), evs);
    SnapshotRestores(c, s, through, evs, k, e.index);
    if forall k :: k in end.log && IsPointer(end.log[k]) ==> k <= through {
      LayersKnow(Above(Layers(c, end.files, end.log), through), e.index);
    }
    if forall k :: k in s.log && IsPointer(s.log[k]) ==> k <= through {
      assert UpTo(ImageOf(c, s).layers, through) == ImageOf(c, s).layers;
    }
  }

  /* ---------- a snapshot that completes after an installation ---------- */

  lemma PutLayerBounded(im: Image, index: nat, told: Log)
    requires Bounded(im) && forall j :: j in told ==> j <= index
    ensures Bounded(PutLayer(im, index, told))
  {
  }

  lemma AboveInstalled(im: Image, hist: Log, index: nat, told: Log, q: Capture, i: nat)
    requires WillTell(im.layers, q, hist) && index < i && i <= q.through
    ensures ReadBehind(PutLayer(im, index, told).layers, q.table, q.through, i) == Get(hist, i)
  {
    assert Above(PutLayer(im, index, told).layers, q.through) == Above(im.layers, q.through);
    assert ReadBehind(im.layers, q.table, q.through, i) == Get(hist, i);
  }

  lemma InstalledReads(im: Image, hist: Log, index: nat, told: Log, i: nat)
    requires Bounded(im) && Tells(im, hist) && (forall j :: j in told ==> j <= index)
    requires i <= index && i !in told ==> FromLayers(Above(im.layers, index), i).None?
    ensures Read(PutLayer(im, index, told), i) == Get(Merged(told, hist, index), i)
  {
    PutLayerReads(im, index, told, i);
    assert Read(im, i) == Get(hist, i);
  }

  lemma LateReads(im: Image, hist: Log, index: nat, told: Log, q: Capture, i: nat)
    requires Inv(im, hist) && q in im.queue && (forall j :: j in told ==> j <= index)
    requires i <= index && i !in told ==> FromLayers(Above(im.layers, index), i).None?
    ensures var installed := PutLayer(im, index, told);
            Read(PutLayer(installed, q.through, q.table), i) ==
            if i <= index && i <= q.through then ReadBehind(installed.layers, q.table, q.through, i)
            else Get(Merged(told, hist, index), i)
  {
    PutLayerBounded(im, index, told);
    PutLayerReads(PutLayer(im, index, told), q.through, q.table, i);
    InstalledReads(im, hist, index, told, i);
    if index < i && i <= q.through {
      AboveInstalled(im, hist, index, told, q, i);
    }
  }

  lemma LateImage(im: Image, hist: Log, index: nat, told: Log, q: Capture)
    requires Inv(im, hist) && q in im.queue && (forall j :: j in told ==> j <= index)
    requires forall i: nat :: i <= index && i !in told ==> FromLayers(Above(im.layers, index), i).None?
    ensures Tells(PutLayer(PutLayer(im, index, told), q.through, q.table), Merged(told, hist, index)) <==>
            Consistent(im, index, told, q)
  {
    var end, hist' := PutLayer(PutLayer(im, index, told), q.through, q.table), Merged(told, hist, index);
    forall i: nat
      ensures Read(end, i) ==
              if i <= index && i <= q.through
              then ReadBehind(PutLayer(im, index, told).layers, q.table, q.through, i) else Get(hist', i)
      ensures i <= index ==> Get(hist', i) == Get(told, i)
    {
      LateReads(im, hist, index, told, q, i);
    }
    if Tells(end, hist') {
      forall i: nat | i <= index && i <= q.through
        ensures ReadBehind(PutLayer(im, index, told).layers, q.table, q.through, i) == Get(told, i)
      {
        assert Read(end, i) == Get(hist', i);
      }
    }
  }

  /** For a snapshot of a lower index that means that the installed one says all that its capture says. */
  lemma ConsistentPlainly(im: Image, index: nat, told: Log, q: Capture)
    requires q.through < index && (forall i :: i in q.table ==> i <= q.through)
    requires forall i: nat :: i <= index && i !in told ==> FromLayers(Above(im.layers, index), i).None?
    ensures Consistent(im, index, told, q) <==> forall i :: i in q.table ==> Get(told, i) == Some(q.table[i])
  {
    var layers' := PutLayer(im, index, told).layers;
    assert Above(layers', q.through) == layers';
    forall i: nat | i <= q.through
      ensures ReadBehind(layers', q.table, q.through, i) == OrElse(Get(q.table, i), Get(told, i))
    {
      BottomLayer(im.layers, index, told, i);
    }
    if Consistent(im, index, told, q) {
      forall i | i in q.table ensures Get(told, i) == Some(q.table[i]) {
        assert ReadBehind(layers', q.table, q.through, i) == Get(told, i);
      }
    }
  }

  /**
   An own snapshot of a lower index that completes after an installation keeps
   the installed history exactly when its capture agrees with it, that is, when
   the installed snapshot says all that the capture says; the metadata goes back
   to the older snapshot, and the log holds both pointers.
   */
  lemma LateCompletion(c: Codec, s: Store, hist: Log, index: nat, term: nat, told: Log, k: nat)
    requires Tidy(c, s) && Inv(ImageOf(c, s), hist) && InstallAllowed(c, s, index, told)
    requires forall i: nat :: i <= index && i !in told ==> FromLayers(Above(ImageOf(c, s).layers, index), i).None?
    requires k < |s.pending| && s.pending[k].written
    ensures var r := s.pending[k];
            var end := CompleteSnapshot(FinishInstall(s, index, term, PathOf(s.dir, index)), k);
            && (Conserves(c, end, Merged(told, hist, index)) <==>
                Consistent(ImageOf(c, s), index, told, ImageOf(c, s).queue[k]))
            && end.snapshot == Some(CurrentSnapshot(r.term, r.index, s.hs.membership, PathOf(s.dir, r.through)))
            && (r.through < index ==>
                  && (var captured := Told(c, s.files, Captured(c, r), r.through);
                      Conserves(c, end, Merged(told, hist, index)) <==>
                      forall i :: i in captured ==> Get(told, i) == Some(captured[i]))
                  && r.through in end.log && IsPointer(end.log[r.through])
                  && index in end.log && IsPointer(end.log[index]))
  {
    var im := ImageOf(c, s);
    var installed := FinishInstall(s, index, term, PathOf(s.dir, index));
    InstalledSimulates(c, s, index, term, told);
    CompletedSimulates(c, installed, k);
    var q := im.queue[k];
    LateImage(im, hist, index, told, q);
    if q.through < index {
      ConsistentPlainly(im, index, told, q);
    }
    var image := ImageOf(c, CompleteSnapshot(installed, k));
    var put := PutLayer(PutLayer(im, index, told), q.through, q.table);
    assert image.live == put.live && image.layers == put.layers;
    assert forall i: nat :: Recover(c, CompleteSnapshot(installed, k), i) == Read(put, i);
  }
}
