/**
 Snapshots and receptions that use the name of a file that is in use: exactly
 what is lost, and runs in which something is.
 */
module NameReuse {
  import opened Wrappers
  import opened RaftMessages
  import opened StorageSpec
  import opened ChunkFile
  import opened LayeredLog
  import opened SnapshotHistory
  import opened FileReuse
  import SnapshotLimits

  /* ---------- finishing all snapshots under way ---------- */

  function WriteN(s: Store, n: nat): Store
    decreases n
  {
    if n == 0 then s else WriteN(WriteSnapshotFile(s), n - 1)
  }

  function CompleteN(s: Store, n: nat): Store
    decreases n
  {
    if n == 0 then s else CompleteN(CompleteSnapshot(s, 0), n - 1)
  }

  /** The snapshot actor writes every file it was asked for, and every snapshot is completed. */
  function Drain(s: Store): Store {
    CompleteN(WriteN(s, |s.pending|), |s.pending|)
  }

  function Unserved(pending: seq<Request>): nat {
    if pending == [] then 0 else (if pending[0].written then 0 else 1) + Unserved(pending[1..])
  }

  function WithRequest(s: Store, r: Request): Store {
    s.(pending := s.pending + [r])
  }

  lemma {:induction false} UnservedNext(pending: seq<Request>)
    ensures Unserved(pending) == 0 <==> NextUnwritten(pending) == |pending|
    ensures Unserved(pending) <= |pending|
  {
    if pending != [] {
      UnservedNext(pending[1..]);
    }
  }

  lemma {:induction false} ServedOne(pending: seq<Request>)
    requires NextUnwritten(pending) < |pending|
    ensures var k := NextUnwritten(pending);
            Unserved(pending[k := pending[k].(written := true)]) == Unserved(pending) - 1
  {
    var k := NextUnwritten(pending);
    var served := pending[k := pending[k].(written := true)];
    if pending[0].written {
      ServedOne(pending[1..]);
      assert served[1..] == pending[1..][k - 1 := pending[k].(written := true)];
    } else {
      assert served[1..] == pending[1..];
    }
  }

  lemma {:induction false} NextAppend(pending: seq<Request>, r: Request)
    requires !r.written
    ensures NextUnwritten(pending + [r]) == NextUnwritten(pending)
  {
    if pending != [] && pending[0].written {
      assert (pending + [r])[1..] == pending[1..] + [r];
      NextAppend(pending[1..], r);
    }
  }

  lemma {:induction false} UnservedAppend(pending: seq<Request>, r: Request)
    ensures Unserved(pending + [r]) == Unserved(pending) + Unserved([r])
  {
    if pending == [] {
      assert pending + [r] == [r];
    } else {
      assert (pending + [r])[1..] == pending[1..] + [r];
      UnservedAppend(pending[1..], r);
    }
  }

  lemma {:induction false} WriteIdle(s: Store, n: nat)
    requires Unserved(s.pending) == 0
    ensures WriteN(s, n) == s
    decreases n
  {
    UnservedNext(s.pending);
    if n > 0 {
      WriteIdle(s, n - 1);
    }
  }

  lemma WriteLast(s: Store, r: Request)
    requires !r.written && Unserved(s.pending) == 0
    ensures WriteSnapshotFile(WithRequest(s, r)) ==
            WithRequest(s.(files := s.files[PathOf(s.dir, r.through) := r.data]), r.(written := true))
    ensures Unserved(s.pending + [r.(written := true)]) == 0
  {
    NextAppend(s.pending, r);
    UnservedNext(s.pending);
    UnservedAppend(s.pending, r.(written := true));
    assert WriteSnapshotFile(WithRequest(s, r)).pending == s.pending + [r.(written := true)];
  }

  lemma WriteEarlier(s: Store, r: Request)
    requires !r.written && Unserved(s.pending) > 0
    ensures WriteSnapshotFile(WithRequest(s, r)) == WithRequest(WriteSnapshotFile(s), r)
    ensures Unserved(WriteSnapshotFile(s).pending) == Unserved(s.pending) - 1
  {
    NextAppend(s.pending, r);
    UnservedNext(s.pending);
    ServedOne(s.pending);
    assert WriteSnapshotFile(WithRequest(s, r)).pending == WithRequest(WriteSnapshotFile(s), r).pending;
  }

  /** A request made last is written last. */
  lemma {:induction false} WriteAppend(s: Store, r: Request, n: nat)
    requires !r.written && Unserved(s.pending) <= n
    ensures WriteN(WithRequest(s, r), n + 1) ==
            var w := WriteN(s, n);
            WithRequest(w.(files := w.files[PathOf(w.dir, r.through) := r.data]), r.(written := true))
    decreases n
  {
    if Unserved(s.pending) == 0 {
      WriteLast(s, r);
      WriteIdle(WriteSnapshotFile(WithRequest(s, r)), n);
      WriteIdle(s, n);
    } else {
      WriteEarlier(s, r);
      WriteAppend(WriteSnapshotFile(s), r, n - 1);
    }
  }

  lemma {:induction false} WriteAll(s: Store, n: nat)
    requires Unserved(s.pending) <= n
    ensures var w := WriteN(s, n);
            && Unserved(w.pending) == 0 && |w.pending| == |s.pending|
            && w == s.(files := w.files, pending := w.pending)
    decreases n
  {
    UnservedNext(s.pending);
    if n > 0 {
      if Unserved(s.pending) > 0 {
        ServedOne(s.pending);
      }
      WriteAll(WriteSnapshotFile(s), n - 1);
    }
  }

  lemma {:induction false} CompleteAll(s: Store, n: nat)
    requires Unserved(s.pending) == 0 && n == |s.pending|
    ensures CompleteN(s, n).pending == [] && CompleteN(s, n).files == s.files && CompleteN(s, n).dir == s.dir
    decreases n
  {
    if n > 0 {
      CompleteAll(CompleteSnapshot(s, 0), n - 1);
    }
  }

  /** A request made last is completed last. */
  lemma {:induction false} CompleteAppend(s: Store, r: Request, files: Files, n: nat)
    requires Unserved(s.pending) == 0 && r.written && n == |s.pending|
    ensures CompleteN(WithRequest(s.(files := files), r), n + 1) ==
            CompleteSnapshot(WithRequest(CompleteN(s, n).(files := files), r), 0)
    decreases n
  {
    if n > 0 {
      var s' := CompleteSnapshot(WithRequest(s.(files := files), r), 0);
      assert s'.pending == s.pending[1..] + [r];
      assert s' == WithRequest(CompleteSnapshot(s, 0).(files := files), r);
      CompleteAppend(CompleteSnapshot(s, 0), r, files, n - 1);
    }
  }

  lemma DrainDir(s: Store)
    ensures Drain(s).pending == [] && Drain(s).dir == s.dir
  {
    UnservedNext(s.pending);
    WriteAll(s, |s.pending|);
    CompleteAll(WriteN(s, |s.pending|), |s.pending|);
  }

  lemma DrainAppend(s: Store, r: Request)
    requires !r.written
    ensures Drain(s).pending == [] && Drain(s).dir == s.dir
    ensures Drain(WithRequest(s, r)) ==
            var d := Drain(s);
            CompleteSnapshot(
              d.(files := d.files[PathOf(s.dir, r.through) := r.data], pending := [r.(written := true)]), 0)
  {
    var n := |s.pending|;
    UnservedNext(s.pending);
    WriteAppend(s, r, n);
    WriteAll(s, n);
    var w := WriteN(s, n);
    CompleteAll(w, n);
    CompleteAppend(w, r.(written := true), w.files[PathOf(s.dir, r.through) := r.data], n);
  }

  /* ---------- a request for any name ---------- */

  /** What the capture says by itself. */
  function CaptureSays(c: Codec, s: Store, through: nat, i: nat): Option<LogEntry> {
    if i <= through then Lookup(c, s.files, Range(s.log, 0, through + 1), through, i) else None
  }

  /** What the log keeps above the index, without the file of that name. */
  function Remaining(s: Store, through: nat): Store {
    s.(log := SplitOff(s.log, through + 1), files := s.files - {PathOf(s.dir, through)})
  }

  lemma WriteFrameStep(c: Codec, s: Store, through: nat, i: nat)
    requires Tidy(c, s)
    ensures Behind(c, WriteSnapshotFile(s).files, Range(s.log, 0, through + 1), through, i) ==
            Behind(c, s.files, Range(s.log, 0, through + 1), through, i)
  {
    var k := NextUnwritten(s.pending);
    if k < |s.pending| {
      var p := PathOf(s.dir, s.pending[k].through);
      assert s.pending[k] in s.pending && !InUse(c, s, p);
      RangeReaches(c, s.files, s.log, through + 1, through, p);
      assert s.files[p := s.pending[k].data] - {p} == s.files - {p};
      BehindFrame(c, s.files, WriteSnapshotFile(s).files, Range(s.log, 0, through + 1), through, p);
    }
  }

  lemma {:induction false} WriteFrame(c: Codec, s: Store, n: nat, through: nat, i: nat)
    requires Tidy(c, s)
    ensures Behind(c, WriteN(s, n).files, Range(s.log, 0, through + 1), through, i) ==
            Behind(c, s.files, Range(s.log, 0, through + 1), through, i)
    decreases n
  {
    if n > 0 {
      FileWrittenSimulates(c, s);
      WriteFrameStep(c, s, through, i);
      WriteFrame(c, WriteSnapshotFile(s), n - 1, through, i);
    }
  }

  /** The file of the new snapshot answers what its capture said when it was taken. */
  lemma CaptureAnswers(c: Codec, s: Store, through: nat, data: seq<byte>, i: nat)
    requires Sound(c) && Tidy(c, s) && c.encode(Range(s.log, 0, through + 1)) == Some(data)
    ensures Answer(c, Drain(s).files, PathOf(s.dir, through), data, i) == CaptureSays(c, s, through, i)
  {
    var es, p := Range(s.log, 0, through + 1), PathOf(s.dir, through);
    UnservedNext(s.pending);
    WriteAll(s, |s.pending|);
    CompleteAll(WriteN(s, |s.pending|), |s.pending|);
    var f := Drain(s).files;
    WriteFrame(c, s, |s.pending|, through, i);
    ReachesBelow(c, f, es, through, p);
    assert (f - {p}) - {p} == f - {p};
    BehindFrame(c, f, f - {p}, es, through, p);
  }

  /**
   Whatever the name and whatever is under way: once all is finished, an index
   is read from the capture, and failing that from what the log keeps above the
   index, without the old file of that name.
   */
  lemma RequestOutcome(c: Codec, s: Store, through: nat, i: nat)
    requires Sound(c) && Tidy(c, s) && c.encode(Range(s.log, 0, through + 1)).Some?
    ensures Recover(c, Drain(RequestSnapshot(c, s, through)), i) ==
            OrElse(CaptureSays(c, s, through, i), Recover(c, Remaining(Drain(s), through), i))
  {
    var data := c.encode(Range(s.log, 0, through + 1)).value;
    DrainedImage(c, s, through, data);
    CaptureAnswers(c, s, through, data, i);
    DrainDir(s);
    LandedReads(c, Drain(s), through, data, ImageOf(c, Drain(RequestSnapshot(c, s, through))), i);
  }

  /** This image is what the log of d keeps above an index, on top of a layer with these bytes. */
  ghost predicate Landed(c: Codec, d: Store, through: nat, data: seq<byte>, im: Image) {
    var p, log := PathOf(d.dir, through), SplitOff(d.log, through + 1);
    && im.live == Live(log)
    && im.layers == Layers(c, d.files[p := data], log)[through := Layer(c, d.files[p := data], p)]
  }

  /** The image once the snapshots under way and the new one are finished. */
  lemma DrainedImage(c: Codec, s: Store, through: nat, data: seq<byte>)
    requires c.encode(Range(s.log, 0, through + 1)) == Some(data)
    ensures Landed(c, Drain(s), through, data, ImageOf(c, Drain(RequestSnapshot(c, s, through))))
  {
    var asked := RequestSnapshot(c, s, through);
    var r := asked.pending[|s.pending|];
    assert asked == WithRequest(s, r);
    DrainAppend(s, r);
    LandedImage(c, Drain(s), r.(written := true));
  }

  lemma LandedImage(c: Codec, d: Store, r: Request)
    requires r.written
    ensures var landing := d.(files := d.files[PathOf(d.dir, r.through) := r.data], pending := [r]);
            Landed(c, d, r.through, r.data, ImageOf(c, CompleteSnapshot(landing, 0)))
  {
    var landing := d.(files := d.files[PathOf(d.dir, r.through) := r.data], pending := [r]);
    CompletedImage(c, landing, r);
    CutIsLanded(c, d, r.through, r.data, ImageOf(c, CompleteSnapshot(landing, 0)));
  }

  lemma CutIsLanded(c: Codec, d: Store, through: nat, data: seq<byte>, im: Image)
    requires im.live == Above(Live(d.log), through)
    requires var p := PathOf(d.dir, through);
             im.layers == Above(Layers(c, d.files[p := data], d.log), through)[
                            through := Layer(c, d.files[p := data], p)]
    ensures Landed(c, d, through, data, im)
  {
    CutParts(c, d.files[PathOf(d.dir, through) := data], d.log, through);
  }

  /** What a log keeps above an index. */
  lemma CutParts(c: Codec, f: Files, log: Log, t: nat)
    ensures Above(Layers(c, f, log), t) == Layers(c, f, SplitOff(log, t + 1))
    ensures Above(Live(log), t) == Live(SplitOff(log, t + 1))
  {
  }

  lemma CompletedImage(c: Codec, s: Store, r: Request)
    requires s.pending == [r] && r.written
    ensures var im := ImageOf(c, CompleteSnapshot(s, 0));
            && im.live == Above(Live(s.log), r.through)
            && im.layers == Above(Layers(c, s.files, s.log), r.through)[
                              r.through := Layer(c, s.files, PathOf(s.dir, r.through))]
  {
    CompletedIsCut(c, s, 0);
    PointerImage(c, Taken(s, 0), r.through, r.index, r.term);
  }

  lemma RestUnasked(c: Codec, d: Store, through: nat, data: seq<byte>, i: nat)
    requires Answer(c, d.files, PathOf(d.dir, through), data, i).None?
    ensures var p, log := PathOf(d.dir, through), SplitOff(d.log, through + 1);
            FromLayers(Layers(c, d.files[p := data], log), i) == FromLayers(Layers(c, d.files - {p}, log), i)
  {
    var p, rest := PathOf(d.dir, through), d.(log := SplitOff(d.log, through + 1));
    LayersReplaced(c, rest, p, data, i);
    AnsweredUnasked(
      Layers(c, d.files - {p}, rest.log), Layers(c, d.files[p := data], rest.log), AskedKeys(c, rest, p, i), None, i);
  }

  lemma LandedRead(live: Log, layers: map<nat, Log>, rest: map<nat, Log>, table: Log, t: nat, i: nat)
    requires Above(layers, t) == layers && Above(live, t) == live && (forall j :: j in table ==> j <= t)
    requires i !in table ==> FromLayers(layers, i) == FromLayers(rest, i)
    ensures Read(Image(live, layers[t := table], []), i) == OrElse(Get(table, i), Read(Image(live, rest, []), i))
  {
    BottomLayer(layers, t, table, i);
    assert i in live ==> i in Above(live, t);
  }

  lemma PartsAbove(c: Codec, f: Files, log: Log, t: nat)
    ensures Above(Layers(c, f, SplitOff(log, t + 1)), t) == Layers(c, f, SplitOff(log, t + 1))
    ensures Above(Live(SplitOff(log, t + 1)), t) == Live(SplitOff(log, t + 1))
  {
  }

  lemma AnswerIsLayer(c: Codec, files: Files, p: SnapshotPath, data: seq<byte>, i: nat)
    ensures Get(Layer(c, files[p := data], p), i) == Answer(c, files, p, data, i)
  {
    AnswerIsRead(c, files, p, data, i);
  }

  /** What is read once the new layer stands below what the log kept. */
  lemma LandedReads(c: Codec, d: Store, through: nat, data: seq<byte>, im: Image, i: nat)
    requires Landed(c, d, through, data, im)
    ensures Read(im, i) ==
            OrElse(Answer(c, d.files, PathOf(d.dir, through), data, i), Recover(c, Remaining(d, through), i))
  {
    var p, log := PathOf(d.dir, through), SplitOff(d.log, through + 1);
    var live, layers := Live(log), Layers(c, d.files[p := data], log);
    var rest, table := Layers(c, d.files - {p}, log), Layer(c, d.files[p := data], p);
    AnswerIsLayer(c, d.files, p, data, i);
    PartsAbove(c, d.files[p := data], d.log, through);
    if i !in table {
      RestUnasked(c, d, through, data, i);
    }
    LandedRead(live, layers, rest, table, through, i);
    SameRead(im, Image(live, layers[through := table], []), i);
    SameRead(ImageOf(c, Remaining(d, through)), Image(live, rest, []), i);
  }

  lemma SameRead(im: Image, im': Image, i: nat)
    requires im.live == im'.live && im.layers == im'.layers
    ensures Read(im, i) == Read(im', i)
  {
  }

  /** What a capture says is right in any case. */
  lemma CaptureIsRight(c: Codec, s: Store, through: nat, i: nat)
    requires WellKeyed(s.log, s.dir) && CaptureSays(c, s, through, i).Some?
    ensures CaptureSays(c, s, through, i) == Recover(c, s, i)
  {
    var layers := Layers(c, s.files, s.log);
    var es := Range(s.log, 0, through);
    RangeDirect(s.log, s.dir, through + 1, i);
    RangeBehind(c, s.files, s.log, through, through, i);
    if through in s.log {
      BehindAppend(c, s.files, es, s.log[through], through, i);
    } else {
      assert Range(s.log, 0, through + 1) == es;
    }
    assert Behind(c, s.files, Range(s.log, 0, through + 1), through, i) == FromLayers(Below(layers, through), i);
    LayersKnow(Below(layers, through), i);
    if k :| First(Below(layers, through), i, k) {
      LowestFirst(layers, through, i, k);
    }
  }

  lemma LowestFirst(layers: map<nat, Log>, n: nat, i: nat, k: nat)
    requires First(Below(layers, n), i, k)
    ensures FromLayers(layers, i) == Some(layers[k][i])
  {
    assert forall j :: j in layers && j < n ==> j in Below(layers, n) && Below(layers, n)[j] == layers[j];
    LayersKnow(layers, i);
    assert First(layers, i, k);
  }

  /**
   So a request, for a name in use or not, keeps the history exactly when each
   index that its capture does not know can be read, without the old file of
   that name, from what the log keeps above the index once all is finished.
   */
  lemma RequestConserves(c: Codec, s: Store, hist: Log, through: nat)
    requires Sound(c) && Tidy(c, s) && Conserves(c, s, hist)
    requires c.encode(Range(s.log, 0, through + 1)).Some?
    ensures Conserves(c, Drain(RequestSnapshot(c, s, through)), hist) <==>
            forall i: nat :: CaptureSays(c, s, through, i).None? ==>
                               Recover(c, Remaining(Drain(s), through), i) == Get(hist, i)
  {
    forall i: nat
      ensures Recover(c, Drain(RequestSnapshot(c, s, through)), i) ==
              OrElse(CaptureSays(c, s, through, i), Recover(c, Remaining(Drain(s), through), i))
      ensures CaptureSays(c, s, through, i).Some? ==> CaptureSays(c, s, through, i) == Get(hist, i)
    {
      RequestOutcome(c, s, through, i);
      assert Recover(c, s, i) == Get(hist, i);
      if CaptureSays(c, s, through, i).Some? {
        CaptureIsRight(c, s, through, i);
      }
    }
  }

  /** Ask for a snapshot and let it finish. */
  function TakeSnapshot(c: Codec, s: Store, through: nat): Store {
    Drain(RequestSnapshot(c, s, through))
  }

  lemma DrainIdle(s: Store)
    requires s.pending == []
    ensures Drain(s) == s
  {
  }

  ghost predicate OnePointer(log: Log, k: nat) {
    k in log && IsPointer(log[k]) && forall j :: j in log && IsPointer(log[j]) ==> j == k
  }

  lemma OneCaptureSays(c: Codec, s: Store, k: nat, through: nat, i: nat)
    requires WellKeyed(s.log, s.dir) && OnePointer(s.log, k)
    ensures CaptureSays(c, s, through, i) ==
            if i > through then None
            else OrElse(Get(Live(s.log), i), if k < through then Get(Layer(c, s.files, PathOf(s.dir, k)), i) else None)
  {
    var es, below := Range(s.log, 0, through), Below(Layers(c, s.files, s.log), through);
    RangeDirect(s.log, s.dir, through + 1, i);
    RangeBehind(c, s.files, s.log, through, through, i);
    if through in s.log {
      BehindAppend(c, s.files, es, s.log[through], through, i);
    } else {
      assert Range(s.log, 0, through + 1) == es;
    }
    LayersKnow(below, i);
    if k < through && i in below[k] {
      assert First(below, i, k);
    }
  }

  lemma OneRemaining(c: Codec, s: Store, k: nat, through: nat, i: nat)
    requires WellKeyed(s.log, s.dir) && OnePointer(s.log, k)
    ensures Recover(c, Remaining(s, through), i) ==
            OrElse(
              if i > through then Get(Live(s.log), i) else None,
              if k > through then Get(Layer(c, s.files - {PathOf(s.dir, through)}, PathOf(s.dir, k)), i) else None)
  {
    var rest := Remaining(s, through);
    var layers := Layers(c, rest.files, rest.log);
    LayersKnow(layers, i);
    if k > through && i in layers[k] {
      assert First(layers, i, k);
    }
  }

  lemma OneRecovers(c: Codec, s: Store, k: nat, i: nat)
    requires WellKeyed(s.log, s.dir) && OnePointer(s.log, k)
    ensures Recover(c, s, i) == OrElse(Get(Live(s.log), i), Get(Layer(c, s.files, PathOf(s.dir, k)), i))
  {
    var layers := Layers(c, s.files, s.log);
    LayersKnow(layers, i);
    if i in layers[k] {
      assert First(layers, i, k);
    }
  }

  /**
   With one pointer in the log, at k, what it takes for a snapshot to keep index
   i: nothing above the pointer; at the pointer, that the index is live if it has
   a history; below it, that the index, if it is not live, can be read behind the
   pointer without the old file of that name.
   */
  predicate OneKept(c: Codec, s: Store, hist: Log, k: nat, through: nat, i: nat) {
    if through > k then true
    else if through == k then i in hist ==> i in Live(s.log)
    else i in hist && i !in Live(s.log) ==>
           Get(Layer(c, s.files - {PathOf(s.dir, through)}, PathOf(s.dir, k)), i) == Get(hist, i)
  }

  /** With nothing under way a snapshot keeps the history exactly when it keeps every index. */
  lemma OnePointerConserves(c: Codec, s: Store, hist: Log, k: nat, through: nat)
    requires Sound(c) && Tidy(c, s) && Conserves(c, s, hist) && s.pending == [] && OnePointer(s.log, k)
    requires c.encode(Range(s.log, 0, through + 1)).Some?
    ensures Conserves(c, TakeSnapshot(c, s, through), hist) <==> forall i: nat :: OneKept(c, s, hist, k, through, i)
  {
    RequestConserves(c, s, hist, through);
    DrainIdle(s);
    forall i: nat
      ensures (CaptureSays(c, s, through, i).None? ==> Recover(c, Remaining(s, through), i) == Get(hist, i)) <==>
              OneKept(c, s, hist, k, through, i)
    {
      OneKeptExactly(c, s, hist, k, through, i);
    }
  }

  lemma OneKeptExactly(c: Codec, s: Store, hist: Log, k: nat, through: nat, i: nat)
    requires Tidy(c, s) && Conserves(c, s, hist) && OnePointer(s.log, k)
    ensures (CaptureSays(c, s, through, i).None? ==> Recover(c, Remaining(s, through), i) == Get(hist, i)) <==>
            OneKept(c, s, hist, k, through, i)
  {
    assert Recover(c, s, i) == Get(hist, i);
    OneCaptureSays(c, s, k, through, i);
    OneRemaining(c, s, k, through, i);
    OneRecovers(c, s, k, i);
    if i !in hist {
      OneUnknown(c, s.files, PathOf(s.dir, k), PathOf(s.dir, through), i);
    }
  }

  /** What a pointer does not know it does not know either without some file. */
  lemma OneUnknown(c: Codec, files: Files, q: SnapshotPath, p: SnapshotPath, i: nat)
    requires i !in Layer(c, files, q)
    ensures i !in Layer(c, files - {p}, q)
  {
    if p in files {
      ReplacedPointer(c, files, p, files[p], q, i);
      assert files[p := files[p]] == files;
    } else {
      assert files - {p} == files;
    }
  }

  /* ---------- receptions ---------- */

  /**
   A reception, complete or not, keeps the history exactly when every read that
   gets to its file finds the same as before. It always does when the file is
   not in use, and then it costs no snapshot under way either.
   */
  lemma ReceptionConserves(c: Codec, s: Store, hist: Log, index: nat, stream: seq<StreamItem>)
    requires Tidy(c, s) && Conserves(c, s, hist)
    ensures var p, data := PathOf(s.dir, index), Reassembled(stream);
            Conserves(c, ReceiveFile(s, index, stream), hist) <==>
            forall i: nat :: LogAsks(c, s, p, i) ==>
                               OrElse(Answer(c, s.files, p, data, i), Recover(c, Lacking(s, p), i)) ==
                               OrElse(OldAnswer(c, s, p, i), Recover(c, Lacking(s, p), i))
    ensures !InUse(c, s, PathOf(s.dir, index)) ==>
              ImageOf(c, ReceiveFile(s, index, stream)) == ImageOf(c, s)
  {
    FileRewritten(c, s, hist, PathOf(s.dir, index), Reassembled(stream));
    if !InUse(c, s, PathOf(s.dir, index)) {
      FileFrame(c, s, PathOf(s.dir, index), Reassembled(stream));
    }
  }

  /* ---------- runs in which something is lost ---------- */

  ghost predicate Serializes(c: Codec) {
    Sound(c) && forall es :: c.encode(es).Some?
  }

  lemma {:induction false} RangeOne(k: nat, e: LogEntry, n: nat)
    ensures Range(map[k := e], 0, n) == if k < n then [e] else []
  {
    if n > 0 {
      RangeOne(k, e, n - 1);
    }
  }

  lemma {:induction false} RangeTwo(j: nat, d: LogEntry, k: nat, e: LogEntry, n: nat)
    requires j < k
    ensures Range(map[j := d, k := e], 0, n) == (if j < n then [d] else []) + (if k < n then [e] else [])
  {
    if n > 0 {
      RangeTwo(j, d, k, e, n - 1);
    }
  }

  /** The engine after a snapshot with nothing else under way. */
  lemma TakenAlone(c: Codec, s: Store, through: nat)
    requires s.pending == [] && c.encode(Range(s.log, 0, through + 1)).Some?
    ensures var s', es := TakeSnapshot(c, s, through), Range(s.log, 0, through + 1);
            var (index, term) := if es == [] then (0, 0) else (es[|es| - 1].index, es[|es| - 1].term);
            s' == s.(log := CutLog(s.log, s.dir, through, index, term),
            files := s.files[PathOf(s.dir, through) := c.encode(es).value],
            snapshot := Some(CurrentSnapshot(term, index, s.hs.membership, PathOf(s.dir, through))))
  {
    var asked := RequestSnapshot(c, s, through);
    var r := asked.pending[0];
    assert asked == WithRequest(s, r);
    DrainAppend(s, r);
    assert Drain(s) == s;
  }

  /** The same for a known capture that ends with this entry. */
  lemma TakenAs(c: Codec, s: Store, through: nat, es: seq<LogEntry>, e: LogEntry)
    requires s.pending == [] && Range(s.log, 0, through + 1) == es + [e] && c.encode(es + [e]).Some?
    ensures var s' := TakeSnapshot(c, s, through);
            && s'.log == CutLog(s.log, s.dir, through, e.index, e.term)
            && s'.files == s.files[PathOf(s.dir, through) := c.encode(es + [e]).value]
            && s'.pending == [] && s'.dir == s.dir
            && s'.snapshot.Some? && s'.snapshot.value.index == e.index
  {
    TakenAlone(c, s, through);
  }

  /** Append an entry to an empty engine and take a snapshot through it. */
  function One(c: Codec, s: Store, e: LogEntry): Store {
    TakeSnapshot(c, Append(s, e), e.index)
  }

  /** A log that is one pointer tells what its file tells. */
  lemma OnlyPointer(c: Codec, s: Store, k: nat, p: LogEntry, i: nat)
    requires s.log == map[k := p] && IsPointer(p)
    ensures Recover(c, s, i) == Get(Layer(c, s.files, p.payload.path), i)
  {
    var layers := Layers(c, s.files, s.log);
    assert layers == map[k := Layer(c, s.files, p.payload.path)];
    LayersKnow(layers, i);
    if i in layers[k] {
      assert First(layers, i, k);
    }
  }

  /** A list of one pointer. */
  lemma PointerListSays(c: Codec, files: Files, p: LogEntry, bound: nat, i: nat)
    requires IsPointer(p)
    ensures Lookup(c, files, [p], bound, i) ==
            if p.payload.path.index < bound then Get(Layer(c, files, p.payload.path), i) else None
  {
    BehindAppend(c, files, [], p, bound, i);
    DirectAppend([], p, i);
    assert [] + [p] == [p];
  }

  lemma EmptyListSays(c: Codec, files: Files, es: seq<LogEntry>, bound: nat, i: nat)
    requires es == []
    ensures Lookup(c, files, es, bound, i) == None
  {
  }

  function PointerTo(s: Store, e: LogEntry): LogEntry {
    PointerEntry(PathOf(s.dir, e.index), e.index, e.term)
  }

  lemma CutOne(k: nat, e: LogEntry, dir: string, index: nat, term: nat)
    ensures CutLog(map[k := e], dir, k, index, term) == map[k := PointerEntry(PathOf(dir, k), index, term)]
  {
    assert SplitOff(map[k := e], k) == map[k := e];
  }

  lemma CutTwo(j: nat, d: LogEntry, k: nat, e: LogEntry, dir: string, index: nat, term: nat)
    requires j < k
    ensures CutLog(map[j := d, k := e], dir, k, index, term) == map[k := PointerEntry(PathOf(dir, k), index, term)]
  {
    assert SplitOff(map[j := d, k := e], k) == map[k := e];
  }

  lemma CutBelow(j: nat, k: nat, e: LogEntry, dir: string, index: nat, term: nat)
    requires j < k
    ensures CutLog(map[k := e], dir, j, index, term) == map[j := PointerEntry(PathOf(dir, j), index, term), k := e]
  {
    assert SplitOff(map[k := e], j) == map[k := e];
  }

  lemma OneShape(c: Codec, s: Store, e: LogEntry)
    requires Serializes(c) && Fresh(s) && !IsPointer(e)
    ensures One(c, s, e).log == map[e.index := PointerTo(s, e)]
    ensures One(c, s, e).files == s.files[PathOf(s.dir, e.index) := c.encode([e]).value]
    ensures One(c, s, e).pending == [] && One(c, s, e).dir == s.dir
  {
    RangeOne(e.index, e, e.index + 1);
    assert Append(s, e).log == map[e.index := e] && [] + [e] == [e];
    TakenAs(c, Append(s, e), e.index, [], e);
    CutOne(e.index, e, s.dir, e.index, e.term);
  }

  lemma OneReads(c: Codec, s: Store, e: LogEntry)
    requires Serializes(c) && Fresh(s) && !IsPointer(e)
    ensures Tidy(c, One(c, s, e)) && Recover(c, One(c, s, e), e.index) == Some(e)
  {
    OneShape(c, s, e);
    var one := One(c, s, e);
    OnlyPointer(c, one, e.index, PointerTo(s, e), e.index);
    DirectAppend([], e, e.index);
    assert [] + [e] == [e];
    assert Contents(c, one.files, PathOf(s.dir, e.index)) == [e];
  }

  lemma EmptyTells(c: Codec, s: Store, i: nat)
    requires s.log == map[]
    ensures Recover(c, s, i) == None
  {
    LayersKnow(Layers(c, s.files, s.log), i);
  }

  /** A second snapshot of the same index makes the file point to itself: the entry is gone. */
  lemma RepeatLoses(c: Codec, s: Store, e: LogEntry)
    requires Serializes(c) && Fresh(s) && !IsPointer(e)
    ensures Recover(c, One(c, s, e), e.index) == Some(e)
    ensures Recover(c, TakeSnapshot(c, One(c, s, e), e.index), e.index) == None
  {
    OneShape(c, s, e);
    OneReads(c, s, e);
    RepeatReads(c, One(c, s, e), e.index, PointerTo(s, e));
  }

  lemma RepeatReads(c: Codec, one: Store, n: nat, p: LogEntry)
    requires Serializes(c) && Tidy(c, one) && one.pending == [] && one.log == map[n := p]
    requires IsPointer(p) && p.payload.path.index == n
    ensures Recover(c, TakeSnapshot(c, one, n), n) == None
  {
    RangeOne(n, p, n + 1);
    PointerListSays(c, one.files, p, n, n);
    assert CaptureSays(c, one, n, n) == None;
    RequestOutcome(c, one, n, n);
    DrainIdle(one);
    EmptyTells(c, Remaining(one, n), n);
  }

  /** Append a later entry to that and take a snapshot through it. */
  function Two(c: Codec, s: Store, e: LogEntry, e': LogEntry): Store {
    TakeSnapshot(c, Append(One(c, s, e), e'), e'.index)
  }

  lemma PairTaken(c: Codec, s: Store, j: nat, p: LogEntry, e: LogEntry)
    requires Serializes(c) && s.pending == [] && s.log == map[j := p, e.index := e] && j < e.index
    ensures var two := TakeSnapshot(c, s, e.index);
            && two.log == map[e.index := PointerTo(s, e)]
            && two.files == s.files[PathOf(s.dir, e.index) := c.encode([p, e]).value]
            && two.pending == [] && two.dir == s.dir
            && two.snapshot.Some? && two.snapshot.value.index == e.index
  {
    RangeTwo(j, p, e.index, e, e.index + 1);
    assert [p] + [e] == [p, e];
    TakenAs(c, s, e.index, [p], e);
    CutTwo(j, p, e.index, e, s.dir, e.index, e.term);
  }

  lemma TwoShape(c: Codec, s: Store, e: LogEntry, e': LogEntry)
    requires Serializes(c) && Fresh(s) && !IsPointer(e) && !IsPointer(e') && e.index < e'.index
    ensures var two := Two(c, s, e, e');
            && two.log == map[e'.index := PointerTo(s, e')]
            && two.files == One(c, s, e).files[PathOf(s.dir, e'.index) := c.encode([PointerTo(s, e), e']).value]
            && two.pending == [] && two.dir == s.dir
            && two.snapshot.Some? && two.snapshot.value.index == e'.index
  {
    OneShape(c, s, e);
    PairTaken(c, Append(One(c, s, e), e'), e.index, PointerTo(s, e), e');
  }

  lemma PairListSays(c: Codec, files: Files, p: LogEntry, e: LogEntry, bound: nat, i: nat)
    requires IsPointer(p) && !IsPointer(e) && e.index != i
    ensures Lookup(c, files, [p, e], bound, i) == Lookup(c, files, [p], bound, i)
  {
    assert [p, e] == [p] + [e];
    BehindAppend(c, files, [p], e, bound, i);
    DirectAppend([p], e, i);
  }

  lemma PairRemains(c: Codec, two: Store, p: LogEntry, e: LogEntry, q: LogEntry, k: nat)
    requires IsPointer(p) && !IsPointer(e) && IsPointer(q) && p.payload.path == PathOf(two.dir, p.payload.path.index)
    requires q.payload.path == PathOf(two.dir, k) && p.payload.path.index < k && e.index == k
    requires two.log == map[k := q] && q.payload.path in two.files
    requires c.decode(two.files[q.payload.path]) == Some([p, e])
    ensures Recover(c, Remaining(two, p.payload.path.index), p.payload.path.index) == None
  {
    var i := p.payload.path.index;
    var rest := Remaining(two, i);
    assert rest.log == map[k := q];
    OnlyPointer(c, rest, k, q, i);
    assert Contents(c, rest.files, q.payload.path) == [p, e];
    PairListSays(c, rest.files, p, e, k, i);
    PointerListSays(c, rest.files, p, k, i);
  }

  /** Without its file, nothing tells the first entry. */
  lemma TwoRemains(c: Codec, s: Store, e: LogEntry, e': LogEntry)
    requires Serializes(c) && Fresh(s) && !IsPointer(e) && !IsPointer(e') && e.index < e'.index
    ensures Recover(c, Remaining(Two(c, s, e, e'), e.index), e.index) == None
  {
    TwoShape(c, s, e, e');
    PairRemains(c, Two(c, s, e, e'), PointerTo(s, e), e', PointerTo(s, e'), e'.index);
  }

  /**
   A snapshot of a lower index than the last one overwrites a file that the last
   one points to: the entry is gone, the metadata falls back, and both pointers
   stand in the log.
   */
  lemma LowerLoses(c: Codec, s: Store, e: LogEntry, e': LogEntry)
    requires Serializes(c) && Fresh(s) && !IsPointer(e) && !IsPointer(e') && e.index < e'.index
    ensures var end := TakeSnapshot(c, Two(c, s, e, e'), e.index);
            && Recover(c, end, e.index) == None
            && end.snapshot.Some? && end.snapshot.value.index == 0
            && end.log.Keys == {e.index, e'.index} && forall k :: k in end.log ==> IsPointer(end.log[k])
  {
    var two := Two(c, s, e, e');
    TwoShape(c, s, e, e');
    RangeOne(e'.index, PointerTo(s, e'), e.index + 1);
    LowerShape(c, two, e.index, e'.index, PointerTo(s, e'));
    LowerReads(c, s, e, e');
  }

  lemma LowerShape(c: Codec, two: Store, j: nat, k: nat, p: LogEntry)
    requires Serializes(c) && two.pending == [] && two.log == map[k := p] && j < k && IsPointer(p)
    requires Range(two.log, 0, j + 1) == []
    ensures var end := TakeSnapshot(c, two, j);
            && end.snapshot.Some? && end.snapshot.value.index == 0
            && end.log.Keys == {j, k} && forall i :: i in end.log ==> IsPointer(end.log[i])
  {
    TakenAlone(c, two, j);
    CutBelow(j, k, p, two.dir, 0, 0);
  }

  lemma LowerReads(c: Codec, s: Store, e: LogEntry, e': LogEntry)
    requires Serializes(c) && Fresh(s) && !IsPointer(e) && !IsPointer(e') && e.index < e'.index
    ensures Recover(c, TakeSnapshot(c, Two(c, s, e, e'), e.index), e.index) == None
  {
    var two := Two(c, s, e, e');
    TwoShape(c, s, e, e');
    TwoRemains(c, s, e, e');
    RangeOne(e'.index, PointerTo(s, e'), e.index + 1);
    EmptyListSays(c, two.files, Range(two.log, 0, e.index + 1), e.index, e.index);
    assert CaptureSays(c, two, e.index, e.index) == None;
    assert Tidy(c, two);
    RequestOutcome(c, two, e.index, e.index);
    DrainIdle(two);
  }

  /** A later snapshot is under way as the lower one is asked for. */
  function Asked(c: Codec, s: Store, e: LogEntry, e': LogEntry): Store {
    RequestSnapshot(c, Append(One(c, s, e), e'), e'.index)
  }

  /** A write elsewhere leaves what is read behind a pointer. */
  lemma WriteElsewhere(c: Codec, s: Store, e: LogEntry, i: nat)
    requires Tidy(c, s) && !IsPointer(e) && i != e.index && !(e.index in s.log && IsPointer(s.log[e.index]))
    ensures Tidy(c, Append(s, e)) && Recover(c, Append(s, e), i) == Recover(c, s, i)
  {
    AppendSimulates(c, s, e);
    assert e.index !in ImageOf(c, s).layers;
    assert Write(ImageOf(c, s), e).layers == ImageOf(c, s).layers;
  }

  lemma SecondShape(c: Codec, s: Store, e: LogEntry, e': LogEntry)
    requires Serializes(c) && Fresh(s) && !IsPointer(e) && !IsPointer(e') && e.index < e'.index
    ensures var s1 := Append(One(c, s, e), e');
            && Tidy(c, s1) && s1.pending == []
            && s1.log == map[e.index := PointerTo(s, e), e'.index := e']
            && Recover(c, s1, e.index) == Some(e)
  {
    OneShape(c, s, e);
    OneReads(c, s, e);
    WriteElsewhere(c, One(c, s, e), e', e.index);
  }

  /** Asking for a snapshot changes no reading. */
  lemma AskingReads(c: Codec, s: Store, through: nat, i: nat)
    requires Serializes(c) && Tidy(c, s) && s.pending == []
    requires forall k :: k in s.log && IsPointer(s.log[k]) ==> k < through
    ensures var asked := RequestSnapshot(c, s, through);
            && Tidy(c, asked) && asked.log == s.log && Recover(c, asked, i) == Recover(c, s, i)
            && asked.pending != [] && asked.pending[0].through == through
  {
    SnapshotLimits.RisingNames(c, s, through);
    RequestSimulates(c, s, through);
  }

  lemma AskedShape(c: Codec, s: Store, e: LogEntry, e': LogEntry)
    requires Serializes(c) && Fresh(s) && !IsPointer(e) && !IsPointer(e') && e.index < e'.index
    ensures var asked := Asked(c, s, e, e');
            && Tidy(c, asked) && asked.pending != [] && asked.pending[0].through == e'.index
            && asked.log == map[e.index := PointerTo(s, e), e'.index := e']
            && Recover(c, asked, e.index) == Some(e)
  {
    SecondShape(c, s, e, e');
    AskingReads(c, Append(One(c, s, e), e'), e'.index, e.index);
  }

  /** Then the same is lost, once both are finished. */
  lemma OutstandingLoses(c: Codec, s: Store, e: LogEntry, e': LogEntry)
    requires Serializes(c) && Fresh(s) && !IsPointer(e) && !IsPointer(e') && e.index < e'.index
    ensures var asked := Asked(c, s, e, e');
            && asked.pending != [] && asked.pending[0].through == e'.index
            && Recover(c, asked, e.index) == Some(e)
            && Recover(c, TakeSnapshot(c, asked, e.index), e.index) == None
  {
    var p, asked := PointerTo(s, e), Asked(c, s, e, e');
    AskedShape(c, s, e, e');
    RangeTwo(e.index, p, e'.index, e', e.index + 1);
    assert Range(asked.log, 0, e.index + 1) == [p];
    RequestOutcome(c, asked, e.index, e.index);
    PointerListSays(c, asked.files, p, e.index, e.index);
    TwoRemains(c, s, e, e');
  }

  /** A reception that breaks before its first chunk empties the file of the last snapshot: the entry is gone. */
  lemma BrokenReceptionLoses(c: Codec, s: Store, e: LogEntry)
    requires Serializes(c) && Fresh(s) && !IsPointer(e) && c.decode([]) == None
    ensures Recover(c, One(c, s, e), e.index) == Some(e)
    ensures Recover(c, ReceiveFile(One(c, s, e), e.index, [Broken]), e.index) == None
  {
    OneShape(c, s, e);
    OneReads(c, s, e);
    OnlyPointer(c, ReceiveFile(One(c, s, e), e.index, [Broken]), e.index, PointerTo(s, e), e.index);
  }
}
