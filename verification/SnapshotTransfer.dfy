/** A snapshot made by one engine and installed by another. */
module SnapshotTransfer {
  import opened Wrappers
  import opened RaftMessages
  import opened StorageSpec
  import opened ChunkFile
  import opened LayeredLog
  import opened SnapshotHistory
  import opened Compaction
  import StorageBatches

  /* ---------- the file ---------- */

  lemma {:induction false} ReceivedAll(stream: seq<StreamItem>)
    requires forall item :: item in stream ==> item.Item?
    ensures |ChunksOf(stream)| == |stream|
    ensures forall k :: 0 <= k < |stream| ==> ChunksOf(stream)[k] == stream[k].chunk
  {
    if stream != [] {
      assert stream[0] in stream;
      assert forall item :: item in stream[1..] ==> item in stream;
      ReceivedAll(stream[1..]);
    }
  }

  ghost predicate Arrives(stream: seq<StreamItem>, j: nat) {
    exists item :: item in stream && item.Item? && Covers(item.chunk, j)
  }

  /** A stream that carries the sender's bytes, in any cut, order and repetition. */
  ghost predicate Carries(stream: seq<StreamItem>, bytes: seq<byte>) {
    && Complete(stream)
    && (forall item :: item in stream ==> Agrees(item.chunk, bytes))
    && (forall j: nat :: j < |bytes| ==> Arrives(stream, j))
  }

  lemma CarriedArrives(stream: seq<StreamItem>, bytes: seq<byte>)
    requires Carries(stream, bytes)
    ensures Reassembled(stream) == bytes
  {
    var cs := ChunksOf(stream);
    ReceivedAll(stream);
    forall ch | ch in cs ensures Agrees(ch, bytes) {
      var k :| 0 <= k < |cs| && cs[k] == ch;
      assert stream[k] in stream;
    }
    forall j: nat | j < |bytes| ensures Covered(cs, j) {
      assert Arrives(stream, j);
      var item :| item in stream && item.Item? && Covers(item.chunk, j);
      var k :| 0 <= k < |stream| && stream[k] == item;
      assert cs[k] in cs;
    }
    CoveringChunksRebuild(cs, bytes);
  }

  /* ---------- the state machine ---------- */

  lemma {:induction false} RangeAsTable(log: Log, n: nat)
    requires KeyedByIndex(log)
    ensures InsertAll(map[], Range(log, 0, n)) == map k | k in log && k < n :: log[k]
  {
    if n > 0 {
      RangeAsTable(log, n - 1);
      if n - 1 in log {
        InsertAllLast(map[], Range(log, 0, n - 1), log[n - 1]);
      } else {
        assert Range(log, 0, n) == Range(log, 0, n - 1);
      }
    }
  }

  lemma {:induction false} InsertAllLast(m: Log, es: seq<LogEntry>, e: LogEntry)
    ensures InsertAll(m, es + [e]) == InsertAll(m, es)[e.index := e]
    decreases |es|
  {
    if es == [] {
      assert InsertAll(m[e.index := e], [e][1..]) == m[e.index := e];
    } else {
      assert (es + [e])[0] == es[0] && (es + [e])[1..] == es[1..] + [e];
      InsertAllLast(m[es[0].index := es[0]], es[1..], e);
    }
  }

  /**
   A whole installation: the stream is received, the log is cut in state
   `trimmed`, and the file is read back, if it has to be, in state `rebuilt`.
   None: the installation reports an error.
   */
  ghost function Install(
    c: Codec, index: nat, term: nat, stream: seq<StreamItem>, trimmed: Store, rebuilt: Store): Option<Store>
  {
    if !Complete(stream) then None
    else if NeedsRebuild(trimmed, index, term) then Rebuild(c, rebuilt, PathOf(rebuilt.dir, index))
    else Some(rebuilt)
  }

  /**
   The sender captured its log up to `through`, and a stream carries the bytes to
   the receiver. Whatever ran between the stages, as long as it left the file
   alone: the log is the receiver's above the index plus the pointer, and the
   state machine becomes the sender's log prefix, unless the receiver had an
   entry of that index and term, when it is left as it is.
   */
  lemma TransferDelivers(
    c: Codec, sender: Log, through: nat, bytes: seq<byte>,
    receiver: Store, term: nat, stream: seq<StreamItem>, trimmed: Store, rebuilt: Store)
    requires Sound(c) && KeyedByIndex(sender)
    requires c.encode(Range(sender, 0, through + 1)) == Some(bytes) && Carries(stream, bytes)
    requires trimmed.dir == receiver.dir == rebuilt.dir
    requires var path := PathOf(receiver.dir, through);
             && path in rebuilt.files
             && rebuilt.files[path] == ReceiveFile(receiver, through, stream).files[path]
    ensures var path := PathOf(receiver.dir, through);
            var after := FinishInstall(trimmed, through, term, path);
            && after.log == Above(trimmed.log, through)[
                              through := Entry(term, through, SnapshotPointer(SnapshotPath(receiver.dir, through)))]
            && after.snapshot == Some(CurrentSnapshot(term, through, trimmed.hs.membership, path))
            && after.machine == trimmed.machine
    ensures Install(c, through, term, stream, trimmed, rebuilt) ==
            Some(rebuilt.(machine :=
                   if && through in trimmed.log
                      && trimmed.log[through].index == through && trimmed.log[through].term == term
                   then rebuilt.machine else UpTo(sender, through)))
  {
    CarriedArrives(stream, bytes);
    RangeAsTable(sender, through + 1);
    assert (map k | k in sender && k < through + 1 :: sender[k]) == UpTo(sender, through);
  }

  /* ---------- the history ---------- */

  lemma SameEntries(m: Log, m': Log)
    requires forall i: nat :: Get(m, i) == Get(m', i)
    ensures m == m'
  {
    forall i: nat ensures (i in m <==> i in m') && (i in m ==> m[i] == m'[i]) {
      assert Get(m, i) == Get(m', i);
    }
  }

  /**
   What a receiver rebuilds is the sender's whole history up to the index exactly
   when no pointer is among the captured entries and each index up to there is
   live in the sender's log: the files behind pointers do not travel. For an
   index above all its pointers that means that it is the sender's first snapshot.
   */
  lemma TransferCompleteIff(c: Codec, sender: Store, hist: Log, through: nat)
    requires WellKeyed(sender.log, sender.dir) && Conserves(c, sender, hist)
    ensures UpTo(sender.log, through) == UpTo(hist, through) <==>
            && (forall k :: k in sender.log && k <= through ==> !IsPointer(sender.log[k]))
            && (forall i :: i in hist && i <= through ==> i in sender.log)
    ensures (forall k :: k in sender.log && IsPointer(sender.log[k]) ==> k <= through) ==>
              (UpTo(sender.log, through) == UpTo(hist, through) <==>
               forall k :: k in sender.log ==> !IsPointer(sender.log[k]))
  {
    var p, h := UpTo(sender.log, through), UpTo(hist, through);
    assert forall i: nat :: Recover(c, sender, i) == Get(hist, i);
    if k :| k in sender.log && k <= through && IsPointer(sender.log[k]) {
      HistoryIsOrdinary(c, sender, k);
      assert Recover(c, sender, k) == Get(hist, k);
      assert k in p && IsPointer(p[k]);
      assert p != h;
    } else {
      LiveAgrees(c, sender, hist, through);
      if forall k :: k in sender.log ==> !IsPointer(sender.log[k]) {
        PointerlessIsHistory(c, sender, hist);
      }
    }
  }

  lemma LiveAgrees(c: Codec, s: Store, hist: Log, through: nat)
    requires Conserves(c, s, hist) && forall k :: k in s.log && k <= through ==> !IsPointer(s.log[k])
    ensures UpTo(s.log, through) == UpTo(hist, through) <==> forall i :: i in hist && i <= through ==> i in s.log
  {
    var p, h := UpTo(s.log, through), UpTo(hist, through);
    forall i | i in p ensures i in h && p[i] == h[i] {
      assert Recover(c, s, i) == Get(hist, i) && i in Live(s.log);
    }
    assert forall i :: i in h <==> i in hist && i <= through;
    assert forall i :: i in p <==> i in s.log && i <= through;
  }

  lemma PointerlessIsHistory(c: Codec, s: Store, hist: Log)
    requires Conserves(c, s, hist) && forall k :: k in s.log ==> !IsPointer(s.log[k])
    ensures s.log == hist
  {
    forall i: nat ensures Get(s.log, i) == Get(hist, i) {
      assert Recover(c, s, i) == Get(hist, i);
      LayersKnow(Layers(c, s.files, s.log), i);
      assert Live(s.log) == s.log;
    }
    SameEntries(s.log, hist);
  }

  lemma {:induction false} BehindIsOrdinary(c: Codec, files: Files, es: seq<LogEntry>, bound: nat, i: nat)
    ensures Direct(es, i).Some? ==> !IsPointer(Direct(es, i).value)
    ensures Behind(c, files, es, bound, i).Some? ==> !IsPointer(Behind(c, files, es, bound, i).value)
    decreases bound, |es|
  {
    if es != [] {
      var last := es[|es| - 1];
      BehindIsOrdinary(c, files, es[..|es| - 1], bound, i);
      if IsPointer(last) && last.payload.path.index < bound && Readable(c, files, last.payload.path) {
        BehindIsOrdinary(c, files, Contents(c, files, last.payload.path), last.payload.path.index, i);
      }
    }
  }

  /** Reading never yields a pointer. */
  lemma HistoryIsOrdinary(c: Codec, s: Store, i: nat)
    ensures Recover(c, s, i).Some? ==> !IsPointer(Recover(c, s, i).value)
  {
    var layers := Layers(c, s.files, s.log);
    LayersKnow(layers, i);
    if k :| First(layers, i, k) {
      var p := s.log[k].payload.path;
      BehindIsOrdinary(c, s.files, Contents(c, s.files, p), p.index, i);
    }
  }

  /* ---------- a transfer as part of a run ---------- */

  lemma {:induction false} NoPointers(c: Codec, files: Files, es: seq<LogEntry>, bound: nat)
    requires forall e :: e in es ==> !IsPointer(e)
    ensures forall i: nat :: Behind(c, files, es, bound, i) == None
    ensures forall p :: !Reaches(c, files, es, bound, p)
    decreases |es|
  {
    if es != [] {
      assert es[|es| - 1] in es;
      NoPointers(c, files, es[..|es| - 1], bound);
    }
  }

  /** The file of a first snapshot tells the sender's log up to the index, and leads nowhere else. */
  lemma FirstSnapshotTold(c: Codec, files: Files, sender: Log, dir: string, path: SnapshotPath)
    requires WellKeyed(sender, dir) && forall k :: k in sender ==> !IsPointer(sender[k])
    requires Readable(c, files, path) && Contents(c, files, path) == Range(sender, 0, path.index + 1)
    ensures Layer(c, files, path) == UpTo(sender, path.index)
    ensures forall p :: Leads(c, files, path, p) ==> p == path
  {
    var es := Range(sender, 0, path.index + 1);
    forall e | e in es ensures !IsPointer(e) {
      StorageBatches.RangeMembers(sender, 0, path.index + 1, e);
    }
    NoPointers(c, files, es, path.index);
    assert Live(sender) == sender;
    forall i: nat | i <= path.index ensures Lookup(c, files, es, path.index, i) == Get(sender, i) {
      RangeDirect(sender, dir, path.index + 1, i);
    }
  }

  /** These messages neither ask for nor receive a file of this name. */
  predicate Spares(ev: Event, name: nat) {
    (ev.Requested? || ev.Refused? ==> ev.through != name) && (ev.Received? ==> ev.index != name)
  }

  predicate Idle(s: Store, name: nat) {
    forall r :: r in s.pending ==> r.through != name
  }

  lemma StepSpares(c: Codec, s: Store, ev: Event, name: nat)
    requires Idle(s, name) && Spares(ev, name)
    ensures var s', path := SnapshotHistory.Step(c, s, ev), PathOf(s.dir, name);
            && Idle(s', name) && s'.dir == s.dir && s'.machine == s.machine
            && (path in s'.files <==> path in s.files)
            && (path in s.files ==> s'.files[path] == s.files[path])
  {
    var k := NextUnwritten(s.pending);
    if k < |s.pending| {
      assert s.pending[k] in s.pending;
    }
    if ev.FileWritten? && k < |s.pending| {
      var marked := s.pending[k := s.pending[k].(written := true)];
      forall r | r in marked ensures r.through != name {
        var j :| 0 <= j < |marked| && marked[j] == r;
        assert s.pending[j] in s.pending;
      }
    }
  }

  lemma {:induction false} RunSpares(c: Codec, s: Store, evs: seq<Event>, name: nat)
    requires Idle(s, name) && forall ev :: ev in evs ==> Spares(ev, name)
    ensures var s', path := SnapshotHistory.Run(c, s, evs), PathOf(s.dir, name);
            && Idle(s', name) && s'.dir == s.dir && s'.machine == s.machine
            && (path in s'.files <==> path in s.files)
            && (path in s.files ==> s'.files[path] == s.files[path])
    decreases |evs|
  {
    if evs != [] {
      assert evs[0] in evs && forall ev :: ev in evs[1..] ==> ev in evs;
      StepSpares(c, s, evs[0], name);
      RunSpares(c, SnapshotHistory.Step(c, s, evs[0]), evs[1..], name);
    }
  }

  lemma {:induction false} RunJoin(c: Codec, s: Store, a: seq<Event>, b: seq<Event>)
    ensures SnapshotHistory.Run(c, s, a + b) == SnapshotHistory.Run(c, SnapshotHistory.Run(c, s, a), b)
    ensures AllAllowed(c, s, a + b) <==> AllAllowed(c, s, a) && AllAllowed(c, SnapshotHistory.Run(c, s, a), b)
    decreases |a|
  {
    if a == [] {
      assert a + b == b;
    } else {
      assert (a + b)[0] == a[0] && (a + b)[1..] == a[1..] + b;
      RunJoin(c, SnapshotHistory.Step(c, s, a[0]), a[1..], b);
    }
  }

  lemma {:induction false} LatestJoin(hist: Log, a: seq<Event>, b: seq<Event>)
    ensures LatestWrites(hist, a + b) == LatestWrites(LatestWrites(hist, a), b)
    decreases |a|
  {
    if a == [] {
      assert a + b == b;
    } else {
      assert (a + b)[0] == a[0] && (a + b)[1..] == a[1..] + b;
      LatestJoin(Written(hist, a[0]), a[1..], b);
    }
  }

  /** A sender that ran from its start and takes its first snapshot, in these bytes. */
  ghost predicate SendsFirst(c: Codec, sender: Store, sent: seq<Event>, through: nat, bytes: seq<byte>) {
    var s := SnapshotHistory.Run(c, sender, sent);
    && Fresh(sender) && AllAllowed(c, sender, sent) && AllCareful(ImageOf(c, sender), sent)
    && (forall k :: k in s.log ==> !IsPointer(s.log[k]))
    && c.encode(Range(s.log, 0, through + 1)) == Some(bytes)
  }

  /**
   A receiver that ran from its start, received the stream, and handled other
   messages before and after, none of which used the name of the file.
   */
  ghost predicate Receives(
    c: Codec, receiver: Store, before: seq<Event>, through: nat, stream: seq<StreamItem>, between: seq<Event>)
  {
    && Fresh(receiver) && AllAllowed(c, receiver, before + [Received(through, stream)] + between)
    && Idle(SnapshotHistory.Run(c, receiver, before), through)
    && (forall ev :: ev in between ==> Spares(ev, through))
  }

  lemma SenderHistory(c: Codec, sender: Store, sent: seq<Event>, through: nat, bytes: seq<byte>)
    requires Sound(c) && SendsFirst(c, sender, sent, through, bytes)
    ensures var s := SnapshotHistory.Run(c, sender, sent);
            s.log == LatestWrites(map[], sent) && WellKeyed(s.log, s.dir) && KeyedByIndex(s.log)
  {
    HistoryConserved(c, sender, sent);
    FreshInv(c, sender);
    RunSimulates(c, sender, sent);
    PointerlessIsHistory(c, SnapshotHistory.Run(c, sender, sent), LatestWrites(map[], sent));
  }

  /** The received file is in place and tells the sender's history up to the index. */
  lemma ReceivedTells(
    c: Codec, sender: Store, sent: seq<Event>, through: nat, bytes: seq<byte>,
    receiver: Store, before: seq<Event>, stream: seq<StreamItem>, between: seq<Event>)
    requires Sound(c) && SendsFirst(c, sender, sent, through, bytes) && Carries(stream, bytes)
    requires Receives(c, receiver, before, through, stream, between)
    ensures var end := SnapshotHistory.Run(c, receiver, before + [Received(through, stream)] + between);
            var path := PathOf(end.dir, through);
            && path in end.files && end.files[path] == bytes && Idle(end, through) && end.dir == receiver.dir
            && InstallAllowed(c, end, through, UpTo(LatestWrites(map[], sent), through))
  {
    var s1 := SnapshotHistory.Run(c, receiver, before);
    var s2 := ReceiveFile(s1, through, stream);
    RunJoin(c, receiver, before + [Received(through, stream)], between);
    RunJoin(c, receiver, before, [Received(through, stream)]);
    assert SnapshotHistory.Run(c, s1, [Received(through, stream)]) == s2;
    CarriedArrives(stream, bytes);
    RunSpares(c, s2, between, through);
    RunDir(c, receiver, before);
    SenderHistory(c, sender, sent, through, bytes);
    var end := SnapshotHistory.Run(c, s2, between);
    var s := SnapshotHistory.Run(c, sender, sent);
    FirstSnapshotTold(c, end.files, s.log, s.dir, PathOf(end.dir, through));
  }

  lemma {:induction false} RunDir(c: Codec, s: Store, evs: seq<Event>)
    ensures SnapshotHistory.Run(c, s, evs).dir == s.dir
    decreases |evs|
  {
    if evs != [] {
      RunDir(c, SnapshotHistory.Step(c, s, evs[0]), evs[1..]);
    }
  }

  /**
   From two fresh engines to an installed snapshot: after the sender's run, its
   first snapshot, a stream that carries it, and whatever the receiver handled
   before, between and besides, the receiver can recover exactly the sender's
   history up to the index and its own above; if it had no entry of that index
   and term, its rebuilt state machine is the sender's history up to the index.
   */
  lemma TransferConserves(
    c: Codec, sender: Store, sent: seq<Event>, through: nat, term: nat, bytes: seq<byte>,
    receiver: Store, before: seq<Event>, stream: seq<StreamItem>, between: seq<Event>)
    requires Sound(c) && SendsFirst(c, sender, sent, through, bytes) && Carries(stream, bytes)
    requires Receives(c, receiver, before, through, stream, between)
    requires AllCareful(
               ImageOf(c, receiver),
               before + [Received(through, stream)] + between
               + [Installed(through, term, UpTo(LatestWrites(map[], sent), through))])
    ensures var evs := before + [Received(through, stream)] + between;
            var low, high := LatestWrites(map[], sent), LatestWrites(map[], before + between);
            var end := SnapshotHistory.Run(c, receiver, evs);
            var installed := FinishInstall(end, through, term, PathOf(end.dir, through));
            && Conserves(c, installed, Merged(low, high, through))
            && Install(c, through, term, stream, end, installed) ==
               Some(installed.(machine :=
                      if through in end.log && end.log[through].index == through && end.log[through].term == term
                      then receiver.machine else UpTo(low, through)))
  {
    ReceivedTells(c, sender, sent, through, bytes, receiver, before, stream, between);
    InstalledConserves(c, receiver, before, through, stream, between, term, LatestWrites(map[], sent));
    InstalledMachine(c, sender, sent, through, term, bytes, receiver, before, stream, between);
  }

  lemma InstalledConserves(
    c: Codec, receiver: Store, before: seq<Event>, through: nat, stream: seq<StreamItem>, between: seq<Event>,
    term: nat, low: Log)
    requires Sound(c) && Fresh(receiver)
    requires var evs := before + [Received(through, stream)] + between;
             && AllAllowed(c, receiver, evs)
             && InstallAllowed(c, SnapshotHistory.Run(c, receiver, evs), through, UpTo(low, through))
             && AllCareful(ImageOf(c, receiver), evs + [Installed(through, term, UpTo(low, through))])
    ensures var end := SnapshotHistory.Run(c, receiver, before + [Received(through, stream)] + between);
            Conserves(
              c, FinishInstall(end, through, term, PathOf(end.dir, through)),
              Merged(low, LatestWrites(map[], before + between), through))
  {
    var evs, last := before + [Received(through, stream)] + between, Installed(through, term, UpTo(low, through));
    var end := SnapshotHistory.Run(c, receiver, evs);
    RunJoin(c, receiver, evs, [last]);
    assert [last][1..] == [];
    assert SnapshotHistory.Run(c, end, [last]) == FinishInstall(end, through, term, PathOf(end.dir, through));
    HistoryConserved(c, receiver, evs + [last]);
    TransferHistory(before, through, stream, between, term, low);
  }

  lemma InstalledMachine(
    c: Codec, sender: Store, sent: seq<Event>, through: nat, term: nat, bytes: seq<byte>,
    receiver: Store, before: seq<Event>, stream: seq<StreamItem>, between: seq<Event>)
    requires Sound(c) && SendsFirst(c, sender, sent, through, bytes) && Carries(stream, bytes)
    requires Receives(c, receiver, before, through, stream, between)
    ensures var end := SnapshotHistory.Run(c, receiver, before + [Received(through, stream)] + between);
            var installed := FinishInstall(end, through, term, PathOf(end.dir, through));
            Install(c, through, term, stream, end, installed) ==
            Some(installed.(machine :=
                   if through in end.log && end.log[through].index == through && end.log[through].term == term
                   then receiver.machine else UpTo(LatestWrites(map[], sent), through)))
  {
    var evs := before + [Received(through, stream)] + between;
    var end := SnapshotHistory.Run(c, receiver, evs);
    ReceivedTells(c, sender, sent, through, bytes, receiver, before, stream, between);
    CarriedArrives(stream, bytes);
    SenderHistory(c, sender, sent, through, bytes);
    MachineStays(c, receiver, evs);
    TransferDelivers(
      c, SnapshotHistory.Run(c, sender, sent).log, through, bytes, end, term, stream, end,
      FinishInstall(end, through, term, PathOf(end.dir, through)));
  }

  lemma TransferHistory(
    before: seq<Event>, through: nat, stream: seq<StreamItem>, between: seq<Event>, term: nat, low: Log)
    ensures LatestWrites(
              map[], before + [Received(through, stream)] + between
              + [Installed(through, term, UpTo(low, through))]) ==
            Merged(low, LatestWrites(map[], before + between), through)
  {
    var received, last := Received(through, stream), Installed(through, term, UpTo(low, through));
    var hist := LatestWrites(map[], before);
    LatestJoin(map[], before + [received] + between, [last]);
    LatestJoin(map[], before + [received], between);
    LatestJoin(map[], before, [received]);
    LatestJoin(map[], before, between);
    assert LatestWrites(hist, [received]) == hist by {
      assert [received][1..] == [];
    }
    var high := LatestWrites(hist, between);
    assert LatestWrites(high, [last]) == Merged(UpTo(low, through), high, through) by {
      assert [last][1..] == [];
    }
    assert UpTo(UpTo(low, through), through) == UpTo(low, through);
  }

  lemma {:induction false} MachineStays(c: Codec, s: Store, evs: seq<Event>)
    ensures SnapshotHistory.Run(c, s, evs).machine == s.machine
    decreases |evs|
  {
    if evs != [] {
      MachineStays(c, SnapshotHistory.Step(c, s, evs[0]), evs[1..]);
    }
  }

  /* ---------- when the state machine is rebuilt ---------- */

  /** The message writes at this index, or compacts or replaces the log there. */
  predicate Touches(s: Store, ev: Event, n: nat) {
    match ev
    case Appended(e) => e.index == n
    case Replicated(es) => exists e :: e in es && e.index == n
    case Completed(k) => k < |s.pending| && s.pending[k].written && s.pending[k].through >= n
    case Installed(index, _, _) => index >= n
    case _ => false
  }

  predicate NeverTouched(c: Codec, s: Store, evs: seq<Event>, n: nat)
    decreases |evs|
  {
    evs == [] || (!Touches(s, evs[0], n) && NeverTouched(c, SnapshotHistory.Step(c, s, evs[0]), evs[1..], n))
  }

  lemma {:induction false} BatchElsewhere(m: Log, es: seq<LogEntry>, n: nat)
    requires forall e :: e in es ==> e.index != n
    ensures Get(InsertAll(m, es), n) == Get(m, n)
    decreases |es|
  {
    if es != [] {
      assert es[0] in es && forall e :: e in es[1..] ==> e in es;
      BatchElsewhere(m[es[0].index := es[0]], es[1..], n);
    }
  }

  lemma UntouchedStep(c: Codec, s: Store, ev: Event, n: nat)
    requires !Touches(s, ev, n) && !(ev.Completed? && ev.k < |s.pending| && s.pending[ev.k].through < n)
    requires !(ev.Installed? && ev.index < n)
    ensures Get(SnapshotHistory.Step(c, s, ev).log, n) == Get(s.log, n)
  {
    match ev
    case Replicated(es) => BatchElsewhere(s.log, es, n);
    case _ =>
  }

  lemma CutBelow(log: Log, dir: string, index: nat, entryIndex: nat, term: nat, n: nat)
    requires index < n
    ensures Get(CutLog(log, dir, index, entryIndex, term), n) == Get(log, n)
  {
  }

  /** Compaction and installation below an index leave it alone, as do all messages that do not touch it. */
  lemma {:induction false} UntouchedRun(c: Codec, s: Store, evs: seq<Event>, n: nat)
    requires NeverTouched(c, s, evs, n)
    ensures Get(SnapshotHistory.Run(c, s, evs).log, n) == Get(s.log, n)
    decreases |evs|
  {
    if evs != [] {
      var ev := evs[0];
      if ev.Completed? && ev.k < |s.pending| {
        var r := s.pending[ev.k];
        if r.through < n {
          CutBelow(s.log, s.dir, r.through, r.index, r.term, n);
        }
      } else if ev.Installed? && ev.index < n {
        CutBelow(s.log, s.dir, ev.index, ev.index, ev.term, n);
      } else {
        UntouchedStep(c, s, ev, n);
      }
      UntouchedRun(c, SnapshotHistory.Step(c, s, ev), evs[1..], n);
    }
  }

  /**
   Told from the messages: a receiver that never wrote at the index, nor compacted
   or replaced its log there, always has its state machine rebuilt.
   */
  lemma RebuiltIfNeverWritten(
    c: Codec, receiver: Store, evs: seq<Event>, through: nat, term: nat, stream: seq<StreamItem>, rebuilt: Store)
    requires Fresh(receiver) && NeverTouched(c, receiver, evs, through)
    ensures Install(c, through, term, stream, SnapshotHistory.Run(c, receiver, evs), rebuilt) ==
            if Complete(stream) then Rebuild(c, rebuilt, PathOf(rebuilt.dir, through)) else None
  {
    UntouchedRun(c, receiver, evs, through);
    assert Get(receiver.log, through) == None;
  }

  /**
   One that wrote the entry of that index and term, and did not touch the index
   since, keeps its state machine as it is; with an entry of another term it is
   rebuilt.
   */
  lemma KeptIfWritten(
    c: Codec, receiver: Store, before: seq<Event>, e: LogEntry, since: seq<Event>, term: nat,
    stream: seq<StreamItem>, rebuilt: Store)
    requires Complete(stream)
    requires NeverTouched(
               c, SnapshotHistory.Run(c, receiver, before + [Appended(e)]), since, e.index)
    ensures Install(
              c, e.index, term, stream, SnapshotHistory.Run(c, receiver, before + [Appended(e)] + since), rebuilt) ==
            if e.term == term then Some(rebuilt) else Rebuild(c, rebuilt, PathOf(rebuilt.dir, e.index))
  {
    var s := SnapshotHistory.Run(c, receiver, before);
    RunJoin(c, receiver, before, [Appended(e)]);
    assert [Appended(e)][1..] == [];
    assert SnapshotHistory.Run(c, s, [Appended(e)]) == Append(s, e);
    RunJoin(c, receiver, before + [Appended(e)], since);
    UntouchedRun(c, Append(s, e), since, e.index);
  }

  /** It reports an error exactly when the reception failed, or the file has to be read back and cannot be. */
  lemma InstallFails(
    c: Codec, index: nat, term: nat, stream: seq<StreamItem>, trimmed: Store, rebuilt: Store)
    ensures Install(c, index, term, stream, trimmed, rebuilt).None? <==>
            || (exists j :: 0 <= j < |stream| && !stream[j].Item?)
            || (forall j :: 0 <= j < |stream| ==> !stream[j].chunk.done)
            || (&& !(index in trimmed.log && trimmed.log[index].index == index && trimmed.log[index].term == term)
                && !Readable(c, rebuilt.files, SnapshotPath(rebuilt.dir, index)))
  {
    assert forall item :: item in stream <==> exists j :: 0 <= j < |stream| && stream[j] == item;
    assert (forall item :: item in stream ==> item.Item?) <==> forall j :: 0 <= j < |stream| ==> stream[j].Item?;
    if forall j :: 0 <= j < |stream| ==> stream[j].Item? {
      if j :| 0 <= j < |stream| && stream[j].chunk.done {
        assert stream[j] in stream;
      }
    }
  }
}
