/**
 The storage engine as it would be without files: a pointer in the log simply
 holds the entries it stands for. What the engine's messages do to this image,
 and under which rules the image keeps the latest write at every index.
 */
module LayeredLog {
  import opened Wrappers
  import opened RaftMessages
  import opened StorageSpec
  import opened ChunkFile

  /** A snapshot that is asked for and not finished, with the entries it captured. */
  datatype Capture = Capture(through: nat, table: Log, written: bool)

  /** The ordinary entries of the log, what each of its pointers stands for, and the snapshots under way. */
  datatype Image = Image(live: Log, layers: map<nat, Log>, queue: seq<Capture>)

  /* ---------- reading ---------- */

  /** The lowest layer that knows an index. A snapshot cuts off everything below it, so lower is newer. */
  ghost predicate First(layers: map<nat, Log>, i: nat, k: nat) {
    && k in layers && i in layers[k]
    && (forall j :: j in layers && i in layers[j] ==> k <= j)
  }

  ghost function FromLayers(layers: map<nat, Log>, i: nat): Option<LogEntry> {
    if exists k :: First(layers, i, k) then
      var k :| First(layers, i, k); Some(layers[k][i])
    else None
  }

  ghost function Read(im: Image, i: nat): Option<LogEntry> {
    OrElse(Get(im.live, i), FromLayers(im.layers, i))
  }

  function Above<T>(m: map<nat, T>, n: nat): map<nat, T> {
    map k | k in m && n < k :: m[k]
  }

  function UpTo<T>(m: map<nat, T>, n: nat): map<nat, T> {
    map k | k in m && k <= n :: m[k]
  }

  /* ---------- the messages ---------- */

  datatype Event =
    | Appended(entry: LogEntry)
    | Replicated(entries: seq<LogEntry>)
    | Requested(through: nat)
    | Refused(through: nat)
    | FileWritten
    | FileFailed(left: Option<seq<byte>>)
    | Completed(k: nat)
    | Received(index: nat, stream: seq<StreamItem>)
    | Installed(index: nat, term: nat, told: Log)

  function Write(im: Image, e: LogEntry): Image {
    im.(live := im.live[e.index := e], layers := im.layers - {e.index})
  }

  function WriteBatch(im: Image, es: seq<LogEntry>): Image
    decreases |es|
  {
    if es == [] then im else WriteBatch(Write(im, es[0]), es[1..])
  }

  /** What a snapshot taken now would hold. */
  ghost function Flat(im: Image, through: nat): Log {
    map i: nat | i <= through && ReadUpTo(im, through, i).Some? :: ReadUpTo(im, through, i).value
  }

  ghost function ReadUpTo(im: Image, through: nat, i: nat): Option<LogEntry> {
    OrElse(Get(UpTo(im.live, through), i), FromLayers(UpTo(im.layers, through), i))
  }

  ghost function BeginCapture(im: Image, through: nat): Image {
    im.(queue := im.queue + [Capture(through, Flat(im, through), false)])
  }

  /** The position of the snapshot whose file is written next. */
  function NextInQueue(queue: seq<Capture>): (k: nat)
    ensures k <= |queue|
    ensures k < |queue| ==> !queue[k].written
  {
    if queue == [] || !queue[0].written then 0 else 1 + NextInQueue(queue[1..])
  }

  function MarkWritten(im: Image): Image {
    var k := NextInQueue(im.queue);
    if k == |im.queue| then im else im.(queue := im.queue[k := im.queue[k].(written := true)])
  }

  function Abandon(im: Image): Image {
    var k := NextInQueue(im.queue);
    if k == |im.queue| then im else im.(queue := Without(im.queue, k))
  }

  /** A snapshot replaces everything up to its index by one layer. */
  function PutLayer(im: Image, index: nat, table: Log): Image {
    im.(live := Above(im.live, index), layers := Above(im.layers, index)[index := table])
  }

  function Land(im: Image, k: nat): Image {
    if k >= |im.queue| || !im.queue[k].written then im
    else PutLayer(im, im.queue[k].through, im.queue[k].table).(queue := Without(im.queue, k))
  }

  ghost function Step(im: Image, ev: Event): Image {
    match ev
    case Appended(e) => Write(im, e)
    case Replicated(es) => WriteBatch(im, es)
    case Requested(through) => BeginCapture(im, through)
    case Refused(_) => im
    case FileWritten => MarkWritten(im)
    case FileFailed(_) => Abandon(im)
    case Completed(k) => Land(im, k)
    case Received(_, _) => im
    case Installed(index, _, told) => PutLayer(im, index, told)
  }

  ghost function Run(im: Image, evs: seq<Event>): Image
    decreases |evs|
  {
    if evs == [] then im else Run(Step(im, evs[0]), evs[1..])
  }

  /* ---------- layers ---------- */

  lemma {:induction false} FirstExists(layers: map<nat, Log>, i: nat, k: nat)
    requires k in layers && i in layers[k]
    ensures exists j :: First(layers, i, j)
    decreases k
  {
    if !First(layers, i, k) {
      var j :| j in layers && i in layers[j] && j < k;
      FirstExists(layers, i, j);
    }
  }

  lemma LayersKnow(layers: map<nat, Log>, i: nat)
    ensures FromLayers(layers, i).None? <==> forall k :: k in layers ==> i !in layers[k]
    ensures forall k :: First(layers, i, k) ==> FromLayers(layers, i) == Some(layers[k][i])
  {
    if k :| k in layers && i in layers[k] {
      FirstExists(layers, i, k);
    }
  }

  lemma FirstUpTo(layers: map<nat, Log>, n: nat, i: nat, k: nat)
    requires First(UpTo(layers, n), i, k)
    ensures First(layers, i, k)
  {
    assert forall j :: j in layers && j <= n ==> j in UpTo(layers, n) && UpTo(layers, n)[j] == layers[j];
  }

  lemma FirstAbove(layers: map<nat, Log>, n: nat, i: nat, k: nat)
    requires First(Above(layers, n), i, k) && FromLayers(UpTo(layers, n), i).None?
    ensures First(layers, i, k)
  {
    LayersKnow(UpTo(layers, n), i);
    assert forall j :: j in layers && j <= n ==> j in UpTo(layers, n) && UpTo(layers, n)[j] == layers[j];
    assert forall j :: j in layers && n < j ==> j in Above(layers, n) && Above(layers, n)[j] == layers[j];
  }

  /** Reading all layers is reading those up to an index, then those above. */
  lemma LayersSplit(layers: map<nat, Log>, n: nat, i: nat)
    ensures FromLayers(layers, i) == OrElse(FromLayers(UpTo(layers, n), i), FromLayers(Above(layers, n), i))
  {
    LayersKnow(layers, i);
    LayersKnow(UpTo(layers, n), i);
    LayersKnow(Above(layers, n), i);
    if k :| First(UpTo(layers, n), i, k) {
      FirstUpTo(layers, n, i, k);
    } else if k :| First(Above(layers, n), i, k) {
      FirstAbove(layers, n, i, k);
    } else {
      assert forall k :: k in layers && k <= n ==> k in UpTo(layers, n) && UpTo(layers, n)[k] == layers[k];
      assert forall k :: k in layers && n < k ==> k in Above(layers, n) && Above(layers, n)[k] == layers[k];
    }
  }

  /** A layer put below all others is read first. */
  lemma BottomLayer(layers: map<nat, Log>, n: nat, table: Log, i: nat)
    ensures FromLayers(Above(layers, n)[n := table], i) == OrElse(Get(table, i), FromLayers(Above(layers, n), i))
  {
    var up := Above(layers, n);
    LayersKnow(up, i);
    LayersKnow(up[n := table], i);
    if i in table {
      assert First(up[n := table], i, n);
    } else if k :| First(up, i, k) {
      assert First(up[n := table], i, k);
    }
  }

  /* ---------- what a snapshot does to reading, exactly ---------- */

  /** What is read at an index up to `through` once a captured table is in place. */
  ghost function ReadBehind(layers: map<nat, Log>, table: Log, through: nat, i: nat): Option<LogEntry> {
    OrElse(Get(table, i), FromLayers(Above(layers, through), i))
  }

  /** No layer and no capture speaks about indices above its own. */
  predicate Bounded(im: Image) {
    && (forall k, i :: k in im.layers && i in im.layers[k] ==> i <= k)
    && (forall q, i :: q in im.queue && i in q.table ==> i <= q.through)
  }

  /** Above the index nothing changes; up to it the table answers, then the layers above. */
  lemma PutLayerReads(im: Image, index: nat, table: Log, i: nat)
    requires Bounded(im) && (forall j :: j in table ==> j <= index)
    ensures Read(PutLayer(im, index, table), i) ==
            if i <= index then ReadBehind(im.layers, table, index, i) else Read(im, i)
  {
    BottomLayer(im.layers, index, table, i);
    LayersSplit(im.layers, index, i);
    if index < i {
      LayersKnow(UpTo(im.layers, index), i);
    }
  }

  /** The capture itself says what was readable up to its index, as far as no higher layer was needed for it. */
  lemma FlatReads(im: Image, through: nat, i: nat)
    requires i <= through
    ensures ReadBehind(im.layers, Flat(im, through), through, i) == Read(im, i)
  {
    LayersSplit(im.layers, through, i);
  }

  /* ---------- conservation ---------- */

  function Merged(low: Log, high: Log, index: nat): Log {
    Above(high, index) + UpTo(low, index)
  }

  function Written(hist: Log, ev: Event): Log {
    match ev
    case Appended(e) => hist[e.index := e]
    case Replicated(es) => InsertAll(hist, es)
    case Installed(index, _, told) => Merged(told, hist, index)
    case _ => hist
  }

  /**
   The reference: the latest write at each index, as if nothing were ever
   compacted. An installed snapshot sets the history up to its index.
   */
  function LatestWrites(hist: Log, evs: seq<Event>): Log
    decreases |evs|
  {
    if evs == [] then hist else LatestWrites(Written(hist, evs[0]), evs[1..])
  }

  /** A write stays off the pointers and above every snapshot under way. */
  predicate CarefulWrite(im: Image, e: LogEntry) {
    e.index !in im.layers && forall q :: q in im.queue ==> q.through < e.index
  }

  /** What a snapshot under way will say up to the installed index is what the installed one says. */
  ghost predicate Consistent(im: Image, index: nat, told: Log, q: Capture) {
    forall i: nat :: i <= index && i <= q.through ==>
                       ReadBehind(PutLayer(im, index, told).layers, q.table, q.through, i) == Get(told, i)
  }

  /** An installed snapshot leaves no older layer to speak for it, and agrees with the snapshots under way. */
  ghost predicate CarefulInstall(im: Image, index: nat, told: Log) {
    && (forall i: nat :: i <= index && i !in told ==> FromLayers(Above(im.layers, index), i).None?)
    && (forall q :: q in im.queue ==> Consistent(im, index, told, q))
  }

  ghost predicate Careful(im: Image, ev: Event) {
    match ev
    case Appended(e) => CarefulWrite(im, e)
    case Replicated(es) => forall e :: e in es ==> CarefulWrite(im, e)
    case Installed(index, _, told) => (forall i :: i in told ==> i <= index) && CarefulInstall(im, index, told)
    case _ => true
  }

  ghost predicate AllCareful(im: Image, evs: seq<Event>)
    decreases |evs|
  {
    evs == [] || (Careful(im, evs[0]) && AllCareful(Step(im, evs[0]), evs[1..]))
  }

  ghost predicate Tells(im: Image, hist: Log) {
    forall i: nat :: Read(im, i) == Get(hist, i)
  }

  /** Completing this snapshot will leave the history up to its index readable. */
  ghost predicate WillTell(layers: map<nat, Log>, q: Capture, hist: Log) {
    forall i: nat :: i <= q.through ==> ReadBehind(layers, q.table, q.through, i) == Get(hist, i)
  }

  ghost predicate Inv(im: Image, hist: Log) {
    && Bounded(im)
    && Tells(im, hist)
    && (forall q :: q in im.queue ==> WillTell(im.layers, q, hist))
  }

  lemma WriteKeeps(im: Image, hist: Log, e: LogEntry)
    requires Inv(im, hist) && CarefulWrite(im, e)
    ensures Inv(Write(im, e), hist[e.index := e])
  {
    var im', hist' := Write(im, e), hist[e.index := e];
    assert im'.layers == im.layers;
    forall i: nat ensures Read(im', i) == Get(hist', i) {
      assert Read(im, i) == Get(hist, i);
    }
    forall q | q in im.queue ensures WillTell(im.layers, q, hist') {
      assert forall i: nat :: i <= q.through ==> Get(hist', i) == Get(hist, i);
    }
  }

  lemma {:induction false} WriteBatchKeeps(im: Image, hist: Log, es: seq<LogEntry>)
    requires Inv(im, hist) && forall e :: e in es ==> CarefulWrite(im, e)
    ensures Inv(WriteBatch(im, es), InsertAll(hist, es))
    decreases |es|
  {
    if es != [] {
      assert es[0] in es && forall e :: e in es[1..] ==> e in es;
      WriteKeeps(im, hist, es[0]);
      assert Write(im, es[0]).layers == im.layers;
      WriteBatchKeeps(Write(im, es[0]), hist[es[0].index := es[0]], es[1..]);
    }
  }

  lemma CaptureKeeps(im: Image, hist: Log, through: nat)
    requires Inv(im, hist)
    ensures Inv(BeginCapture(im, through), hist)
  {
    var q := Capture(through, Flat(im, through), false);
    forall i: nat | i <= through ensures ReadBehind(im.layers, q.table, through, i) == Get(hist, i) {
      FlatReads(im, through, i);
      assert Read(im, i) == Get(hist, i);
    }
    forall i: nat ensures Read(BeginCapture(im, through), i) == Get(hist, i) {
      assert Read(im, i) == Get(hist, i);
    }
  }

  /** The queue may lose members, and have some marked. */
  lemma QueueKeeps(im: Image, hist: Log, queue: seq<Capture>)
    requires Inv(im, hist)
    requires forall q :: q in queue ==> exists p :: p in im.queue && q.(written := true) == p.(written := true)
    ensures Inv(im.(queue := queue), hist)
  {
    var im' := im.(queue := queue);
    forall i: nat ensures Read(im', i) == Get(hist, i) {
      assert Read(im, i) == Get(hist, i);
    }
    forall q | q in queue ensures WillTell(im.layers, q, hist) && forall i :: i in q.table ==> i <= q.through {
      var p :| p in im.queue && q.(written := true) == p.(written := true);
      assert WillTell(im.layers, p, hist);
      assert forall i: nat :: i <= q.through ==> ReadBehind(im.layers, p.table, p.through, i) == Get(hist, i);
    }
  }

  lemma MarkKeeps(im: Image, hist: Log)
    requires Inv(im, hist)
    ensures Inv(MarkWritten(im), hist)
  {
    var k := NextInQueue(im.queue);
    if k < |im.queue| {
      QueueKeeps(im, hist, im.queue[k := im.queue[k].(written := true)]);
    }
  }

  lemma AbandonKeeps(im: Image, hist: Log)
    requires Inv(im, hist)
    ensures Inv(Abandon(im), hist)
  {
    var k := NextInQueue(im.queue);
    if k < |im.queue| {
      QueueKeeps(im, hist, Without(im.queue, k));
    }
  }

  /** A snapshot that lands does not disturb another one under way, whichever goes further. */
  lemma LandingSpares(im: Image, hist: Log, r: Capture, q: Capture)
    requires WillTell(im.layers, r, hist) && WillTell(im.layers, q, hist)
    ensures WillTell(PutLayer(im, r.through, r.table).layers, q, hist)
  {
    var layers' := PutLayer(im, r.through, r.table).layers;
    forall i: nat | i <= q.through ensures ReadBehind(layers', q.table, q.through, i) == Get(hist, i) {
      assert ReadBehind(im.layers, q.table, q.through, i) == Get(hist, i);
      if q.through < r.through {
        assert ReadBehind(im.layers, r.table, r.through, i) == Get(hist, i);
        BottomLayer(im.layers, r.through, r.table, i);
        assert Above(layers', q.through) == layers';
      } else {
        assert Above(layers', q.through) == Above(im.layers, q.through);
      }
    }
  }

  lemma LandKeeps(im: Image, hist: Log, k: nat)
    requires Inv(im, hist)
    ensures Inv(Land(im, k), hist)
  {
    if k < |im.queue| && im.queue[k].written {
      var r := im.queue[k];
      var im' := Land(im, k);
      assert r in im.queue;
      forall i: nat ensures Read(im', i) == Get(hist, i) {
        PutLayerReads(im, r.through, r.table, i);
        assert Read(im, i) == Get(hist, i);
        assert i <= r.through ==> ReadBehind(im.layers, r.table, r.through, i) == Get(hist, i);
      }
      forall q | q in im'.queue ensures WillTell(im'.layers, q, hist) {
        assert q in im.queue;
        LandingSpares(im, hist, r, q);
      }
    }
  }

  lemma InstallSpares(im: Image, hist: Log, index: nat, told: Log, q: Capture)
    requires WillTell(im.layers, q, hist) && Consistent(im, index, told, q)
    ensures WillTell(PutLayer(im, index, told).layers, q, Merged(told, hist, index))
  {
    var layers' := PutLayer(im, index, told).layers;
    forall i: nat | i <= q.through
      ensures ReadBehind(layers', q.table, q.through, i) == Get(Merged(told, hist, index), i)
    {
      if index < i {
        assert Above(layers', q.through) == Above(im.layers, q.through);
        assert ReadBehind(im.layers, q.table, q.through, i) == Get(hist, i);
      } else {
        assert ReadBehind(layers', q.table, q.through, i) == Get(told, i);
      }
    }
  }

  lemma InstallKeeps(im: Image, hist: Log, index: nat, told: Log)
    requires Inv(im, hist) && (forall i :: i in told ==> i <= index) && CarefulInstall(im, index, told)
    ensures Inv(PutLayer(im, index, told), Merged(told, hist, index))
  {
    var im', hist' := PutLayer(im, index, told), Merged(told, hist, index);
    forall i: nat ensures Read(im', i) == Get(hist', i) {
      PutLayerReads(im, index, told, i);
      assert Read(im, i) == Get(hist, i);
    }
    forall q | q in im.queue ensures WillTell(im'.layers, q, hist') {
      InstallSpares(im, hist, index, told, q);
    }
  }

  /** Every message keeps the latest writes readable, under the rules. */
  lemma StepKeeps(im: Image, hist: Log, ev: Event)
    requires Inv(im, hist) && Careful(im, ev)
    ensures Inv(Step(im, ev), Written(hist, ev))
  {
    match ev
    case Appended(e) => WriteKeeps(im, hist, e);
    case Replicated(es) => WriteBatchKeeps(im, hist, es);
    case Requested(through) => CaptureKeeps(im, hist, through);
    case Refused(_) =>
    case FileWritten => MarkKeeps(im, hist);
    case FileFailed(_) => AbandonKeeps(im, hist);
    case Completed(k) => LandKeeps(im, hist, k);
    case Received(_, _) =>
    case Installed(index, _, told) => InstallKeeps(im, hist, index, told);
  }

  lemma {:induction false} RunKeeps(im: Image, hist: Log, evs: seq<Event>)
    requires Inv(im, hist) && AllCareful(im, evs)
    ensures Inv(Run(im, evs), LatestWrites(hist, evs))
    decreases |evs|
  {
    if evs != [] {
      StepKeeps(im, hist, evs[0]);
      RunKeeps(Step(im, evs[0]), Written(hist, evs[0]), evs[1..]);
    }
  }
}
