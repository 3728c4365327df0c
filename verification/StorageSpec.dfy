/**
 What each message handler of the storage engine does to the engine's state,
 one function per handler or per stage of a handler that waits for the
 snapshot actor.
 */
module StorageSpec {
  import opened Wrappers
  import opened RaftMessages
  import opened ChunkFile

  /** The application data of the engine: a byte vector. */
  datatype Data = Data(data: seq<byte>)

  type LogEntry = Entry<Data>
  type Log = map<nat, LogEntry>
  type Files = map<SnapshotPath, seq<byte>>

  datatype HardState = HardState(currentTerm: nat, votedFor: Option<NodeId>, membership: MembershipConfig)

  datatype CurrentSnapshot = CurrentSnapshot(
    term: nat,
    index: nat,
    membership: MembershipConfig,
    pointer: SnapshotPath)

  /** The serializer of entry lists. Encoding and decoding may both be refused. */
  datatype Codec = Codec(
    encode: seq<LogEntry> -> Option<seq<byte>>,
    decode: seq<byte> -> Option<seq<LogEntry>>)

  /** What is asked of the serializer: bytes it wrote read back as what was written. */
  ghost predicate Sound(c: Codec) {
    forall es :: c.encode(es).Some? ==> c.decode(c.encode(es).value) == Some(es)
  }

  /**
   A snapshot that was asked for and is not finished: the captured entries in
   serialized form, the index and term of the last of them, and whether the
   snapshot actor has written the file yet.
   */
  datatype Request = Request(through: nat, index: nat, term: nat, data: seq<byte>, written: bool)

  datatype Store = Store(
    dir: string,
    hs: HardState,
    log: Log,
    snapshot: Option<CurrentSnapshot>,
    machine: Log,
    files: Files,
    pending: seq<Request>)

  /* ---------- log ---------- */

  /** The entries with keys in lo..hi, in increasing order of key. */
  function Range(log: Log, lo: nat, hi: nat): seq<LogEntry> {
    if hi <= lo then []
    else Range(log, lo, hi - 1) + (if hi - 1 in log then [log[hi - 1]] else [])
  }

  /** The entries at or above key k. */
  function SplitOff(log: Log, k: nat): Log {
    map i | i in log && k <= i :: log[i]
  }

  /** Insert entries under their own index, later ones replacing earlier ones. */
  function InsertAll(m: Log, es: seq<LogEntry>): Log
    decreases |es|
  {
    if es == [] then m else InsertAll(m[es[0].index := es[0]], es[1..])
  }

  function Append(s: Store, e: LogEntry): Store {
    s.(log := s.log[e.index := e])
  }

  function Replicate(s: Store, es: seq<LogEntry>): Store {
    s.(log := InsertAll(s.log, es))
  }

  ghost predicate IsLast(log: Log, k: nat) {
    k in log && forall j :: j in log ==> j <= k
  }

  /* ---------- state machine ---------- */

  /** Insert one by one; stop right after the first insertion that replaced an entry. */
  function ApplyAll(m: Log, es: seq<LogEntry>): (Log, bool)
    decreases |es|
  {
    if es == [] then (m, true)
    else
      var m' := m[es[0].index := es[0]];
      if es[0].index in m then (m', false) else ApplyAll(m', es[1..])
  }

  /* ---------- creating a snapshot ---------- */

  function PathOf(dir: string, through: nat): SnapshotPath {
    SnapshotPath(dir, through)
  }

  function PointerEntry(path: SnapshotPath, index: nat, term: nat): LogEntry {
    Entry(term, index, SnapshotPointer(path))
  }

  /** Stage one: capture and serialize. A serializer error changes nothing. */
  function RequestSnapshot(c: Codec, s: Store, through: nat): Store {
    var captured := Range(s.log, 0, through + 1);
    match c.encode(captured)
    case None => s
    case Some(data) =>
      var (index, term) := if captured == [] then (0, 0)
                           else (captured[|captured| - 1].index, captured[|captured| - 1].term);
      s.(pending := s.pending + [Request(through, index, term, data, false)])
  }

  /** The position of the request the snapshot actor serves next. */
  function NextUnwritten(pending: seq<Request>): (k: nat)
    ensures k <= |pending|
    ensures k < |pending| ==> !pending[k].written
    ensures forall j :: 0 <= j < k ==> pending[j].written
  {
    if pending == [] || !pending[0].written then 0 else 1 + NextUnwritten(pending[1..])
  }

  /** Stage two, in the snapshot actor: the file of the oldest unserved request is written. */
  function WriteSnapshotFile(s: Store): Store {
    var k := NextUnwritten(s.pending);
    if k == |s.pending| then s
    else
      var r := s.pending[k];
      s.(files := s.files[PathOf(s.dir, r.through) := r.data], pending := s.pending[k := r.(written := true)])
  }

  /** A file after a failed write: some bytes, or as it was if it could not even be opened. */
  function Failed(files: Files, p: SnapshotPath, left: Option<seq<byte>>): Files {
    match left
    case None => files
    case Some(data) => files[p := data]
  }

  /** Stage two fails: the request ends there, the file may hold anything. */
  function FailSnapshotFile(s: Store, left: Option<seq<byte>>): Store {
    var k := NextUnwritten(s.pending);
    if k == |s.pending| then s
    else
      s.(files := Failed(s.files, PathOf(s.dir, s.pending[k].through), left),
      pending := Without(s.pending, k))
  }

  /** Stage three: a served request trims the log and leaves a pointer. */
  function CompleteSnapshot(s: Store, k: nat): Store {
    if k >= |s.pending| || !s.pending[k].written then s
    else
      var r := s.pending[k];
      var path := PathOf(s.dir, r.through);
      s.(log := SplitOff(s.log, r.through)[r.through := PointerEntry(path, r.index, r.term)],
      snapshot := Some(CurrentSnapshot(r.term, r.index, s.hs.membership, path)),
      pending := Without(s.pending, k))
  }

  /* ---------- installing a snapshot ---------- */

  /** The snapshot actor's part: the file is created anew and filled, whether or not the stream ends well. */
  function ReceiveFile(s: Store, index: nat, stream: seq<StreamItem>): Store {
    s.(files := s.files[PathOf(s.dir, index) := Reassembled(stream)])
  }

  function Reassembled(stream: seq<StreamItem>): seq<byte> {
    Reassemble([], ChunksOf(stream))
  }

  /** The log and metadata change once the snapshot file is in place. */
  function FinishInstall(s: Store, index: nat, term: nat, path: SnapshotPath): Store {
    s.(log := SplitOff(s.log, index)[index := PointerEntry(path, index, term)],
    snapshot := Some(CurrentSnapshot(term, index, s.hs.membership, path)))
  }

  /** The state machine is kept only if the log already had that index and term. */
  predicate NeedsRebuild(s: Store, index: nat, term: nat) {
    !(index in s.log && s.log[index].index == index && s.log[index].term == term)
  }

  /** Replace the state machine by the entries of the file. None: the file is missing or unreadable. */
  function Rebuild(c: Codec, s: Store, path: SnapshotPath): Option<Store> {
    if path !in s.files then None
    else match c.decode(s.files[path])
      case None => None
      case Some(es) => Some(s.(machine := InsertAll(map[], es)))
  }
}
