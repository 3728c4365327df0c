/**
 The storage engine and its snapshot actor as the mutable objects they are.
 Every method is proved against the step it takes on the engine's state; a
 handler that waits for the snapshot actor is one method per stage, so other
 handlers can run in between.
 */
module MemoryStore {
  import opened Wrappers
  import opened RaftMessages
  import opened StorageSpec
  import opened ChunkFile
  import StorageBatches

  /** The actor that reads and writes snapshot files in one directory. */
  class SnapshotActor {
    const dir: string
    var files: Files

    constructor (dir: string, files: Files)
      ensures this.dir == dir && this.files == files
    {
      this.dir := dir;
      this.files := files;
    }

    /** Write a file. A fault leaves some other bytes in it, or leaves it as it was, or absent. */
    method CreateSnapshotWithData(path: SnapshotPath, data: seq<byte>, fault: Option<Option<seq<byte>>>)
      returns (ok: bool)
      modifies this
      ensures ok <==> fault.None?
      ensures files == if ok then old(files)[path := data] else Failed(old(files), path, fault.value)
    {
      ok := fault.None?;
      if ok {
        files := files[path := data];
      } else if fault.value.Some? {
        files := files[path := fault.value.value];
      }
    }

    method DeserializeSnapshot(codec: Codec, path: SnapshotPath) returns (r: Option<seq<LogEntry>>)
      ensures r.Some? <==> path in files && codec.decode(files[path]).Some?
      ensures r.Some? ==> r == codec.decode(files[path])
    {
      if path !in files {
        return None;
      }
      r := codec.decode(files[path]);
    }

    /**
     Create the file, if the file system lets it, and write every chunk at its
     offset. A broken stream or a failed write ends the reception with what was
     written so far left in the file.
     */
    method SyncInstallSnapshot(index: nat, stream: seq<StreamItem>, creatable: bool)
      returns (r: Option<SnapshotPath>)
      modifies this
      ensures files == if creatable then old(files)[PathOf(dir, index) := Reassembled(stream)] else old(files)
      ensures r == if creatable && Complete(stream) then Some(PathOf(dir, index)) else None
    {
      var path := PathOf(dir, index);
      if !creatable {
        return None;
      }
      files := files[path := []];
      var didProcessFinalChunk := false;
      ghost var file: seq<byte> := [];
      var n := 0;
      WrittenIsReassembled([], stream);
      assert stream[0..] == stream;
      while n < |stream|
        invariant 0 <= n <= |stream|
        invariant files == old(files)[path := file]
        invariant WrittenFrom(file, stream[n..]) == Reassembled(stream)
        invariant AllItems(stream, n)
        invariant didProcessFinalChunk <==> FinalIn(stream, n)
        decreases |stream| - n
      {
        assert stream[n..][1..] == stream[n + 1..];
        NotComplete(stream, n);
        match stream[n] {
          case Item(chunk) =>
            WriteChunk(path, chunk.offset, chunk.data);
            WrittenAgain(old(files), path, file, WriteAt(file, chunk.offset, chunk.data));
            file := WriteAt(file, chunk.offset, chunk.data);
            if chunk.done {
              didProcessFinalChunk := true;
            }
          case Broken =>
            return None;
          case Torn(chunk, kept) =>
            WriteChunk(path, chunk.offset, Cut(chunk, kept).data);
            WrittenAgain(old(files), path, file, WriteAt(file, chunk.offset, Cut(chunk, kept).data));
            return None;
        }
        n := n + 1;
      }
      AllReceived(stream);
      r := if didProcessFinalChunk then Some(path) else None;
    }

    /** Seek to the offset and write. */
    method WriteChunk(path: SnapshotPath, offset: nat, data: seq<byte>)
      requires path in files
      modifies this
      ensures files == old(files)[path := WriteAt(old(files)[path], offset, data)]
    {
      files := files[path := WriteAt(files[path], offset, data)];
    }
  }

  lemma WrittenAgain(files: Files, path: SnapshotPath, a: seq<byte>, b: seq<byte>)
    ensures files[path := a][path := b] == files[path := b]
  {
  }

  /** What a file becomes while a stream is received. */
  function WrittenFrom(f: seq<byte>, stream: seq<StreamItem>): seq<byte>
    decreases |stream|
  {
    if stream == [] then f
    else match stream[0]
      case Item(chunk) => WrittenFrom(WriteAt(f, chunk.offset, chunk.data), stream[1..])
      case Broken => f
      case Torn(chunk, kept) => WriteAt(f, chunk.offset, Cut(chunk, kept).data)
  }

  lemma {:induction false} ReassembleFirst(f: seq<byte>, c: Chunk, cs: seq<Chunk>)
    ensures Reassemble(f, [c] + cs) == Reassemble(WriteAt(f, c.offset, c.data), cs)
    decreases |cs|
  {
    var all := [c] + cs;
    if cs == [] {
      assert all[..0] == [];
    } else {
      assert all[..|all| - 1] == [c] + cs[..|cs| - 1];
      ReassembleFirst(f, c, cs[..|cs| - 1]);
    }
  }

  lemma {:induction false} WrittenIsReassembled(f: seq<byte>, stream: seq<StreamItem>)
    ensures WrittenFrom(f, stream) == Reassemble(f, ChunksOf(stream))
    decreases |stream|
  {
    if stream != [] {
      match stream[0]
      case Item(chunk) =>
        ReassembleFirst(f, chunk, ChunksOf(stream[1..]));
        WrittenIsReassembled(WriteAt(f, chunk.offset, chunk.data), stream[1..]);
      case Broken =>
      case Torn(chunk, kept) =>
        ReassembleFirst(f, Cut(chunk, kept), []);
        assert [Cut(chunk, kept)] + [] == [Cut(chunk, kept)];
    }
  }

  ghost predicate AllItems(stream: seq<StreamItem>, n: nat)
    requires n <= |stream|
  {
    forall k :: 0 <= k < n ==> stream[k].Item?
  }

  lemma NotComplete(stream: seq<StreamItem>, n: nat)
    requires n < |stream|
    ensures !stream[n].Item? ==> !Complete(stream)
  {
    assert stream[n] in stream;
  }

  lemma AllReceived(stream: seq<StreamItem>)
    requires AllItems(stream, |stream|)
    ensures FinalIn(stream, |stream|) <==> Complete(stream)
  {
  }

  /** A chunk marked as final is among the first n items. */
  ghost predicate FinalIn(stream: seq<StreamItem>, n: nat)
    requires n <= |stream|
  {
    exists k :: 0 <= k < n && stream[k].Item? && stream[k].chunk.done
  }

  class MemoryStorage {
    const codec: Codec
    const snapshotDir: string
    const snapshotActor: SnapshotActor
    var hs: HardState
    var log: Log
    var snapshotData: Option<CurrentSnapshot>
    var stateMachine: Log
    /** The snapshots asked for and not finished, oldest first. */
    var pending: seq<Request>

    ghost predicate Valid()
      reads this
    {
      snapshotActor.dir == snapshotDir
    }

    ghost function State(): Store
      reads this, snapshotActor
    {
      Store(snapshotDir, hs, log, snapshotData, stateMachine, snapshotActor.files, pending)
    }

    constructor (members: seq<NodeId>, snapshotDir: string, codec: Codec, files: Files)
      ensures Valid() && fresh(snapshotActor) && this.codec == codec
      ensures State() == Store(
                           snapshotDir, HardState(0, None, MembershipConfig(false, members, [], [])),
                           map[], None, map[], files, [])
    {
      this.codec := codec;
      this.snapshotDir := snapshotDir;
      this.snapshotActor := new SnapshotActor(snapshotDir, files);
      hs := HardState(0, None, MembershipConfig(false, members, [], []));
      log, snapshotData, stateMachine, pending := map[], None, map[], [];
    }

    /** Index and term of the entry with the largest key; zeros for an empty log. */
    method GetInitialState()
      returns (lastIndex: nat, lastTerm: nat, lastApplied: nat, hardState: HardState)
      ensures hardState == hs && lastApplied == lastIndex
      ensures log == map[] ==> lastIndex == 0 && lastTerm == 0
      ensures log != map[] ==> IsLast(log, lastIndex) && lastTerm == log[lastIndex].term
    {
      lastIndex, lastTerm, lastApplied, hardState := 0, 0, 0, hs;
      var rest := log.Keys;
      while rest != {}
        invariant rest <= log.Keys
        invariant rest == log.Keys ==> lastIndex == 0 && lastTerm == 0
        invariant rest != log.Keys ==> lastIndex in log.Keys - rest && lastTerm == log[lastIndex].term
        invariant forall k :: k in log && k !in rest ==> k <= lastIndex
        decreases rest
      {
        var k :| k in rest;
        if rest == log.Keys || lastIndex < k {
          lastIndex, lastTerm := k, log[k].term;
        }
        rest := rest - {k};
      }
      lastApplied := lastIndex;
    }

    method SaveHardState(hs: HardState)
      modifies this`hs
      ensures State() == old(State()).(hs := hs)
    {
      this.hs := hs;
    }

    /** The range end must not lie before its start. */
    method GetLogEntries(start: nat, stop: nat) returns (es: seq<LogEntry>)
      requires start <= stop
      ensures es == Range(log, start, stop)
    {
      es := [];
      var k := start;
      while k < stop
        invariant start <= k <= stop
        invariant es == Range(log, start, k)
      {
        if k in log {
          es := es + [log[k]];
        }
        k := k + 1;
      }
    }

    method AppendEntryToLog(entry: LogEntry)
      modifies this`log
      ensures State() == Append(old(State()), entry)
    {
      log := log[entry.index := entry];
    }

    method ReplicateToLog(entries: seq<LogEntry>)
      modifies this`log
      ensures State() == Replicate(old(State()), entries)
    {
      var n := 0;
      while n < |entries|
        invariant 0 <= n <= |entries|
        invariant InsertAll(log, entries[n..]) == InsertAll(old(log), entries)
      {
        assert entries[n..][1..] == entries[n + 1..];
        log := log[entries[n].index := entries[n]];
        n := n + 1;
      }
    }

    method ApplyEntryToStateMachine(entry: LogEntry) returns (ok: bool)
      modifies this`stateMachine
      ensures ok <==> entry.index !in old(stateMachine)
      ensures State() == old(State()).(machine := old(stateMachine)[entry.index := entry])
    {
      ok := entry.index !in stateMachine;
      stateMachine := stateMachine[entry.index := entry];
    }

    /** Accepted exactly when the indices are new and distinct; a refused batch stops at the first clash. */
    method ReplicateToStateMachine(entries: seq<LogEntry>) returns (ok: bool)
      modifies this`stateMachine
      ensures State() == old(State()).(machine := ApplyAll(old(stateMachine), entries).0)
      ensures ok == ApplyAll(old(stateMachine), entries).1
      ensures ok <==> StorageBatches.DistinctNew(old(stateMachine), entries)
    {
      StorageBatches.ApplyBatch(stateMachine, entries);
      var n := 0;
      while n < |entries|
        invariant 0 <= n <= |entries|
        invariant ApplyAll(stateMachine, entries[n..]) == ApplyAll(old(stateMachine), entries)
      {
        assert entries[n..][1..] == entries[n + 1..];
        var occupied := entries[n].index in stateMachine;
        stateMachine := stateMachine[entries[n].index := entries[n]];
        if occupied {
          return false;
        }
        n := n + 1;
      }
      ok := true;
    }

    /** Stage one of creating a snapshot. False: the entries could not be serialized. */
    method CreateSnapshot(through: nat) returns (ok: bool)
      modifies this`pending
      ensures State() == RequestSnapshot(codec, old(State()), through)
      ensures ok <==> codec.encode(Range(log, 0, through + 1)).Some?
    {
      var entries := GetLogEntries(0, through + 1);
      var index, term := 0, 0;
      if entries != [] {
        index, term := entries[|entries| - 1].index, entries[|entries| - 1].term;
      }
      match codec.encode(entries)
      case None =>
        ok := false;
      case Some(data) =>
        pending := pending + [Request(through, index, term, data, false)];
        ok := true;
    }

    /** The snapshot actor gets to the oldest request it has not served; if it fails the request ends there. */
    method ServeSnapshot(fault: Option<Option<seq<byte>>>)
      requires Valid()
      modifies this`pending, snapshotActor
      ensures State() ==
              if fault.None? then WriteSnapshotFile(old(State())) else FailSnapshotFile(old(State()), fault.value)
    {
      var k := NextUnwritten(pending);
      if k < |pending| {
        var r := pending[k];
        var ok := snapshotActor.CreateSnapshotWithData(PathOf(snapshotDir, r.through), r.data, fault);
        if ok {
          pending := pending[k := r.(written := true)];
        } else {
          pending := Without(pending, k);
        }
      }
    }

    /** The last stage of creating a snapshot. */
    method FinishCreateSnapshot(k: nat) returns (current: CurrentSnapshot)
      requires k < |pending| && pending[k].written
      modifies this
      ensures State() == CompleteSnapshot(old(State()), k)
      ensures snapshotData == Some(current)
    {
      var r := pending[k];
      var path := PathOf(snapshotDir, r.through);
      log := map i | i in log && r.through <= i :: log[i];
      log := log[r.through := PointerEntry(path, r.index, r.term)];
      current := CurrentSnapshot(r.term, r.index, hs.membership, path);
      snapshotData := Some(current);
      pending := pending[..k] + pending[k + 1..];
    }

    /** Stage one of installing a snapshot: only the file changes. */
    method ReceiveSnapshot(index: nat, stream: seq<StreamItem>, creatable: bool) returns (r: Option<SnapshotPath>)
      requires Valid()
      modifies snapshotActor
      ensures State() == if creatable then ReceiveFile(old(State()), index, stream) else old(State())
      ensures r == if creatable && Complete(stream) then Some(PathOf(snapshotDir, index)) else None
    {
      r := snapshotActor.SyncInstallSnapshot(index, stream, creatable);
    }

    /** Stage two of installing a snapshot; tells whether the state machine has to be rebuilt. */
    method FinishInstallSnapshot(index: nat, term: nat, path: SnapshotPath) returns (rebuild: bool)
      modifies this
      ensures State() == FinishInstall(old(State()), index, term, path)
      ensures !rebuild <==>
              index in old(log) && old(log)[index].index == index && old(log)[index].term == term
    {
      snapshotData := Some(CurrentSnapshot(term, index, hs.membership, path));
      log := map i | i in log && index <= i :: log[i];
      rebuild := !(index in log && log[index].index == index && log[index].term == term);
      log := log[index := PointerEntry(path, index, term)];
    }

    /** Stage three of installing a snapshot. False: the file could not be read back. */
    method RebuildStateMachineFromSnapshot(path: SnapshotPath) returns (ok: bool)
      modifies this`stateMachine
      ensures ok <==> Rebuild(codec, old(State()), path).Some?
      ensures ok ==> Rebuild(codec, old(State()), path) == Some(State())
      ensures !ok ==> State() == old(State())
    {
      var entries := snapshotActor.DeserializeSnapshot(codec, path);
      if entries.None? {
        return false;
      }
      stateMachine := map[];
      var n := 0;
      while n < |entries.value|
        invariant 0 <= n <= |entries.value|
        invariant InsertAll(stateMachine, entries.value[n..]) == InsertAll(map[], entries.value)
      {
        var e := entries.value[n];
        assert entries.value[n..][1..] == entries.value[n + 1..];
        stateMachine := stateMachine[e.index := e];
        n := n + 1;
      }
      ok := true;
    }
  }
}
