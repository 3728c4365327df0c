/** Writing a snapshot file from chunks that carry their own offset. */
module ChunkFile {
  import opened RaftMessages

  datatype Chunk = Chunk(offset: nat, data: seq<byte>, done: bool)

  /**
   What happens while a chunk stream is received: a chunk is written, or the
   reception ends because the stream breaks, or because the file system takes
   only the first bytes of a chunk (none, if it cannot seek).
   */
  datatype StreamItem = Item(chunk: Chunk) | Broken | Torn(chunk: Chunk, kept: nat)

  /** Seek to an offset and write: bytes between the old end and the offset become zero. */
  function WriteAt(f: seq<byte>, offset: nat, data: seq<byte>): seq<byte> {
    if data == [] then f
    else
      var end := offset + |data|;
      seq(if end < |f| then |f| else end, j requires 0 <= j < (if end < |f| then |f| else end) =>
        if offset <= j < end then data[j - offset] else if j < |f| then f[j] else 0)
  }

  /** The file after a list of chunks. */
  function Reassemble(f: seq<byte>, cs: seq<Chunk>): seq<byte> {
    if cs == [] then f
    else
      var last := cs[|cs| - 1];
      WriteAt(Reassemble(f, cs[..|cs| - 1]), last.offset, last.data)
  }

  function Least(a: nat, b: nat): (m: nat)
    ensures m <= a && m <= b && (m == a || m == b)
  {
    if a < b then a else b
  }

  /** What is left of a chunk of which only the first bytes were written. */
  function Cut(chunk: Chunk, kept: nat): Chunk {
    chunk.(data := chunk.data[..Least(kept, |chunk.data|)])
  }

  /** The chunks that are written before the reception ends. */
  function ChunksOf(stream: seq<StreamItem>): seq<Chunk> {
    if stream == [] then []
    else match stream[0]
      case Item(chunk) => [chunk] + ChunksOf(stream[1..])
      case Broken => []
      case Torn(chunk, kept) => [Cut(chunk, kept)]
  }

  /** The reception succeeds: nothing failed and some chunk was marked as the final one. */
  ghost predicate Complete(stream: seq<StreamItem>) {
    && (forall item :: item in stream ==> item.Item?)
    && (exists item :: item in stream && item.Item? && item.chunk.done)
  }

  predicate Covers(c: Chunk, j: nat) {
    c.offset <= j < c.offset + |c.data|
  }

  ghost predicate Covered(cs: seq<Chunk>, j: nat) {
    exists c :: c in cs && Covers(c, j)
  }

  /** A chunk that repeats a stretch of the source. */
  ghost predicate Agrees(c: Chunk, src: seq<byte>) {
    forall j: nat :: Covers(c, j) ==> j < |src| && c.data[j - c.offset] == src[j]
  }

  /** A file that shows the source where it is covered, zeros elsewhere, and ends at a covered byte. */
  ghost predicate Reflects(f: seq<byte>, cs: seq<Chunk>, src: seq<byte>) {
    && |f| <= |src|
    && (f != [] ==> Covered(cs, |f| - 1))
    && (forall j: nat :: Covered(cs, j) ==> j < |f|)
    && (forall j :: 0 <= j < |f| ==> f[j] == if Covered(cs, j) then src[j] else 0)
  }

  lemma CoveredStep(front: seq<Chunk>, last: Chunk, j: nat)
    ensures Covered(front + [last], j) <==> Covered(front, j) || Covers(last, j)
  {
    assert forall c :: c in front + [last] <==> c in front || c == last;
  }

  lemma WriteReflects(f: seq<byte>, front: seq<Chunk>, last: Chunk, src: seq<byte>)
    requires Reflects(f, front, src) && Agrees(last, src)
    ensures Reflects(WriteAt(f, last.offset, last.data), front + [last], src)
  {
    var g := WriteAt(f, last.offset, last.data);
    forall j: nat ensures Covered(front + [last], j) <==> Covered(front, j) || Covers(last, j) {
      CoveredStep(front, last, j);
    }
    if last.data != [] {
      assert Covers(last, last.offset + |last.data| - 1);
    }
  }

  lemma {:induction false} ReassembledShape(cs: seq<Chunk>, src: seq<byte>)
    requires forall c :: c in cs ==> Agrees(c, src)
    ensures Reflects(Reassemble([], cs), cs, src)
  {
    if cs != [] {
      var front, last := cs[..|cs| - 1], cs[|cs| - 1];
      ReassembledShape(front, src);
      assert cs == front + [last];
      WriteReflects(Reassemble([], front), front, last, src);
    }
  }

  /**
   Chunks that agree with a source, in any order and with any overlaps, rebuild
   it exactly when every byte they leave out is a zero that is not the last one.
   */
  lemma ReassemblyExact(cs: seq<Chunk>, src: seq<byte>)
    requires forall c :: c in cs ==> Agrees(c, src)
    ensures Reassemble([], cs) == src <==>
            forall j: nat :: j < |src| && !Covered(cs, j) ==> src[j] == 0 && j != |src| - 1
  {
    ReassembledShape(cs, src);
    var f := Reassemble([], cs);
    if f == src {
      forall j: nat | j < |src| && !Covered(cs, j) ensures src[j] == 0 && j != |src| - 1 {
        assert f[j] == 0;
      }
    }
    if forall j: nat :: j < |src| && !Covered(cs, j) ==> src[j] == 0 && j != |src| - 1 {
      assert src != [] ==> Covered(cs, |src| - 1);
      assert |f| == |src|;
    }
  }

  /** In particular, chunks that cover the source rebuild it. */
  lemma CoveringChunksRebuild(cs: seq<Chunk>, src: seq<byte>)
    requires forall c :: c in cs ==> Agrees(c, src)
    requires forall j: nat :: j < |src| ==> Covered(cs, j)
    ensures Reassemble([], cs) == src
  {
    ReassemblyExact(cs, src);
  }

  /** Chunk k is the last one that covers byte j. */
  predicate LastCovers(cs: seq<Chunk>, j: nat, k: nat) {
    k < |cs| && Covers(cs[k], j) && forall i :: k < i < |cs| ==> !Covers(cs[i], j)
  }

  /**
   Any chunks, agreeing or not: every byte of the file is that of the last chunk
   that covers it, or zero if none does, and the file ends with a covered byte.
   */
  lemma {:induction false} LastChunkWins(cs: seq<Chunk>)
    ensures var f := Reassemble([], cs);
            && (forall j: nat, k: nat :: LastCovers(cs, j, k) ==> j < |f| && f[j] == cs[k].data[j - cs[k].offset])
            && (forall j: nat :: j < |f| && !Covered(cs, j) ==> f[j] == 0)
            && (f != [] ==> Covered(cs, |f| - 1))
  {
    if cs != [] {
      var n := |cs| - 1;
      var front, last := cs[..n], cs[n];
      var f, g := Reassemble([], front), Reassemble([], cs);
      LastChunkWins(front);
      assert cs == front + [last];
      forall j: nat ensures Covered(cs, j) <==> Covered(front, j) || Covers(last, j) {
        CoveredStep(front, last, j);
      }
      forall j: nat, k: nat | LastCovers(cs, j, k) ensures j < |g| && g[j] == cs[k].data[j - cs[k].offset] {
        if k < n {
          assert LastCovers(front, j, k);
        }
      }
      if last.data != [] {
        assert Covers(last, last.offset + |last.data| - 1);
      }
    }
  }

  /**
   What is written of a stream: its chunks up to the first failure, and of a chunk
   whose write failed its first bytes.
   */
  lemma {:induction false} WrittenChunks(stream: seq<StreamItem>, n: nat)
    requires n <= |stream| && forall k :: 0 <= k < n ==> stream[k].Item?
    requires n < |stream| ==> !stream[n].Item?
    ensures |ChunksOf(stream)| == n + (if n < |stream| && stream[n].Torn? then 1 else 0)
    ensures forall k :: 0 <= k < n ==> ChunksOf(stream)[k] == stream[k].chunk
    ensures n < |stream| && stream[n].Torn? ==>
              var part := ChunksOf(stream)[n];
              && part.offset == stream[n].chunk.offset
              && part.data <= stream[n].chunk.data
              && |part.data| == Least(stream[n].kept, |stream[n].chunk.data|)
    decreases n
  {
    if n > 0 {
      assert forall k :: 0 <= k < |stream| - 1 ==> stream[1..][k] == stream[k + 1];
      WrittenChunks(stream[1..], n - 1);
    }
  }
}
