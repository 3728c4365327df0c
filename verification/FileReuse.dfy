/**
 What happens when a snapshot file is written again although pointers still
 lead to it: exactly which indices are read differently.
 */
module FileReuse {
  import opened Wrappers
  import opened RaftMessages
  import opened StorageSpec
  import opened LayeredLog
  import opened SnapshotHistory

  /* ---------- which reads get to a file ---------- */

  /** Without file p, reading index i from the list would want to look into p before it finds an answer. */
  predicate Asks(c: Codec, files: Files, es: seq<LogEntry>, bound: nat, p: SnapshotPath, i: nat)
    decreases bound, |es| + 1
  {
    Direct(es, i).None? && AsksBehind(c, files, es, bound, p, i)
  }

  predicate AsksBehind(c: Codec, files: Files, es: seq<LogEntry>, bound: nat, p: SnapshotPath, i: nat)
    decreases bound, |es|
  {
    && es != []
    && var front, last := es[..|es| - 1], es[|es| - 1];
       || AsksBehind(c, files, front, bound, p, i)
       || (&& Behind(c, files, front, bound, i).None?
           && IsPointer(last) && last.payload.path.index < bound && i <= last.payload.path.index
           && var q := last.payload.path;
              q == p || (Readable(c, files, q) && Asks(c, files, Contents(c, files, q), q.index, p, i)))
  }

  predicate PointerAsks(c: Codec, files: Files, q: SnapshotPath, p: SnapshotPath, i: nat) {
    i <= q.index && (q == p || (Readable(c, files, q) && Asks(c, files, Contents(c, files, q), q.index, p, i)))
  }

  function Lacking(s: Store, p: SnapshotPath): Store {
    s.(files := s.files - {p})
  }

  /** The same for reading from the whole engine. */
  ghost predicate LogAsks(c: Codec, s: Store, p: SnapshotPath, i: nat) {
    && i !in Live(s.log)
    && exists k :: AsksAt(c, s, p, i, k)
  }

  ghost predicate AsksAt(c: Codec, s: Store, p: SnapshotPath, i: nat, k: nat) {
    && k in s.log && IsPointer(s.log[k]) && PointerAsks(c, s.files - {p}, s.log[k].payload.path, p, i)
    && forall j :: j in s.log && IsPointer(s.log[j]) && j < k ==>
                     i !in Layer(c, s.files - {p}, s.log[j].payload.path)
  }

  /** What a file with these bytes has to say about an index. */
  function Answer(c: Codec, files: Files, p: SnapshotPath, data: seq<byte>, i: nat): Option<LogEntry> {
    var es := c.decode(data);
    if i <= p.index && es.Some? then Lookup(c, files - {p}, es.value, p.index, i) else None
  }

  /* ---------- reading after the file changed ---------- */

  lemma {:induction false} ReachesBelow(c: Codec, files: Files, es: seq<LogEntry>, bound: nat, p: SnapshotPath)
    ensures Reaches(c, files, es, bound, p) ==> p.index < bound
    decreases bound, |es|
  {
    if es != [] {
      var last := es[|es| - 1];
      ReachesBelow(c, files, es[..|es| - 1], bound, p);
      if IsPointer(last) && last.payload.path.index < bound && Readable(c, files, last.payload.path) {
        ReachesBelow(c, files, Contents(c, files, last.payload.path), last.payload.path.index, p);
      }
    }
  }

  /** The file itself is read without looking into it again. */
  lemma AnswerIsRead(c: Codec, files: Files, p: SnapshotPath, data: seq<byte>, i: nat)
    ensures var f' := files[p := data];
            Answer(c, files, p, data, i) ==
            if i <= p.index && Readable(c, f', p) then Lookup(c, f', Contents(c, f', p), p.index, i) else None
  {
    var es := c.decode(data);
    if es.Some? {
      ReachesBelow(c, files - {p}, es.value, p.index, p);
      assert files[p := data] - {p} == files - {p} == (files - {p}) - {p};
      BehindFrame(c, files - {p}, files[p := data], es.value, p.index, p);
    }
  }

  /** A read that gets to the file takes its answer, if it has one; every other read is as without the file. */
  lemma {:induction false} ReplacedBehind(
    c: Codec, files: Files, p: SnapshotPath, data: seq<byte>, es: seq<LogEntry>, bound: nat, i: nat)
    ensures Behind(c, files[p := data], es, bound, i) ==
            if AsksBehind(c, files - {p}, es, bound, p, i) && Answer(c, files, p, data, i).Some?
            then Answer(c, files, p, data, i) else Behind(c, files - {p}, es, bound, i)
    decreases bound, |es|
  {
    if es != [] {
      var last := es[|es| - 1];
      ReplacedBehind(c, files, p, data, es[..|es| - 1], bound, i);
      if IsPointer(last) && last.payload.path.index < bound {
        ReplacedPointer(c, files, p, data, last.payload.path, i);
      }
    }
  }

  lemma {:induction false} ReplacedPointer(
    c: Codec, files: Files, p: SnapshotPath, data: seq<byte>, q: SnapshotPath, i: nat)
    ensures Get(Layer(c, files[p := data], q), i) ==
            if PointerAsks(c, files - {p}, q, p, i) && Answer(c, files, p, data, i).Some?
            then Answer(c, files, p, data, i) else Get(Layer(c, files - {p}, q), i)
    decreases q.index + 1, 0
  {
    AnswerIsRead(c, files, p, data, i);
    if q != p {
      SameElsewhere(c, files - {p}, files[p := data], p, q);
      if Readable(c, files - {p}, q) {
        ReplacedBehind(c, files, p, data, Contents(c, files - {p}, q), q.index, i);
      }
    }
  }

  /** The same for the engine: reading index i after file p got new bytes. */
  ghost function ReadWith(c: Codec, s: Store, p: SnapshotPath, answer: Option<LogEntry>, i: nat): Option<LogEntry> {
    if LogAsks(c, s, p, i) then OrElse(answer, Recover(c, Lacking(s, p), i)) else Recover(c, Lacking(s, p), i)
  }

  /** Layers of which some have got an answer for index i put before their own. */
  ghost predicate Answered(
    before: map<nat, Log>, after: map<nat, Log>, asked: set<nat>, answer: Option<LogEntry>, i: nat)
  {
    && after.Keys == before.Keys && asked <= before.Keys
    && (forall k :: k in after ==>
          Get(after[k], i) == if k in asked && answer.Some? then answer else Get(before[k], i))
  }

  ghost predicate AskedFirst(before: map<nat, Log>, asked: set<nat>, i: nat, k: nat) {
    k in asked && forall j :: j in before && j < k ==> i !in before[j]
  }

  lemma AnsweredAsked(
    before: map<nat, Log>, after: map<nat, Log>, asked: set<nat>, answer: Option<LogEntry>, i: nat, k: nat)
    requires Answered(before, after, asked, answer, i) && AskedFirst(before, asked, i, k) && answer.Some?
    ensures FromLayers(after, i) == answer
  {
    LayersKnow(after, i);
    assert Get(after[k], i) == answer && i in after[k];
    FirstExists(after, i, k);
    var j: nat :| First(after, i, j);
    assert Get(after[j], i) == Some(after[j][i]);
    if j < k {
      assert i !in before[j] && j in asked;
    }
  }

  lemma AnsweredUnasked(
    before: map<nat, Log>, after: map<nat, Log>, asked: set<nat>, answer: Option<LogEntry>, i: nat)
    requires Answered(before, after, asked, answer, i)
    requires answer.None? || forall k :: !AskedFirst(before, asked, i, k)
    ensures FromLayers(after, i) == FromLayers(before, i)
  {
    LayersKnow(before, i);
    LayersKnow(after, i);
    if k :| First(before, i, k) {
      assert Get(before[k], i).Some? && Get(after[k], i).Some?;
      FirstUnasked(before, after, asked, answer, i, k);
    } else {
      forall k | k in after ensures i !in after[k] {
        assert i !in before[k] && Get(before[k], i).None?;
        if k in asked && answer.Some? {
          assert AskedFirst(before, asked, i, k);
        }
      }
    }
  }

  lemma FirstUnasked(
    before: map<nat, Log>, after: map<nat, Log>, asked: set<nat>, answer: Option<LogEntry>, i: nat, k: nat)
    requires Answered(before, after, asked, answer, i) && First(before, i, k)
    requires answer.None? || forall j :: !AskedFirst(before, asked, i, j)
    ensures First(after, i, k) && after[k][i] == before[k][i]
  {
    assert Get(before[k], i).Some?;
    assert forall j :: j in asked && j <= k ==> AskedFirst(before, asked, i, j);
    assert answer.None? || forall j :: j in asked ==> k < j;
    assert forall j :: j in before && j <= k ==> Get(after[j], i) == Get(before[j], i);
    assert forall j :: j in after && i in after[j] ==> Get(after[j], i).Some?;
  }

  ghost function AskedKeys(c: Codec, s: Store, p: SnapshotPath, i: nat): set<nat> {
    set k | k in s.log && IsPointer(s.log[k]) && PointerAsks(c, s.files - {p}, s.log[k].payload.path, p, i)
  }

  lemma LayersReplaced(c: Codec, s: Store, p: SnapshotPath, data: seq<byte>, i: nat)
    ensures Answered(
              Layers(c, s.files - {p}, s.log), Layers(c, s.files[p := data], s.log), AskedKeys(c, s, p, i),
              Answer(c, s.files, p, data, i), i)
  {
    forall k | k in s.log && IsPointer(s.log[k]) {
      ReplacedPointer(c, s.files, p, data, s.log[k].payload.path, i);
    }
  }

  lemma AsksIsFirst(c: Codec, s: Store, p: SnapshotPath, i: nat, k: nat)
    ensures AsksAt(c, s, p, i, k) <==> AskedFirst(Layers(c, s.files - {p}, s.log), AskedKeys(c, s, p, i), i, k)
  {
    var before := Layers(c, s.files - {p}, s.log);
    assert forall j :: j in before <==> j in s.log && IsPointer(s.log[j]);
    assert forall j :: j in before ==> before[j] == Layer(c, s.files - {p}, s.log[j].payload.path);
  }

  lemma ReplacedRecover(c: Codec, s: Store, p: SnapshotPath, data: seq<byte>, i: nat)
    ensures Recover(c, s.(files := s.files[p := data]), i) == ReadWith(c, s, p, Answer(c, s.files, p, data, i), i)
  {
    var before, after := Layers(c, s.files - {p}, s.log), Layers(c, s.files[p := data], s.log);
    var answer, asked := Answer(c, s.files, p, data, i), AskedKeys(c, s, p, i);
    LayersReplaced(c, s, p, data, i);
    forall k ensures AsksAt(c, s, p, i, k) <==> AskedFirst(before, asked, i, k) {
      AsksIsFirst(c, s, p, i, k);
    }
    if answer.Some? && exists k :: AsksAt(c, s, p, i, k) {
      var k :| AsksAt(c, s, p, i, k);
      AnsweredAsked(before, after, asked, answer, i, k);
    } else {
      AnsweredUnasked(before, after, asked, answer, i);
    }
  }

  /* ---------- conservation ---------- */

  /** What the file says now. */
  function OldAnswer(c: Codec, s: Store, p: SnapshotPath, i: nat): Option<LogEntry> {
    if p in s.files then Answer(c, s.files, p, s.files[p], i) else None
  }

  lemma ReadsOld(c: Codec, s: Store, p: SnapshotPath, i: nat)
    ensures Recover(c, s, i) == ReadWith(c, s, p, OldAnswer(c, s, p, i), i)
  {
    if p in s.files {
      assert s.files[p := s.files[p]] == s.files;
      ReplacedRecover(c, s, p, s.files[p], i);
    } else {
      assert s.files - {p} == s.files;
    }
  }

  /**
   Writing a file, in use or not, keeps the history exactly when every read that
   gets to the file finds the same with its new bytes as with its old ones.
   */
  lemma FileRewritten(c: Codec, s: Store, hist: Log, p: SnapshotPath, data: seq<byte>)
    requires Conserves(c, s, hist)
    ensures Conserves(c, s.(files := s.files[p := data]), hist) <==>
            forall i: nat :: LogAsks(c, s, p, i) ==>
                               OrElse(Answer(c, s.files, p, data, i), Recover(c, Lacking(s, p), i)) ==
                               OrElse(OldAnswer(c, s, p, i), Recover(c, Lacking(s, p), i))
  {
    forall i: nat
      ensures Recover(c, s.(files := s.files[p := data]), i) == ReadWith(c, s, p, Answer(c, s.files, p, data, i), i)
      ensures Get(hist, i) == ReadWith(c, s, p, OldAnswer(c, s, p, i), i)
    {
      assert Recover(c, s, i) == Get(hist, i);
      ReplacedRecover(c, s, p, data, i);
      ReadsOld(c, s, p, i);
    }
  }
}
