/** Batch handlers against their one-entry counterparts, and range reads. */
module StorageBatches {
  import opened Wrappers
  import opened RaftMessages
  import opened StorageSpec

  /** Replicating a batch is replicating its parts in turn, down to single appends. */
  lemma {:induction false} ReplicateInParts(m: Log, a: seq<LogEntry>, b: seq<LogEntry>)
    ensures InsertAll(m, a + b) == InsertAll(InsertAll(m, a), b)
    decreases |a|
  {
    if a == [] {
      assert a + b == b;
    } else {
      assert (a + b)[0] == a[0] && (a + b)[1..] == a[1..] + b;
      ReplicateInParts(m[a[0].index := a[0]], a[1..], b);
    }
  }

  /** Entry k is the last one of the batch for this index. */
  predicate LastFor(es: seq<LogEntry>, i: nat, k: nat) {
    k < |es| && es[k].index == i && forall j :: k < j < |es| ==> es[j].index != i
  }

  /** After a batch an index holds the last entry of the batch for it, or what it held before. */
  lemma {:induction false} BatchLatest(m: Log, es: seq<LogEntry>, i: nat)
    ensures forall k: nat :: LastFor(es, i, k) ==> Get(InsertAll(m, es), i) == Some(es[k])
    ensures (forall k :: 0 <= k < |es| ==> es[k].index != i) ==> Get(InsertAll(m, es), i) == Get(m, i)
    decreases |es|
  {
    if es != [] {
      var front, last := es[..|es| - 1], es[|es| - 1];
      BatchLatest(m, front, i);
      assert es == front + [last];
      ReplicateInParts(m, front, [last]);
      assert InsertAll(InsertAll(m, front), [last]) == InsertAll(m, front)[last.index := last] by {
        assert [last][1..] == [];
      }
      forall k: nat | LastFor(es, i, k) ensures Get(InsertAll(m, es), i) == Some(es[k]) {
        if k < |es| - 1 {
          assert LastFor(front, i, k);
        }
      }
    }
  }

  ghost predicate DistinctNew(m: Log, es: seq<LogEntry>) {
    && (forall j :: 0 <= j < |es| ==> es[j].index !in m)
    && (forall j, k :: 0 <= j < k < |es| ==> es[j].index != es[k].index)
  }

  /** The outcome of applying a batch, said without the loop. */
  ghost predicate StopsAt(m: Log, es: seq<LogEntry>, k: nat) {
    && k < |es|
    && DistinctNew(m, es[..k])
    && !DistinctNew(m, es[..k + 1])
  }

  /**
   A batch is accepted exactly when its indices are new and distinct, and then
   nothing was replaced. A refused batch has applied everything up to and
   including the first entry that hit an occupied index, which it replaced.
   */
  lemma {:induction false} ApplyBatch(m: Log, es: seq<LogEntry>)
    ensures ApplyAll(m, es).1 <==> DistinctNew(m, es)
    ensures ApplyAll(m, es).1 ==>
              && ApplyAll(m, es).0 == InsertAll(m, es)
              && (forall i :: i in m ==> i in ApplyAll(m, es).0 && ApplyAll(m, es).0[i] == m[i])
              && (forall j :: 0 <= j < |es| ==>
                    es[j].index in ApplyAll(m, es).0 && ApplyAll(m, es).0[es[j].index] == es[j])
    ensures !ApplyAll(m, es).1 ==>
              exists k: nat :: StopsAt(m, es, k) && ApplyAll(m, es).0 == InsertAll(m, es[..k + 1])
    decreases |es|
  {
    if es == [] {
    } else {
      var m', rest := m[es[0].index := es[0]], es[1..];
      if es[0].index in m {
        assert es[..0] == [] && es[..1] == [es[0]];
        assert InsertAll(m, es[..1]) == m';
        assert StopsAt(m, es, 0);
      } else {
        ApplyBatch(m', rest);
        assert forall j :: 0 <= j < |rest| ==> rest[j] == es[j + 1];
        DistinctNewStep(m, es);
        if !ApplyAll(m', rest).1 {
          var k: nat :| StopsAt(m', rest, k) && ApplyAll(m', rest).0 == InsertAll(m', rest[..k + 1]);
          StopsLater(m, es, k);
        }
      }
    }
  }

  /** A clash further on, seen from one entry earlier. */
  lemma StopsLater(m: Log, es: seq<LogEntry>, k: nat)
    requires es != [] && es[0].index !in m && StopsAt(m[es[0].index := es[0]], es[1..], k)
    ensures StopsAt(m, es, k + 1)
    ensures InsertAll(m, es[..k + 2]) == InsertAll(m[es[0].index := es[0]], es[1..][..k + 1])
  {
    assert es[..k + 1][1..] == es[1..][..k] && es[..k + 2][1..] == es[1..][..k + 1];
    DistinctNewStep(m, es[..k + 1]);
    DistinctNewStep(m, es[..k + 2]);
  }

  lemma DistinctNewStep(m: Log, es: seq<LogEntry>)
    requires es != []
    ensures DistinctNew(m, es) <==> es[0].index !in m && DistinctNew(m[es[0].index := es[0]], es[1..])
  {
    var m' := m[es[0].index := es[0]];
    assert forall j :: 0 <= j < |es[1..]| ==> es[1..][j] == es[j + 1];
    if es[0].index !in m && DistinctNew(m', es[1..]) {
      forall j | 0 <= j < |es| ensures es[j].index !in m {
        if j > 0 {
          assert es[1..][j - 1].index !in m';
        }
      }
      forall j, k | 0 <= j < k < |es| ensures es[j].index != es[k].index {
        assert es[1..][k - 1].index !in m';
        if j > 0 {
          assert es[1..][j - 1].index != es[1..][k - 1].index;
        }
      }
    }
  }

  /** Adjacent range reads join up. */
  lemma {:induction false} RangesConcatenate(log: Log, a: nat, b: nat, c: nat)
    requires a <= b <= c
    ensures Range(log, a, b) + Range(log, b, c) == Range(log, a, c)
  {
    if b < c {
      RangesConcatenate(log, a, b, c - 1);
      var tail := if c - 1 in log then [log[c - 1]] else [];
      assert Range(log, a, b) + (Range(log, b, c - 1) + tail) == Range(log, a, b) + Range(log, b, c - 1) + tail;
    }
  }

  /** These keys, in increasing order, are the keys of the log from lo up to hi. */
  ghost predicate KeysInOrder(log: Log, ks: seq<nat>, lo: nat, hi: nat) {
    && (forall j :: 0 <= j < |ks| ==> lo <= ks[j] < hi && ks[j] in log)
    && (forall j, k :: 0 <= j < k < |ks| ==> ks[j] < ks[k])
    && (forall k :: lo <= k < hi && k in log ==> k in ks)
  }

  function Keys(log: Log, lo: nat, hi: nat): seq<nat> {
    if hi <= lo then [] else Keys(log, lo, hi - 1) + (if hi - 1 in log then [hi - 1] else [])
  }

  /** A range read yields the entries with keys in range and no others. */
  lemma {:induction false} RangeMembers(log: Log, lo: nat, hi: nat, e: LogEntry)
    ensures e in Range(log, lo, hi) <==> exists k :: lo <= k < hi && k in log && log[k] == e
  {
    if lo < hi {
      RangeMembers(log, lo, hi - 1, e);
    }
  }

  /** A range read lists what the log holds at exactly the keys in range, in increasing order of key. */
  lemma {:induction false} RangeOrdered(log: Log, lo: nat, hi: nat)
    ensures KeysInOrder(log, Keys(log, lo, hi), lo, hi)
    ensures |Range(log, lo, hi)| == |Keys(log, lo, hi)|
    ensures forall j :: 0 <= j < |Keys(log, lo, hi)| ==> Range(log, lo, hi)[j] == log[Keys(log, lo, hi)[j]]
  {
    if lo < hi {
      RangeOrdered(log, lo, hi - 1);
      if hi - 1 in log {
        KeysExtended(log, Keys(log, lo, hi - 1), lo, hi - 1);
      } else {
        assert Keys(log, lo, hi) == Keys(log, lo, hi - 1) && Range(log, lo, hi) == Range(log, lo, hi - 1);
      }
    }
  }

  lemma KeysExtended(log: Log, ks: seq<nat>, lo: nat, hi: nat)
    requires KeysInOrder(log, ks, lo, hi) && lo <= hi && hi in log
    ensures KeysInOrder(log, ks + [hi], lo, hi + 1)
  {
    forall k | lo <= k < hi + 1 && k in log ensures k in ks + [hi] {
      assert k == hi || k in ks;
    }
  }
}
