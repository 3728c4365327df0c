/**
 The wire entities of the Raft calls and the conversions between them and the
 Raft messages. A conversion that panics yields None.
 */
module Entities {
  import opened Wrappers
  import R = RaftMessages

  type bytes = seq<R.byte>

  /** The serializer of application data. */
  datatype AppCodec<!D> = AppCodec(encode: D -> Option<bytes>, decode: bytes -> Option<D>)

  ghost predicate Sound<D(!new)>(c: AppCodec<D>) {
    forall d :: c.encode(d).Some? ==> c.decode(c.encode(d).value) == Some(d)
  }

  datatype NodeId = NodeId(id: nat)

  datatype MembershipConfig = MembershipConfig(
    isInJointConsensus: bool,
    members: seq<NodeId>,
    nonVoters: seq<NodeId>,
    removing: seq<NodeId>)

  datatype Any = Any(value: bytes)
  datatype Normal = Normal(data: Option<Any>)
  datatype EntryNormal = EntryNormal(entry: Option<Normal>)
  datatype SnapshotPath = SnapshotPath(path: R.SnapshotPath)

  datatype Payload =
    | NormalPayload(normal: EntryNormal)
    | ConfigChangePayload(change: MembershipConfig)
    | SnapshotPointerPayload(pointer: SnapshotPath)
    | BlankPayload

  datatype Entry = Entry(term: nat, index: nat, payload: Option<Payload>)

  datatype AppendEntriesRequest = AppendEntriesRequest(
    target: nat,
    term: nat,
    leaderId: nat,
    prevLogIndex: nat,
    prevLogTerm: nat,
    entries: seq<Entry>,
    leaderCommit: nat)

  datatype ConflictOpt = ConflictOpt(term: nat, index: nat)
  datatype Conflict = Conflict(conflictOpt: ConflictOpt)

  datatype AppendEntriesResponse = AppendEntriesResponse(term: nat, success: bool, conflict: Option<Conflict>)

  datatype InstallSnapshotRequest = InstallSnapshotRequest(
    target: nat,
    term: nat,
    leaderId: nat,
    lastIncludedIndex: nat,
    lastIncludedTerm: nat,
    offset: nat,
    data: bytes,
    done: bool)

  datatype InstallSnapshotResponse = InstallSnapshotResponse(term: nat)

  datatype VoteRequest = VoteRequest(
    target: nat,
    term: nat,
    candidateId: nat,
    lastLogIndex: nat,
    lastLogTerm: nat)

  datatype VoteResponse = VoteResponse(term: nat, voteGranted: bool, isCandidateUnknown: bool)

  /** The body of a Raft call on the wire, by route. */
  datatype Body =
    | Entries(append: AppendEntriesRequest)
    | VoteBody(vote: VoteRequest)
    | Snapshots(install: InstallSnapshotRequest)

  /* ---------- to the wire ---------- */

  function IdsFrom(ids: seq<R.NodeId>): seq<NodeId> {
    seq(|ids|, k requires 0 <= k < |ids| => NodeId(ids[k]))
  }

  function MembershipFrom(m: R.MembershipConfig): MembershipConfig {
    MembershipConfig(m.isInJointConsensus, IdsFrom(m.members), IdsFrom(m.nonVoters), IdsFrom(m.removing))
  }

  function PayloadFrom<D>(c: AppCodec<D>, p: R.EntryPayload<D>): Option<Payload> {
    match p
    case Blank => Some(BlankPayload)
    case Normal(data) =>
      (match c.encode(data)
       case None => None
       case Some(value) => Some(NormalPayload(EntryNormal(Some(Normal(Some(Any(value))))))))
    case ConfigChange(membership) => Some(ConfigChangePayload(MembershipFrom(membership)))
    case SnapshotPointer(path) => Some(SnapshotPointerPayload(SnapshotPath(path)))
  }

  function EntryFrom<D>(c: AppCodec<D>, e: R.Entry<D>): Option<Entry> {
    match PayloadFrom(c, e.payload)
    case None => None
    case Some(p) => Some(Entry(e.term, e.index, Some(p)))
  }

  function EntriesFrom<D>(c: AppCodec<D>, es: seq<R.Entry<D>>): Option<seq<Entry>> {
    if es == [] then Some([])
    else
      match (EntryFrom(c, es[0]), EntriesFrom(c, es[1..]))
      case (Some(e), Some(rest)) => Some([e] + rest)
      case (_, _) => None
  }

  function AppendEntriesFrom<D>(c: AppCodec<D>, m: R.AppendEntriesRequest<D>): Option<AppendEntriesRequest> {
    match EntriesFrom(c, m.entries)
    case None => None
    case Some(es) =>
      Some(AppendEntriesRequest(m.target, m.term, m.leaderId, m.prevLogIndex, m.prevLogTerm, es, m.leaderCommit))
  }

  function InstallSnapshotFrom(m: R.InstallSnapshotRequest): InstallSnapshotRequest {
    InstallSnapshotRequest(
      m.target, m.term, m.leaderId, m.lastIncludedIndex, m.lastIncludedTerm, m.offset, m.data, m.done)
  }

  function VoteFrom(m: R.VoteRequest): VoteRequest {
    VoteRequest(m.target, m.term, m.candidateId, m.lastLogIndex, m.lastLogTerm)
  }

  function AppendEntriesResponseFrom(m: R.AppendEntriesResponse): AppendEntriesResponse {
    AppendEntriesResponse(
      m.term, m.success,
      match m.conflictOpt case None => None case Some(c) => Some(Conflict(ConflictOpt(c.term, c.index))))
  }

  function VoteResponseFrom(m: R.VoteResponse): VoteResponse {
    VoteResponse(m.term, m.voteGranted, m.isCandidateUnknown)
  }

  function InstallSnapshotResponseFrom(m: R.InstallSnapshotResponse): InstallSnapshotResponse {
    InstallSnapshotResponse(m.term)
  }

  function BodyFrom<D>(c: AppCodec<D>, rpc: R.Rpc<D>): Option<Body> {
    match rpc
    case AppendEntries(m) =>
      (match AppendEntriesFrom(c, m) case None => None case Some(w) => Some(Entries(w)))
    case Vote(m) => Some(VoteBody(VoteFrom(m)))
    case InstallSnapshot(m) => Some(Snapshots(InstallSnapshotFrom(m)))
  }

  /* ---------- from the wire ---------- */

  function IdsInto(ids: seq<NodeId>): seq<R.NodeId> {
    seq(|ids|, k requires 0 <= k < |ids| => ids[k].id)
  }

  function MembershipInto(m: MembershipConfig): R.MembershipConfig {
    R.MembershipConfig(m.isInJointConsensus, IdsInto(m.members), IdsInto(m.nonVoters), IdsInto(m.removing))
  }

  /** Missing or unreadable application data is a panic. */
  function NormalInto<D>(c: AppCodec<D>, n: EntryNormal): Option<R.EntryPayload<D>> {
    if n.entry.None? || n.entry.value.data.None? then None
    else match c.decode(n.entry.value.data.value.value)
      case None => None
      case Some(d) => Some(R.Normal(d))
  }

  function PayloadInto<D>(c: AppCodec<D>, p: Payload): Option<R.EntryPayload<D>> {
    match p
    case BlankPayload => Some(R.Blank)
    case NormalPayload(n) => NormalInto(c, n)
    case ConfigChangePayload(change) => Some(R.ConfigChange(MembershipInto(change)))
    case SnapshotPointerPayload(pointer) => Some(R.SnapshotPointer(pointer.path))
  }

  /** A missing payload is a panic. */
  function EntryInto<D>(c: AppCodec<D>, e: Entry): Option<R.Entry<D>> {
    if e.payload.None? then None
    else match PayloadInto(c, e.payload.value)
      case None => None
      case Some(p) => Some(R.Entry(e.term, e.index, p))
  }

  function EntriesInto<D>(c: AppCodec<D>, es: seq<Entry>): Option<seq<R.Entry<D>>> {
    if es == [] then Some([])
    else
      match (EntryInto(c, es[0]), EntriesInto(c, es[1..]))
      case (Some(e), Some(rest)) => Some([e] + rest)
      case (_, _) => None
  }

  function AppendEntriesInto<D>(c: AppCodec<D>, m: AppendEntriesRequest): Option<R.AppendEntriesRequest<D>> {
    match EntriesInto(c, m.entries)
    case None => None
    case Some(es) =>
      Some(R.AppendEntriesRequest(m.target, m.term, m.leaderId, m.prevLogIndex, m.prevLogTerm, es, m.leaderCommit))
  }

  function InstallSnapshotInto(m: InstallSnapshotRequest): R.InstallSnapshotRequest {
    R.InstallSnapshotRequest(
      m.target, m.term, m.leaderId, m.lastIncludedIndex, m.lastIncludedTerm, m.offset, m.data, m.done)
  }

  function VoteInto(m: VoteRequest): R.VoteRequest {
    R.VoteRequest(m.target, m.term, m.candidateId, m.lastLogIndex, m.lastLogTerm)
  }

  function AppendEntriesResponseInto(m: AppendEntriesResponse): R.AppendEntriesResponse {
    R.AppendEntriesResponse(
      m.term, m.success,
      match m.conflict
      case None => None
      case Some(c) => Some(R.ConflictOpt(c.conflictOpt.term, c.conflictOpt.index)))
  }

  function VoteResponseInto(m: VoteResponse): R.VoteResponse {
    R.VoteResponse(m.term, m.voteGranted, m.isCandidateUnknown)
  }

  function InstallSnapshotResponseInto(m: InstallSnapshotResponse): R.InstallSnapshotResponse {
    R.InstallSnapshotResponse(m.term)
  }

  function BodyInto<D>(c: AppCodec<D>, body: Body): Option<R.Rpc<D>> {
    match body
    case Entries(w) =>
      (match AppendEntriesInto(c, w) case None => None case Some(m) => Some(R.AppendEntries(m)))
    case VoteBody(w) => Some(R.Vote(VoteInto(w)))
    case Snapshots(w) => Some(R.InstallSnapshot(InstallSnapshotInto(w)))
  }

  /* ---------- round trips ---------- */

  /** The application data of a call can be serialized. */
  predicate Serializable<D>(c: AppCodec<D>, es: seq<R.Entry<D>>) {
    forall k :: 0 <= k < |es| && es[k].payload.Normal? ==> c.encode(es[k].payload.data).Some?
  }

  predicate Sendable<D>(c: AppCodec<D>, rpc: R.Rpc<D>) {
    rpc.AppendEntries? ==> Serializable(c, rpc.append.entries)
  }

  lemma IdsRoundTrip(ids: seq<R.NodeId>, wire: seq<NodeId>)
    ensures IdsInto(IdsFrom(ids)) == ids
    ensures IdsFrom(IdsInto(wire)) == wire
  {
  }

  lemma EntryRoundTrip<D(!new)>(c: AppCodec<D>, e: R.Entry<D>)
    requires Sound(c)
    ensures EntryFrom(c, e).Some? <==> Serializable(c, [e])
    ensures EntryFrom(c, e).Some? ==> EntryInto(c, EntryFrom(c, e).value) == Some(e)
  {
    match e.payload
    case ConfigChange(m) =>
      IdsRoundTrip(m.members, []);
      IdsRoundTrip(m.nonVoters, []);
      IdsRoundTrip(m.removing, []);
      assert MembershipInto(MembershipFrom(m)) == m;
    case _ =>
      assert [e][0] == e;
  }

  lemma {:induction false} EntriesRoundTrip<D(!new)>(c: AppCodec<D>, es: seq<R.Entry<D>>)
    requires Sound(c)
    ensures EntriesFrom(c, es).Some? <==> Serializable(c, es)
    ensures EntriesFrom(c, es).Some? ==> EntriesInto(c, EntriesFrom(c, es).value) == Some(es)
  {
    if es != [] {
      EntryRoundTrip(c, es[0]);
      EntriesRoundTrip(c, es[1..]);
      assert Serializable(c, es) <==> Serializable(c, [es[0]]) && Serializable(c, es[1..]) by {
        assert forall k :: 0 <= k < |es[1..]| ==> es[1..][k] == es[k + 1];
        assert [es[0]][0] == es[0];
        if Serializable(c, [es[0]]) && Serializable(c, es[1..]) {
          forall k | 0 <= k < |es| && es[k].payload.Normal? ensures c.encode(es[k].payload.data).Some? {
            assert k > 0 ==> es[1..][k - 1] == es[k];
          }
        }
      }
      if EntriesFrom(c, es).Some? {
        var w := EntriesFrom(c, es).value;
        assert w[1..] == EntriesFrom(c, es[1..]).value;
        assert es == [es[0]] + es[1..];
      }
    }
  }

  /**
   A call goes onto the wire exactly when its application data can be
   serialized, and then it is read back as it was: no panic on the way.
   */
  lemma CallRoundTrip<D(!new)>(c: AppCodec<D>, rpc: R.Rpc<D>)
    requires Sound(c)
    ensures BodyFrom(c, rpc).Some? <==> Sendable(c, rpc)
    ensures BodyFrom(c, rpc).Some? ==> BodyInto(c, BodyFrom(c, rpc).value) == Some(rpc)
  {
    if rpc.AppendEntries? {
      EntriesRoundTrip(c, rpc.append.entries);
    }
  }

  /** Responses survive the wire in both directions. */
  lemma ResponsesRoundTrip(
    a: R.AppendEntriesResponse, a': AppendEntriesResponse, v: R.VoteResponse, v': VoteResponse,
    s: R.InstallSnapshotResponse, s': InstallSnapshotResponse)
    ensures AppendEntriesResponseInto(AppendEntriesResponseFrom(a)) == a
    ensures AppendEntriesResponseFrom(AppendEntriesResponseInto(a')) == a'
    ensures VoteResponseInto(VoteResponseFrom(v)) == v && VoteResponseFrom(VoteResponseInto(v')) == v'
    ensures InstallSnapshotResponseInto(InstallSnapshotResponseFrom(s)) == s
    ensures InstallSnapshotResponseFrom(InstallSnapshotResponseInto(s')) == s'
  {
  }

  /* ---------- what travels in which field ---------- */

  predicate SameIds(ids: seq<R.NodeId>, wire: seq<NodeId>) {
    |wire| == |ids| && forall k :: 0 <= k < |ids| ==> wire[k].id == ids[k]
  }

  /** The wire entry tells the log entry, field by field. */
  predicate TellsEntry<D>(c: AppCodec<D>, e: R.Entry<D>, w: Entry) {
    && w.term == e.term && w.index == e.index && w.payload.Some?
    && match (e.payload, w.payload.value)
       case (Blank, BlankPayload) => true
       case (Normal(data), NormalPayload(normal)) =>
         && normal.entry.Some? && normal.entry.value.data.Some?
         && c.encode(data) == Some(normal.entry.value.data.value.value)
       case (ConfigChange(m), ConfigChangePayload(w)) =>
         && w.isInJointConsensus == m.isInJointConsensus && SameIds(m.members, w.members)
         && SameIds(m.nonVoters, w.nonVoters) && SameIds(m.removing, w.removing)
       case (SnapshotPointer(path), SnapshotPointerPayload(pointer)) => pointer.path == path
       case (_, _) => false
  }

  lemma {:induction false} EntriesTold<D>(c: AppCodec<D>, es: seq<R.Entry<D>>)
    requires EntriesFrom(c, es).Some?
    ensures |EntriesFrom(c, es).value| == |es|
    ensures forall k :: 0 <= k < |es| ==> TellsEntry(c, es[k], EntriesFrom(c, es).value[k])
  {
    if es != [] {
      EntriesTold(c, es[1..]);
      var w := EntriesFrom(c, es).value;
      assert w == [EntryFrom(c, es[0]).value] + EntriesFrom(c, es[1..]).value;
      forall k | 0 <= k < |es| ensures TellsEntry(c, es[k], w[k]) {
        if k > 0 {
          assert es[k] == es[1..][k - 1] && w[k] == EntriesFrom(c, es[1..]).value[k - 1];
        }
      }
    }
  }

  /** Each wire field of a call carries the field of the message that has its name. */
  lemma CallTold<D>(c: AppCodec<D>, rpc: R.Rpc<D>)
    requires BodyFrom(c, rpc).Some?
    ensures var body := BodyFrom(c, rpc).value;
            match rpc
            case AppendEntries(m) =>
              body.Entries? && var w := body.append;
              && w.target == m.target && w.term == m.term && w.leaderId == m.leaderId
              && w.prevLogIndex == m.prevLogIndex && w.prevLogTerm == m.prevLogTerm
              && w.leaderCommit == m.leaderCommit && |w.entries| == |m.entries|
              && forall k :: 0 <= k < |m.entries| ==> TellsEntry(c, m.entries[k], w.entries[k])
            case Vote(m) =>
              body.VoteBody? && var w := body.vote;
              && w.target == m.target && w.term == m.term && w.candidateId == m.candidateId
              && w.lastLogIndex == m.lastLogIndex && w.lastLogTerm == m.lastLogTerm
            case InstallSnapshot(m) =>
              body.Snapshots? && var w := body.install;
              && w.target == m.target && w.term == m.term && w.leaderId == m.leaderId
              && w.lastIncludedIndex == m.lastIncludedIndex && w.lastIncludedTerm == m.lastIncludedTerm
              && w.offset == m.offset && w.data == m.data && w.done == m.done
  {
    if rpc.AppendEntries? {
      EntriesTold(c, rpc.append.entries);
    }
  }

  /** The same for responses. */
  lemma ResponsesTold(a: R.AppendEntriesResponse, v: R.VoteResponse, s: R.InstallSnapshotResponse)
    ensures var w := AppendEntriesResponseFrom(a);
            && w.term == a.term && w.success == a.success && (w.conflict.Some? <==> a.conflictOpt.Some?)
            && (a.conflictOpt.Some? ==>
                  && w.conflict.value.conflictOpt.term == a.conflictOpt.value.term
                  && w.conflict.value.conflictOpt.index == a.conflictOpt.value.index)
    ensures var w := VoteResponseFrom(v);
            w.term == v.term && w.voteGranted == v.voteGranted && w.isCandidateUnknown == v.isCandidateUnknown
    ensures InstallSnapshotResponseFrom(s).term == s.term
  {
  }

  /** A wire entry that cannot be read: no payload, or a normal one without data that can be decoded. */
  predicate Unreadable<D>(c: AppCodec<D>, w: Entry) {
    || w.payload.None?
    || (&& w.payload.value.NormalPayload?
        && (|| w.payload.value.normal.entry.None?
            || w.payload.value.normal.entry.value.data.None?
            || c.decode(w.payload.value.normal.entry.value.data.value.value).None?))
  }

  /** Reading a list of wire entries panics exactly when it holds an entry that cannot be read. */
  lemma {:induction false} ReadingPanics<D>(c: AppCodec<D>, ws: seq<Entry>)
    ensures EntriesInto(c, ws).None? <==> exists k :: 0 <= k < |ws| && Unreadable(c, ws[k])
  {
    if ws != [] {
      ReadingPanics(c, ws[1..]);
      if k :| 0 <= k < |ws| && Unreadable(c, ws[k]) {
        if k > 0 {
          assert ws[1..][k - 1] == ws[k];
        }
      }
      if k :| 0 <= k < |ws| - 1 && Unreadable(c, ws[1..][k]) {
        assert ws[k + 1] == ws[1..][k];
      }
    }
  }
}
