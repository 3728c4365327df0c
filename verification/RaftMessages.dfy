/**
 The Raft messages that storage keeps and that the network forwards, in the
 shape the handlers see them. `D` is the application data of a log entry.
 */
module RaftMessages {
  import opened Wrappers

  type NodeId = nat
  type byte = x: int | 0 <= x < 256

  datatype MembershipConfig = MembershipConfig(
    isInJointConsensus: bool,
    members: seq<NodeId>,
    nonVoters: seq<NodeId>,
    removing: seq<NodeId>)

  /** The file of a snapshot: its directory and the log index that names it. */
  datatype SnapshotPath = SnapshotPath(dir: string, index: nat)

  datatype EntryPayload<D> =
    | Blank
    | Normal(data: D)
    | ConfigChange(membership: MembershipConfig)
    | SnapshotPointer(path: SnapshotPath)

  datatype Entry<D> = Entry(term: nat, index: nat, payload: EntryPayload<D>)

  predicate IsPointer<D>(e: Entry<D>) {
    e.payload.SnapshotPointer?
  }

  datatype AppendEntriesRequest<D> = AppendEntriesRequest(
    target: NodeId,
    term: nat,
    leaderId: NodeId,
    prevLogIndex: nat,
    prevLogTerm: nat,
    entries: seq<Entry<D>>,
    leaderCommit: nat)

  datatype ConflictOpt = ConflictOpt(term: nat, index: nat)

  datatype AppendEntriesResponse = AppendEntriesResponse(
    term: nat,
    success: bool,
    conflictOpt: Option<ConflictOpt>)

  datatype VoteRequest = VoteRequest(
    target: NodeId,
    term: nat,
    candidateId: NodeId,
    lastLogIndex: nat,
    lastLogTerm: nat)

  datatype VoteResponse = VoteResponse(term: nat, voteGranted: bool, isCandidateUnknown: bool)

  datatype InstallSnapshotRequest = InstallSnapshotRequest(
    target: NodeId,
    term: nat,
    leaderId: NodeId,
    lastIncludedIndex: nat,
    lastIncludedTerm: nat,
    offset: nat,
    data: seq<byte>,
    done: bool)

  datatype InstallSnapshotResponse = InstallSnapshotResponse(term: nat)

  /** The three remote procedure calls of the Raft protocol. */
  datatype Rpc<D> =
    | AppendEntries(append: AppendEntriesRequest<D>)
    | Vote(vote: VoteRequest)
    | InstallSnapshot(install: InstallSnapshotRequest)
  {
    function Target(): NodeId {
      match this
      case AppendEntries(m) => m.target
      case Vote(m) => m.target
      case InstallSnapshot(m) => m.target
    }

    /** The leader or candidate that sent the call. */
    function Sender(): NodeId {
      match this
      case AppendEntries(m) => m.leaderId
      case Vote(m) => m.candidateId
      case InstallSnapshot(m) => m.leaderId
    }
  }
}
