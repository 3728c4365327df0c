/** The network's status timeline and its sets of connected and isolated nodes. */
module NetStateSpec {
  import opened Wrappers
  import opened RaftMessages

  datatype Status = Joining | WeaklyUp | Up | Leaving | Exiting | Down | Removed

  /** Nanoseconds since some fixed instant. */
  type Time = int

  datatype StatusEntry = StatusEntry(status: Status, entry: Time, exit: Option<Time>)

  datatype NetState = NetState(
    status: Status,
    timeline: seq<StatusEntry>,
    connected: set<NodeId>,
    isolated: set<NodeId>)

  function Default(now: Time): NetState {
    NetState(Joining, [StatusEntry(Joining, now, None)], {}, {})
  }

  /** The status changes that are accepted. */
  predicate Legal(current: Status, next: Status) {
    match (current, next)
    case (Removed, _) => false
    case (_, Down) => true
    case (Joining, WeaklyUp) => true
    case (Joining, Up) => true
    case (WeaklyUp, Up) => true
    case (Up, Leaving) => true
    case (Leaving, Exiting) => true
    case (Down, Removed) => true
    case (Exiting, Removed) => true
    case (_, _) => false
  }

  /** None is the panic on an illegal change. */
  function Advance(s: NetState, next: Status, now: Time): Option<NetState> {
    if !Legal(s.status, next) || s.timeline == [] then None
    else
      var last := |s.timeline| - 1;
      Some(s.(status := next,
      timeline := s.timeline[..last] + [s.timeline[last].(exit := Some(now)), StatusEntry(next, now, None)]))
  }

  function IsolateNode(s: NetState, id: NodeId): NetState {
    if id in s.isolated then s
    else s.(isolated := s.isolated + {id}, connected := s.connected - {id})
  }

  function RestoreNode(s: NetState, id: NodeId): NetState {
    if id in s.isolated then s.(connected := s.connected + {id}, isolated := s.isolated - {id})
    else s
  }

  /* ---------- durations ---------- */

  const NANOS_PER_MILLI := 1_000_000

  /** Whole milliseconds, rounded toward zero. */
  function Millis(d: int): int {
    if d >= 0 then d / NANOS_PER_MILLI else -(-d / NANOS_PER_MILLI)
  }

  function EntryMillis(e: StatusEntry, now: Time): int {
    Millis((match e.exit case Some(t) => t case None => now) - e.entry)
  }

  function SumIn(es: seq<StatusEntry>, status: Status, now: Time): int {
    if es == [] then 0
    else (if es[0].status == status then EntryMillis(es[0], now) else 0) + SumIn(es[1..], status, now)
  }

  /** None is the panic on a negative total. */
  function DurationIn(s: NetState, status: Status, now: Time): Option<nat> {
    var total := SumIn(s.timeline, status, now);
    if total < 0 then None else Some(total)
  }

  /* ---------- status driven by Raft metrics ---------- */

  datatype RaftState = NonVoter | Follower | Candidate | Leader

  /** None is the panic of an illegal change. */
  function OnRaftState(s: NetState, raft: RaftState, now: Time): Option<NetState> {
    match (s.status, raft)
    case (Joining, NonVoter) => Some(s)
    case (Joining, _) => Advance(s, Up, now)
    case (WeaklyUp, NonVoter) => Some(s)
    case (WeaklyUp, _) => Advance(s, Up, now)
    case (Down, NonVoter) => Advance(s, Joining, now)
    case (Down, _) => Some(s)
    case (Up, NonVoter) => Advance(s, Leaving, now)
    case (Up, _) => Some(s)
    case (Leaving, _) => Some(s)
    case (Exiting, _) => Some(s)
    case (Removed, _) => Some(s)
  }
}
