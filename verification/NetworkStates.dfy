/** The network's status and node sets as the mutable record the network owns. */
module NetworkStates {
  import opened Wrappers
  import opened RaftMessages
  import opened NetStateSpec
  import NetStateLemmas

  class NetworkState {
    var status: Status
    var log: seq<StatusEntry>
    var connectedNodes: set<NodeId>
    var isolatedNodes: set<NodeId>

    ghost function State(): NetState
      reads this
    {
      NetState(status, log, connectedNodes, isolatedNodes)
    }

    constructor (now: Time)
      ensures State() == Default(now)
    {
      status, log, connectedNodes, isolatedNodes := Joining, [StatusEntry(Joining, now, None)], {}, {};
    }

    /** Calling this for a change that is not accepted is a panic, so callers must not. */
    method Advance(next: Status, now: Time) returns (previous: Status)
      requires Legal(status, next) && log != []
      modifies this`status, this`log
      ensures NetStateSpec.Advance(old(State()), next, now) == Some(State())
      ensures previous == old(status)
    {
      var last := |log| - 1;
      log := log[last := log[last].(exit := Some(now))];
      previous := status;
      status := next;
      log := log + [StatusEntry(next, now, None)];
      assert log == old(log)[..last] + [old(log)[last].(exit := Some(now)), StatusEntry(next, now, None)];
    }

    method IsolateNode(id: NodeId)
      modifies this`connectedNodes, this`isolatedNodes
      ensures State() == NetStateSpec.IsolateNode(old(State()), id)
    {
      if id !in isolatedNodes {
        isolatedNodes := isolatedNodes + {id};
        connectedNodes := connectedNodes - {id};
      }
    }

    method RestoreNode(id: NodeId)
      modifies this`connectedNodes, this`isolatedNodes
      ensures State() == NetStateSpec.RestoreNode(old(State()), id)
    {
      if id in isolatedNodes {
        connectedNodes := connectedNodes + {id};
        isolatedNodes := isolatedNodes - {id};
      }
    }

    /**
     The time spent in a status. A negative total is a panic, so callers must not
     ask for one; on a timeline that follows a clock that never ran backwards
     there is none.
     */
    method DurationIn(status: Status, now: Time) returns (millis: nat)
      requires SumIn(log, status, now) >= 0
      ensures NetStateSpec.DurationIn(State(), status, now) == Some(millis)
    {
      var total := 0;
      var n := 0;
      while n < |log|
        invariant 0 <= n <= |log|
        invariant total == SumIn(log[..n], status, now)
      {
        NetStateLemmas.SumInSplit(log[..n + 1], n, status, now);
        assert log[..n + 1][..n] == log[..n] && log[..n + 1][n..] == [log[n]];
        if log[n].status == status {
          total := total + EntryMillis(log[n], now);
        }
        n := n + 1;
      }
      assert log[..n] == log;
      millis := total;
    }
  }
}
