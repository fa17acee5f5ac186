/** src/ccm/CCM.cpp: the periodic task over the election and replication objects. */
module CcmClass {
  import opened LogModel
  import opened LrClass
  import opened LeClass
  import opened NodeCycle

  class CCM {
    const le: LE
    const lr: LR

    constructor (le: LE, lr: LR)
      requires le.gmm == lr.gmm && le.Valid()
      ensures this.le == le && this.lr == lr && Valid()
    {
      this.le, this.lr := le, lr;
    }

    ghost predicate Valid()
      reads this, le, lr, le.gmm
    {
      le.gmm == lr.gmm && le.Valid()
    }

    ghost function State(): NodeState
      reads this, le, lr, le.gmm, lr.gmm, lr.repLog
    {
      NodeState(le.State(), lr.State(), lr.repLog.calls)
    }

    /** The source makes these calls from within the election; the election does not touch what they
        change and does not look at it. */
    method MakeRoleCallbacks(events: seq<Election.RoleEvent>)
      requires Valid()
      modifies lr, lr.gmm
      ensures Valid() && lr.State() == Notify(old(lr.State()), events) && lr.lastInSync == old(lr.lastInSync)
    {
      var i := 0;
      while i < |events|
        invariant 0 <= i <= |events| && Valid() && lr.lastInSync == old(lr.lastInSync)
        invariant Notify(lr.State(), events[i..]) == Notify(old(lr.State()), events)
      {
        assert events[i..][1..] == events[i + 1..];
        match events[i] {
          case Entered => lr.BecameLeaderActivity();
          case Left => lr.NoLongerLeaderActivity();
        }
        i := i + 1;
      }
    }

    method HandleIncomingClientRequestToLeader(client: Option<ClientMessage>)
      requires Valid()
      modifies lr, lr.gmm
      ensures Valid() && lr.State() == TakeRequest(old(lr.State()), client)
    {
      var pending := lr.IsLogReplicationPending();
      if pending {
        return;
      }
      var updated := lr.HasLatest();
      if !updated {
        return;
      }
      if client.Some? {
        var ok := lr.ReplicateRequest(client.value);
      }
    }

    method HandleElection(w: Waiting)
      requires Valid()
      modifies le, lr, lr.gmm
      ensures Valid() && lr.State() == Elected(old(State()), w).1 && lr.lastInSync == old(lr.lastInSync)
      ensures le.State() == Elected(old(State()), w).0.(t := lr.State().t)
    {
      ghost var n := State();
      var before := le.events;
      le.HandleActivity(w.elections, w.tmo);
      CycleRecords(n.le, w.elections, w.tmo);
      MakeRoleCallbacks(le.events[|before|..]);
    }

    method HandleReplication(w: Waiting, now: int)
      requires Valid() && w.syncDue == lr.SyncDue(now)
      modifies lr, lr.gmm, lr.repLog`entries
      ensures Valid() && lr.State() == Replicate(old(lr.State()), le.phase, w)
    {
      match le.phase {
        case Leader(_) =>
          HandleIncomingClientRequestToLeader(w.client);
          lr.HandleMsgAsLeader(w.msgs);
        case Follower =>
          lr.HandleActivityAsFollower(w.msgs, now);
        case Electing(_, _) =>
      }
    }

    method MakeUpcalls()
      requires Valid()
      modifies lr.repLog
      ensures Valid() && lr.State() == old(lr.State()).(log := MarkUpcalls(old(lr.repLog.entries), false))
      ensures lr.repLog.calls == old(lr.repLog.calls) + UpcallsDue(old(lr.repLog.entries), false)
    {
      lr.repLog.PerformUpcalls(false);
    }

    /** One pass of the loop in InstanceTaskMethod. `w.syncDue` is what the clock says. */
    method InstanceTask(w: Waiting, now: int)
      requires Valid() && w.syncDue == lr.SyncDue(now)
      modifies le, lr, lr.gmm, lr.repLog
      ensures Valid() && State() == Cycle(old(State()), w)
    {
      HandleElection(w);
      HandleReplication(w, now);
      MakeUpcalls();
    }
  }
}
