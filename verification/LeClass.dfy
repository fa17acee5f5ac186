/** src/ccm/le/LE.cpp with its states Follower, Electing and Leader, working on the member table. */
module LeClass {
  import opened LogModel
  import opened Membership
  import opened Election
  import opened GmmClass

  class LE {
    const gmm: GMM
    var phase: Phase // the current state object
    var out: seq<LeMsg>
    var events: seq<RoleEvent>

    ghost predicate Valid()
      reads this, gmm
    {
      gmm.Valid()
    }

    ghost function State(): LeState
      reads this, gmm
    {
      LeState(gmm.myId, gmm.T(), phase, out, events)
    }

    constructor (gmm: GMM)
      requires gmm.Valid()
      ensures this.gmm == gmm && Valid()
      ensures State() == LeState(gmm.myId, gmm.T(), Follower, [], [])
    {
      this.gmm := gmm;
      phase, out, events := Follower, [], [];
    }

    method SendStartElectionToAllMembers()
      requires Valid()
      modifies this`out
      ensures Valid() && State() == Send(old(State()), StartMsg(old(State())))
    {
      var view := gmm.GetMyViewNumber();
      out := out + [LeMsg(ElectionStart, view, 0, gmm.myId, 0, 0)];
    }

    method SendVote(dst: int)
      requires Valid()
      modifies this`out
      ensures Valid() && State() == Send(old(State()), VoteMsg(old(State()), dst))
    {
      var view := gmm.GetMyViewNumber();
      var op := gmm.GetMyOpNumber();
      out := out + [LeMsg(ElectionVote, view, op, gmm.myId, dst, 0)];
    }

    method Vote()
      requires Valid() && phase.Electing?
      modifies this, gmm
      ensures Valid() && State() == CastVote(old(State()))
    {
      if !phase.voteCast {
        var found, id := gmm.GetLowestQuorumConnectedId();
        if found {
          SendVote(id);
          if id == gmm.myId {
            gmm.AddLeaderVote(id);
          }
          phase := phase.(voteCast := true);
        }
      }
    }

    method PerformFirstTimeInStateActionsIfNeeded()
      requires Valid() && phase.Electing?
      modifies this, gmm
      ensures Valid() && State() == FirstTimeElecting(old(State()))
    {
      if phase.first {
        SendStartElectionToAllMembers();
        Vote();
        phase := phase.(first := false);
      }
    }

    method RestartElectionPeriod(view: nat)
      requires Valid() && phase.Electing?
      modifies this, gmm
      ensures Valid() && State() == Election.RestartElectionPeriod(old(State()), view)
    {
      gmm.ResetLeaderVoteCount();
      gmm.SetMyViewNumber(view);
      SendStartElectionToAllMembers();
      phase := phase.(voteCast := false);
    }

    method HandleVote(m: LeMsg)
      requires Valid() && phase.Electing?
      modifies this, gmm
      ensures Valid() && State() == OnVote(old(State()), m)
    {
      var myView := gmm.GetMyViewNumber();
      if m.view > myView {
        RestartElectionPeriod(m.view);
      }
      if m.view == myView {
        gmm.AddLeaderVote(m.voteDst);
        gmm.SetOpNumber(m.sender, m.op);
      }
    }

    method CheckMessageTypeAndActAccordingly(m: LeMsg)
      requires Valid() && phase.Electing?
      modifies this, gmm
      ensures Valid() && State() == OnElectingMsg(old(State()), m)
    {
      match m.kind {
        case ElectionVote =>
          HandleVote(m);
          var won := gmm.IsVoteCntForMySelfLargerThanMajority();
          if won {
            phase := Leader(true);
          }
        case ElectionStart =>
          var myView := gmm.GetMyViewNumber();
          if m.view > myView {
            RestartElectionPeriod(m.view);
          }
        case ElectionCompleted =>
          var myView := gmm.GetMyViewNumber();
          if m.view >= myView {
            phase := Follower;
          }
      }
    }

    method RestartElectionPeriodIfTmo(tmo: bool)
      requires Valid() && phase.Electing?
      modifies this, gmm
      ensures Valid() && State() == RestartIfTmo(old(State()), tmo)
    {
      if tmo {
        var largest := gmm.GetLargestViewNumber();
        RestartElectionPeriod(largest + 1);
      }
    }

    /** The middle part of Electing::HandleActivity. */
    method Elect(msg: Option<LeMsg>)
      requires Valid() && phase.Electing?
      modifies this, gmm
      ensures Valid() && State() == ElectionRound(old(State()), msg)
    {
      PerformFirstTimeInStateActionsIfNeeded();
      Vote();
      if msg.Some? {
        CheckMessageTypeAndActAccordingly(msg.value);
      }
    }

    method HandleElecting(msg: Option<LeMsg>, tmo: bool)
      requires Valid() && phase.Electing?
      modifies this, gmm
      ensures Valid() && State() == ElectingActivity(old(State()), msg, tmo)
    {
      var leader := gmm.GetLeaderId();
      if leader != INVALID_LEADER_ID {
        var view := gmm.GetViewNumber(leader);
        gmm.SetMyViewNumber(view);
        phase := Follower;
        return;
      }
      var qc := gmm.IsAnyMemberQuorumConnected();
      if qc {
        Elect(msg);
        if phase.Electing? {
          RestartElectionPeriodIfTmo(tmo);
        }
      } else {
        phase := Follower;
      }
    }

    method HandleFollower(msg: Option<LeMsg>, tmo: bool)
      requires Valid()
      modifies this, gmm
      ensures Valid() && State() == FollowerActivity(old(State()), msg, tmo)
    {
      gmm.ResetLeaderVoteCount();
      match msg {
        case Some(m) =>
          if 0 < m.viewWhenRcvd < m.view {
            if m.kind == ElectionVote {
              gmm.AddLeaderVote(m.voteDst);
              gmm.SetMyViewNumber(m.view);
              phase := Electing(true, false);
            } else if m.kind == ElectionCompleted {
              gmm.SetMyViewNumber(m.view);
              phase := Electing(true, false);
            }
          }
        case None =>
          var leader := gmm.GetLeaderId();
          if leader == INVALID_LEADER_ID && tmo {
            var qc := gmm.IsAnyMemberQuorumConnected();
            if qc {
              var largest := gmm.GetLargestViewNumber();
              gmm.SetMyViewNumber(largest + 1);
              phase := Electing(true, false);
            }
          }
      }
    }

    method HandleLeader(msg: Option<LeMsg>)
      requires Valid() && phase.Leader?
      modifies this, gmm
      ensures Valid() && State() == LeaderActivity(old(State()), msg)
    {
      if phase.first {
        gmm.SetMySelfToLeader();
        var view := gmm.GetMyViewNumber();
        out := out + [LeMsg(ElectionCompleted, view, 0, gmm.myId, 0, 0)];
        events := events + [Entered];
      }
      phase := Leader(false);
      var leave := false;
      if msg.Some? {
        var myView := gmm.GetMyViewNumber();
        if msg.value.view > myView {
          leave := true;
        }
      }
      var qc := gmm.IsQuorumConnected(gmm.myId);
      if !qc {
        leave := true;
      }
      if leave {
        gmm.RemoveMySelfAsLeader();
        events := events + [Left];
        phase := Follower;
      }
    }

    method HandleActivityAndChangeStateIfNeeded(msg: Option<LeMsg>, tmo: bool)
      requires Valid()
      modifies this, gmm
      ensures Valid() && State() == Activity(old(State()), msg, tmo)
    {
      match phase {
        case Follower => HandleFollower(msg, tmo);
        case Electing(_, _) => HandleElecting(msg, tmo);
        case Leader(_) => HandleLeader(msg);
      }
    }

    method HandleActivity(inputs: seq<Input>, tmo: bool)
      requires Valid()
      modifies this, gmm
      ensures Valid() && State() == Cycle(old(State()), inputs, tmo)
    {
      var i := 0;
      while i < |inputs|
        invariant 0 <= i <= |inputs| && Valid()
        invariant Messages(State(), inputs[i..]) == Messages(old(State()), inputs)
      {
        assert inputs[i..][1..] == inputs[i + 1..];
        HandleActivityAndChangeStateIfNeeded(Some(inputs[i].msg), inputs[i].tmo);
        i := i + 1;
      }
      HandleActivityAndChangeStateIfNeeded(None, tmo);
    }
  }
}
