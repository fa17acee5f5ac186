/** src/ccm/gmm/GMM.cpp and the heartbeat updates of src/ccm/fd/FD.cpp as a class over the member map.
    Each locked method is one step; every loop runs over the members in the map's iteration order. */
module GmmClass {
  import opened Membership

  class GMM {
    const myId: int
    const order: seq<int>
    var members: map<int, Member>

    ghost predicate Valid()
      reads this
    {
      ValidTable(T())
    }

    ghost function T(): Table
      reads this
    {
      Table(order, members)
    }

    constructor (myId: int, order: seq<int>)
      requires forall i, j :: 0 <= i < j < |order| ==> order[i] != order[j]
      ensures this.myId == myId && this.order == order && Valid()
      ensures members == map id | id in order :: FRESH_MEMBER
    {
      this.myId := myId;
      this.order := order;
      members := map id | id in order :: FRESH_MEMBER;
    }

    method GetMember(id: int) returns (row: Member)
      ensures row == Row(T(), id)
    {
      row := FRESH_MEMBER;
      if id in members {
        row := members[id];
      }
    }

    method PutMember(id: int, row: Member)
      requires Valid()
      modifies this
      ensures Valid() && T() == SetRow(old(T()), id, row)
    {
      if id in members {
        members := members[id := row];
      }
    }

    method GetMyViewNumber() returns (v: nat)
      ensures v == Row(T(), myId).view
    {
      var row := GetMember(myId);
      v := row.view;
    }

    method SetMyViewNumber(v: nat)
      requires Valid()
      modifies this
      ensures Valid() && T() == SetView(old(T()), myId, v)
    {
      var row := GetMember(myId);
      PutMember(myId, row.(view := v));
    }

    method GetViewNumber(id: int) returns (v: nat)
      ensures v == Row(T(), id).view
    {
      var row := GetMember(id);
      v := row.view;
    }

    method GetMyOpNumber() returns (op: nat)
      ensures op == Row(T(), myId).op
    {
      var row := GetMember(myId);
      op := row.op;
    }

    method SetMyOpNumber(op: nat)
      requires Valid()
      modifies this
      ensures Valid() && T() == SetOp(old(T()), myId, op)
    {
      SetOpNumber(myId, op);
    }

    method SetOpNumber(id: int, op: nat)
      requires Valid()
      modifies this
      ensures Valid() && T() == SetOp(old(T()), id, op)
    {
      var row := GetMember(id);
      PutMember(id, row.(op := op));
    }

    method SetMyCommittedOpNumber(op: nat)
      requires Valid()
      modifies this
      ensures Valid() && T() == SetCommittedOp(old(T()), myId, op)
    {
      var row := GetMember(myId);
      PutMember(myId, row.(committedOp := op));
    }

    method SetMySelfToLeader()
      requires Valid()
      modifies this
      ensures Valid() && T() == SetLeader(old(T()), myId, myId)
    {
      var row := GetMember(myId);
      PutMember(myId, row.(leaderId := myId));
    }

    method RemoveMySelfAsLeader()
      requires Valid()
      modifies this
      ensures Valid() && T() == SetLeader(old(T()), myId, INVALID_LEADER_ID)
    {
      var row := GetMember(myId);
      PutMember(myId, row.(leaderId := INVALID_LEADER_ID));
    }

    method AddLeaderVote(id: int)
      requires Valid()
      modifies this
      ensures Valid() && T() == AddVote(old(T()), id)
    {
      var row := GetMember(id);
      PutMember(id, row.(votes := row.votes + 1));
    }

    method ResetLeaderVoteCount()
      requires Valid()
      modifies this
      ensures Valid() && T() == ResetVotes(old(T()))
    {
      ghost var was := members;
      var i := 0;
      while i < |order|
        invariant 0 <= i <= |order|
        invariant members.Keys == was.Keys && Valid()
        invariant forall k :: 0 <= k < i ==> members[order[k]] == was[order[k]].(votes := 0)
        invariant forall k :: i <= k < |order| ==> members[order[k]] == was[order[k]]
      {
        var id := order[i];
        members := members[id := members[id].(votes := 0)];
        i := i + 1;
      }
      forall id | id in members ensures members[id] == was[id].(votes := 0) {
        var k :| 0 <= k < |order| && order[k] == id;
      }
      assert members == ResetVotes(old(T())).rows;
    }

    method SetPendingPrepare(view: nat, op: nat)
      requires Valid()
      modifies this
      ensures Valid() && T() == SetPending(old(T()), view, op)
    {
      ghost var was := members;
      var i := 0;
      while i < |order|
        invariant 0 <= i <= |order|
        invariant members.Keys == was.Keys && Valid()
        invariant forall k :: 0 <= k < i ==> members[order[k]] == PendingRow(was[order[k]], view, op)
        invariant forall k :: i <= k < |order| ==> members[order[k]] == was[order[k]]
      {
        var id := order[i];
        members := members[id := members[id].(pendingView := view, pendingOp := op, okRcvd := false)];
        i := i + 1;
      }
      forall id | id in members ensures members[id] == PendingRow(was[id], view, op) {
        var k :| 0 <= k < |order| && order[k] == id;
      }
      assert members == SetPending(old(T()), view, op).rows;
    }

    method ClearPendingPrepare()
      requires Valid()
      modifies this
      ensures Valid() && T() == ClearPending(old(T()))
    {
      SetPendingPrepare(INVALID_REQ_ID, INVALID_REQ_ID);
    }

    method SetPrepareOkRcvdIfMatchPending(id: int, view: nat, op: nat)
      requires Valid()
      modifies this
      ensures Valid() && T() == MarkOk(old(T()), id, view, op)
    {
      var row := GetMember(id);
      if view != INVALID_REQ_ID && op != INVALID_REQ_ID {
        if view == row.pendingView && op == row.pendingOp {
          row := row.(okRcvd := true);
        }
      }
      PutMember(id, row);
    }

    method GetValidPrepareOkCnt() returns (n: nat)
      requires Valid()
      ensures n == |OkSet(T())|
    {
      n := 0;
      var i := 0;
      ghost var seen: set<int> := {};
      while i < |order|
        invariant 0 <= i <= |order|
        invariant forall id :: id in seen <==> exists k :: 0 <= k < i && order[k] == id && members[id].okRcvd
        invariant n == |seen|
      {
        var id := order[i];
        if members[id].okRcvd {
          assert id !in seen;
          n := n + 1;
          seen := seen + {id};
        }
        i := i + 1;
      }
      forall id ensures id in seen <==> id in OkSet(T()) {
        if id in OkSet(T()) {
          var k :| 0 <= k < |order| && order[k] == id;
        }
      }
      assert seen == OkSet(T());
    }

    method IsAMajorityOfValidPrepareOkRcvd() returns (b: bool)
      requires Valid()
      ensures b == OkMajority(T())
    {
      var n := GetValidPrepareOkCnt();
      b := n >= |members| / 2 + 1;
    }

    method IsVoteCntForMySelfLargerThanMajority() returns (b: bool)
      ensures b == VoteMajority(T(), myId)
    {
      b := false;
      if myId in members {
        b := members[myId].votes >= |members| / 2 + 1;
      }
    }

    method IsQuorumConnected(id: int) returns (b: bool)
      ensures b == IsQc(T(), id)
    {
      b := false;
      if id in members {
        b := |members[id].connections| + 1 >= |members| / 2 + 1;
      }
    }

    method IsAnyMemberQuorumConnected() returns (b: bool)
      requires Valid()
      ensures b == AnyQc(T())
      ensures b <==> exists id :: IsQc(T(), id)
    {
      AnyQcMeaning(T());
      b := false;
      var i := 0;
      while i < |order|
        invariant 0 <= i <= |order|
        invariant forall k :: 0 <= k < i ==> !IsQc(T(), order[k])
      {
        b := IsQuorumConnected(order[i]);
        if b {
          assert IsQc(T(), T().order[i]);
          return;
        }
        i := i + 1;
      }
      b := false;
    }

    method GetLowestQuorumConnectedId() returns (found: bool, id: int)
      requires Valid()
      ensures (found, id) == LowestQc(T())
      ensures found <==> exists k :: IsQc(T(), k)
      ensures found ==> IsQc(T(), id)
      ensures !IsQc(T(), 0) ==> forall k :: IsQc(T(), k) ==> id <= k
    {
      found, id := false, 0;
      var i := 0;
      while i < |order|
        invariant 0 <= i <= |order|
        invariant LowestQcFrom(T(), i, found, id) == LowestQc(T())
      {
        var b := IsQuorumConnected(order[i]);
        if b {
          if id == 0 || order[i] < id {
            id := order[i];
            found := true;
          }
        }
        i := i + 1;
      }
      LowestQcMeaning(T());
    }

    method GetLeaderId() returns (leader: int)
      requires Valid()
      ensures leader == LeaderId(T())
    {
      leader := INVALID_LEADER_ID;
      var i := 0;
      while i < |order|
        invariant 0 <= i <= |order|
        invariant LeaderFrom(T(), i, leader) == LeaderId(T())
      {
        leader := members[order[i]].leaderId;
        if leader != INVALID_LEADER_ID && leader == order[i] {
          return;
        }
        i := i + 1;
      }
    }

    method GetLargestViewNumber() returns (h: nat)
      requires Valid()
      ensures h == LargestView(T())
      ensures forall id :: id in members ==> members[id].view <= h
      ensures h > 0 ==> exists id :: id in members && members[id].view == h
    {
      h := 0;
      ghost var f := (r: Member) => r.view;
      var i := 0;
      while i < |order|
        invariant 0 <= i <= |order|
        invariant h == LargestTo(T(), f, i)
      {
        var v := members[order[i]].view;
        if v > h {
          h := v;
        }
        i := i + 1;
      }
      LargestMeaning(T(), f);
    }

    method GetHighestCommittedOpNumber() returns (h: nat)
      requires Valid()
      ensures h == LargestCommitted(T())
      ensures forall id :: id in members ==> members[id].committedOp <= h
      ensures h > 0 ==> exists id :: id in members && members[id].committedOp == h
    {
      h := 0;
      ghost var f := (r: Member) => r.committedOp;
      var i := 0;
      while i < |order|
        invariant 0 <= i <= |order|
        invariant h == LargestTo(T(), f, i)
      {
        if members[order[i]].committedOp > h {
          h := members[order[i]].committedOp;
        }
        i := i + 1;
      }
      LargestMeaning(T(), f);
    }

    method GetLargestOpNumberGossipedAndMySelf() returns (h: nat)
      requires Valid()
      ensures h == LargestOp(T())
      ensures forall id :: id in members ==> members[id].op <= h
      ensures h > 0 ==> exists id :: id in members && members[id].op == h
    {
      h := 0;
      ghost var f := (r: Member) => r.op;
      var i := 0;
      while i < |order|
        invariant 0 <= i <= |order|
        invariant h == LargestTo(T(), f, i)
      {
        if members[order[i]].op > h {
          h := members[order[i]].op;
        }
        i := i + 1;
      }
      LargestMeaning(T(), f);
      var row := GetMember(myId);
      if row.op > h {
        h := row.op;
      }
    }

    /** `late` are the members whose last heartbeat is too old. */
    method UpdateConnectionStatusForMySelf(late: set<int>)
      requires Valid()
      modifies this
      ensures Valid() && T() == CheckContact(old(T()), myId, late)
    {
      if myId !in members {
        return;
      }
      ghost var was, seen: set<int> := T(), {};
      NothingLookedAt(was, myId, late);
      var i := 0;
      while i < |order|
        invariant 0 <= i <= |order| && Valid() && members.Keys == was.rows.Keys
        invariant forall id :: id in seen <==> id != myId && exists k :: 0 <= k < i && order[k] == id
        invariant T() == Checked(was, myId, seen, late)
      {
        var id := order[i];
        if id != myId {
          LookedAt(was, myId, seen, id, late);
          LookAtMember(id, id in late);
          seen := seen + {id};
        }
        i := i + 1;
      }
      AllLookedAt(was, myId, seen);
    }

    method LookAtMember(id: int, late: bool)
      requires Valid() && id in members && myId in members && id != myId
      modifies this
      ensures Valid() && T() == LookAt(old(T()), myId, id, if late then {id} else {})
    {
      var mine := members[myId].connections;
      if late {
        if 0 <= id <= MAX_MEMBERS {
          mine := mine - {id};
        }
        members := members[myId := members[myId].(connections := mine)];
        members := members[id := members[id].(leaderId := INVALID_LEADER_ID, connections := {})];
      } else {
        if 0 <= id <= MAX_MEMBERS {
          mine := mine + {id};
        }
        members := members[myId := members[myId].(connections := mine)];
      }
    }

    // ----- FD.cpp -----

    method Populate() returns (hb: Heartbeat)
      requires Valid()
      ensures hb == MakeHeartbeat(T(), myId)
    {
      var row := GetMember(myId);
      var leader := GetLeaderId();
      hb := Heartbeat(myId, leader, row.view, row.op, row.committedOp, row.connections);
    }

    method HandleHeartbeat(hb: Heartbeat)
      requires Valid()
      modifies this
      ensures Valid() && T() == ReceiveHeartbeat(old(T()), myId, hb)
    {
      var row := GetMember(hb.sender);
      PutMember(hb.sender, row.(connections := hb.connections, leaderId := hb.leaderId,
                                view := hb.view, op := hb.op, committedOp := hb.committedOp));
      var mine := GetMember(myId);
      if 0 <= hb.sender <= MAX_MEMBERS {
        mine := mine.(connections := mine.connections + {hb.sender});
      }
      var leader := GetLeaderId();
      if leader == hb.sender {
        if mine.view < hb.view {
          mine := mine.(view := hb.view);
        }
      }
      PutMember(myId, mine);
    }
  }
}
