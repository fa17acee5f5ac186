/** src/ccm/lr/LR.cpp as a class over the member table and the replicated log. Every handler is
    proved to change the node's state as the function of the same step in Replication.dfy says. */
module LrClass {
  import opened LogModel
  import opened Membership
  import opened Replication
  import opened GmmClass
  import opened ReplicatedLogClass

  /** How long, in milliseconds, a node may be behind before it asks for a sync. */
  const SYNC_DELAY: int := 10000

  class LR {
    const gmm: GMM
    const repLog: ReplicatedLog
    var ongoingRepMsg: Option<LrMsg>
    var ongoingReqId: RequestId
    var reqDoneCb: Option<nat>
    var accepted: nat       // how many requests have been accepted; the next callback's token
    var syncTriggered: bool // the flag TriggerSync raises in the sync manager
    var lastInSync: int     // when the node was last known not to be behind
    var out: seq<LrMsg>
    var fired: seq<Completion>

    ghost predicate Valid()
      reads this, gmm
    {
      gmm.Valid()
    }

    ghost function State(): LrState
      reads this, gmm, repLog
    {
      LrState(gmm.myId, gmm.T(), repLog.entries, ongoingRepMsg, ongoingReqId, reqDoneCb, accepted,
              syncTriggered, out, fired)
    }

    predicate SyncDue(now: int)
      reads this
    {
      now - lastInSync > SYNC_DELAY
    }

    constructor (gmm: GMM, repLog: ReplicatedLog, now: int)
      requires gmm.Valid()
      ensures this.gmm == gmm && this.repLog == repLog && Valid() && lastInSync == now
      ensures State() == LrState(gmm.myId, gmm.T(), repLog.entries, None, NO_REQUEST, None, 0, false, [], [])
    {
      this.gmm, this.repLog := gmm, repLog;
      ongoingRepMsg, ongoingReqId, reqDoneCb := None, NO_REQUEST, None;
      accepted, syncTriggered, out, fired := 0, false, [], [];
      lastInSync := now;
    }

    method IsLogReplicationPending() returns (b: bool)
      ensures b == ValidId(ongoingReqId)
    {
      b := ongoingReqId.requestSeq != 0 && ongoingReqId.clientId != 0;
    }

    method ReplicateRequest(req: ClientMessage) returns (ok: bool)
      requires Valid()
      modifies this, gmm
      ensures Valid() && (State(), ok) == Propose(old(State()), req)
    {
      if ongoingRepMsg.Some? {
        return false;
      }
      var op := gmm.GetMyOpNumber();
      gmm.SetMyOpNumber(op + 1);
      op := gmm.GetMyOpNumber();
      var view := gmm.GetMyViewNumber();
      var msg := Prepare(op, view, gmm.myId, req);
      ongoingRepMsg := Some(msg);
      ongoingReqId := IdOf(req);
      reqDoneCb := Some(accepted);
      accepted := accepted + 1;
      gmm.ClearPendingPrepare();
      gmm.SetPendingPrepare(view, op);
      out := out + [msg];
      ok := true;
    }

    method HandlePrepare(op: nat, view: nat, src: int, payload: ClientMessage)
      requires Valid()
      modifies this, repLog`entries
      ensures Valid() && State() == OnPrepare(old(State()), op, view, src, payload) && lastInSync == old(lastInSync)
    {
      var myView := gmm.GetMyViewNumber();
      if myView <= view {
        var previous := repLog.ArePreviousEntriesInLog(op, view);
        if previous {
          var ok := repLog.AddEntryToLogIfNotAlreadyIn(op, view, payload);
          if ok {
            out := out + [PrepareOK(op, view, gmm.myId, src)];
          }
        } else {
          syncTriggered := true;
        }
      }
    }

    method HandleCommit(op: nat, view: nat)
      requires Valid()
      modifies this, repLog`entries
      ensures Valid() && State() == OnCommit(old(State()), op, view) && lastInSync == old(lastInSync)
    {
      var myView := gmm.GetMyViewNumber();
      if myView <= view {
        var existing := repLog.IsEntryAlreadyExisting(op, view);
        if existing {
          var ok := repLog.CommitEntryIfPresent(op, view);
        } else {
          syncTriggered := true;
        }
      }
    }

    method CallReqDoneCallback(status: Status)
      modifies this
      ensures State() == Fire(old(State()), status) && lastInSync == old(lastInSync)
    {
      if reqDoneCb.Some? {
        fired := fired + [Completion(reqDoneCb.value, ongoingReqId, status)];
      }
    }

    method HandlePrepareOk(op: nat, view: nat, src: int)
      requires Valid()
      modifies this, gmm
      ensures Valid() && State() == OnPrepareOk(old(State()), op, view, src)
    {
      gmm.SetPrepareOkRcvdIfMatchPending(src, view, op);
      var majority := gmm.IsAMajorityOfValidPrepareOkRcvd();
      if majority {
        out := out + [Commit(op, view, gmm.myId)];
        CallReqDoneCallback(Committed);
        ongoingRepMsg := None;
        reqDoneCb := None;
        ongoingReqId := NO_REQUEST;
      }
    }

    method HandleMsgAsLeader(msgs: seq<LrMsg>)
      requires Valid()
      modifies this, gmm, repLog`entries
      ensures Valid() && State() == LeaderAll(old(State()), msgs)
    {
      var i := 0;
      while i < |msgs|
        invariant 0 <= i <= |msgs| && Valid()
        invariant LeaderAll(State(), msgs[i..]) == LeaderAll(old(State()), msgs)
      {
        assert msgs[i..][1..] == msgs[i + 1..];
        match msgs[i] {
          case Prepare(op, view, src, payload) =>
            if src == gmm.myId {
              HandlePrepare(op, view, src, payload);
            }
          case PrepareOK(op, view, src, dst) =>
            HandlePrepareOk(op, view, src);
          case Commit(op, view, src) =>
            if src == gmm.myId {
              HandleCommit(op, view);
            }
        }
        i := i + 1;
      }
    }

    method HandleMsgAsFollower(msgs: seq<LrMsg>)
      requires Valid()
      modifies this, repLog`entries
      ensures Valid() && State() == FollowerAll(old(State()), msgs) && lastInSync == old(lastInSync)
    {
      var i := 0;
      while i < |msgs|
        invariant 0 <= i <= |msgs| && Valid() && lastInSync == old(lastInSync)
        invariant FollowerAll(State(), msgs[i..]) == FollowerAll(old(State()), msgs)
      {
        assert msgs[i..][1..] == msgs[i + 1..];
        match msgs[i] {
          case Prepare(op, view, src, payload) =>
            HandlePrepare(op, view, src, payload);
          case PrepareOK(_, _, _, _) =>
          case Commit(op, view, src) =>
            HandleCommit(op, view);
        }
        i := i + 1;
      }
    }

    method CheckAndHandleUncommitted()
      requires Valid()
      modifies repLog`entries
      ensures State() == old(State()).(log := CommitUpTo(old(repLog.entries), LargestCommitted(gmm.T())))
    {
      var k := gmm.GetHighestCommittedOpNumber();
      repLog.CommittAllEarlierEntries(k);
    }

    method CheckIfSyncShouldBeTriggeredAndTriggerIfNeeded(now: int)
      requires Valid()
      modifies this`syncTriggered, this`lastInSync
      ensures var behind := LargestOp(gmm.T()) > Row(gmm.T(), gmm.myId).committedOp;
              && syncTriggered == (old(syncTriggered) || (behind && old(SyncDue(now))))
              && lastInSync == if behind then old(lastInSync) else now
    {
      var highest := gmm.GetLargestOpNumberGossipedAndMySelf();
      var row := gmm.GetMember(gmm.myId);
      if highest > row.committedOp {
        if now - lastInSync > SYNC_DELAY {
          syncTriggered := true;
        }
      } else {
        lastInSync := now;
      }
    }

    /** The rest of the cycle once the messages have been handled. */
    method FinishActivityAsFollower(now: int)
      requires Valid()
      modifies this, gmm, repLog`entries
      ensures Valid() && State() == FollowerEnd(old(State()), old(SyncDue(now)))
      ensures lastInSync == if LargestOp(gmm.T()) > Row(gmm.T(), gmm.myId).committedOp then old(lastInSync) else now
    {
      CheckAndHandleUncommitted();
      var committed := repLog.GetHighestCommittedOpNumber();
      gmm.SetMyCommittedOpNumber(committed);
      CheckIfSyncShouldBeTriggeredAndTriggerIfNeeded(now);
    }

    method HandleActivityAsFollower(msgs: seq<LrMsg>, now: int)
      requires Valid()
      modifies this, gmm, repLog`entries
      ensures Valid() && State() == FollowerEnd(FollowerAll(FollowerBegin(old(State())), msgs), old(SyncDue(now)))
      ensures lastInSync == if LargestOp(gmm.T()) > Row(gmm.T(), gmm.myId).committedOp then old(lastInSync) else now
    {
      var latest := repLog.GetLatestEntryOpNumber();
      gmm.SetMyOpNumber(latest);
      HandleMsgAsFollower(msgs);
      FinishActivityAsFollower(now);
    }

    method BecameLeaderActivity()
      requires Valid()
      modifies gmm
      ensures Valid() && State() == BecameLeader(old(State()))
    {
      gmm.ClearPendingPrepare();
    }

    method NoLongerLeaderActivity()
      requires Valid()
      modifies this, gmm
      ensures Valid() && State() == NoLongerLeader(old(State())) && lastInSync == old(lastInSync)
    {
      gmm.ClearPendingPrepare();
      CallReqDoneCallback(Aborted);
      reqDoneCb := None;
    }

    method HasLatest() returns (b: bool)
      requires Valid()
      ensures b == HasLatestEntries(State())
    {
      var highest := gmm.GetLargestOpNumberGossipedAndMySelf();
      var mine := repLog.GetLatestEntryOpNumber();
      b := mine >= highest;
    }
  }
}
