/** The log replication handlers of src/ccm/lr/LR.cpp as functions of one node's state. `out` holds
    every message the node has handed to its senders, `fired` every call of a request's callback. */
module Replication {
  import opened LogModel
  import opened Membership

  datatype RequestId = RequestId(requestSeq: nat, clientId: nat)

  const NO_REQUEST := RequestId(0, 0)

  predicate ValidId(r: RequestId) { r.requestSeq != 0 && r.clientId != 0 }

  function IdOf(m: ClientMessage): RequestId { RequestId(m.requestSeq, m.clientId) }

  datatype Status = Committed | Aborted

  /** Callback number `token` was called; tokens number the accepted requests. */
  datatype Completion = Completion(token: nat, req: RequestId, status: Status)

  datatype LrState = LrState(
    me: int,
    t: Table,
    log: seq<Entry>,
    ongoing: Option<LrMsg>,
    ongoingReq: RequestId,
    cb: Option<nat>,
    accepted: nat,
    syncTriggered: bool,
    out: seq<LrMsg>,
    fired: seq<Completion>)

  function MyView(st: LrState): nat { Row(st.t, st.me).view }

  function MyOp(st: LrState): nat { Row(st.t, st.me).op }

  function Propose(st: LrState, req: ClientMessage): (LrState, bool) {
    if st.ongoing.Some? then (st, false)
    else
      var t1 := SetOp(st.t, st.me, MyOp(st) + 1);
      var view, op := Row(t1, st.me).view, Row(t1, st.me).op;
      var msg := Prepare(op, view, st.me, req);
      (st.(t := SetPending(ClearPending(t1), view, op), ongoing := Some(msg), ongoingReq := IdOf(req),
           cb := Some(st.accepted), accepted := st.accepted + 1, out := st.out + [msg]), true)
  }

  function OnPrepare(st: LrState, op: nat, view: nat, src: int, payload: ClientMessage): LrState {
    if MyView(st) <= view then
      if PreviousInLog(st.log, op, view) then
        var (log', ok) := AddEntry(st.log, op, view, payload);
        if ok then st.(log := log', out := st.out + [PrepareOK(op, view, st.me, src)])
        else st.(log := log')
      else st.(syncTriggered := true)
    else st
  }

  function OnCommit(st: LrState, op: nat, view: nat): LrState {
    if MyView(st) <= view then
      if AlreadyIn(st.log, op, view) then st.(log := CommitEntry(st.log, op, view).0)
      else st.(syncTriggered := true)
    else st
  }

  function Fire(st: LrState, status: Status): LrState {
    match st.cb
    case Some(token) => st.(fired := st.fired + [Completion(token, st.ongoingReq, status)])
    case None => st
  }

  function OnPrepareOk(st: LrState, op: nat, view: nat, src: int): LrState {
    var st1 := st.(t := MarkOk(st.t, src, view, op));
    if OkMajority(st1.t) then
      Fire(st1.(out := st1.out + [Commit(op, view, st.me)]), Committed)
        .(ongoing := None, cb := None, ongoingReq := NO_REQUEST)
    else st1
  }

  /** HandleMsgAsLeader: a leader takes Prepare and Commit only from itself. */
  function LeaderReceives(st: LrState, m: LrMsg): LrState {
    match m
    case Prepare(op, view, src, payload) => if src == st.me then OnPrepare(st, op, view, src, payload) else st
    case PrepareOK(op, view, src, dst) => OnPrepareOk(st, op, view, src)
    case Commit(op, view, src) => if src == st.me then OnCommit(st, op, view) else st
  }

  /** HandleMsgAsFollower: a follower discards PrepareOK. */
  function FollowerReceives(st: LrState, m: LrMsg): LrState {
    match m
    case Prepare(op, view, src, payload) => OnPrepare(st, op, view, src, payload)
    case PrepareOK(op, view, src, dst) => st
    case Commit(op, view, src) => OnCommit(st, op, view)
  }

  function FollowerBegin(st: LrState): LrState { st.(t := SetOp(st.t, st.me, LatestOp(st.log))) }

  /** The rest of a follower's cycle: commit what gossip says is committed, publish the own commit
      point, and ask for a sync when it lags the largest number heard of for too long. */
  function FollowerEnd(st: LrState, syncDue: bool): LrState {
    var log' := CommitUpTo(st.log, LargestCommitted(st.t));
    var t' := SetCommittedOp(st.t, st.me, HighestCommitted(log'));
    st.(log := log', t := t',
        syncTriggered := st.syncTriggered || (LargestOp(t') > Row(t', st.me).committedOp && syncDue))
  }

  function FollowerAll(st: LrState, msgs: seq<LrMsg>): LrState
    decreases |msgs|
  {
    if msgs == [] then st else FollowerAll(FollowerReceives(st, msgs[0]), msgs[1..])
  }

  function LeaderAll(st: LrState, msgs: seq<LrMsg>): LrState
    decreases |msgs|
  {
    if msgs == [] then st else LeaderAll(LeaderReceives(st, msgs[0]), msgs[1..])
  }

  function BecameLeader(st: LrState): LrState { st.(t := ClearPending(st.t)) }

  function NoLongerLeader(st: LrState): LrState {
    Fire(st.(t := ClearPending(st.t)), Aborted).(cb := None)
  }

  predicate HasLatestEntries(st: LrState) { LatestOp(st.log) >= LargestOp(st.t) }
}
