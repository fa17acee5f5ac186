/** What a client is told: over every run of one node's replication steps, each accepted request is
    answered at most once, and answered "committed" only after a quorum acknowledged it. */
module RequestCompletion {
  import opened LogModel
  import opened Membership
  import opened Quorum
  import opened Replication

  datatype Event =
    | Request(req: ClientMessage)
    | AsLeader(m: LrMsg)
    | AsFollower(m: LrMsg)
    | FollowerStarts
    | FollowerEnds(syncDue: bool)
    | Elected
    | Deposed
    | Heard(hb: Heartbeat)

  function StepLr(st: LrState, e: Event): LrState {
    match e
    case Request(req) => Propose(st, req).0
    case AsLeader(m) => LeaderReceives(st, m)
    case AsFollower(m) => FollowerReceives(st, m)
    case FollowerStarts => FollowerBegin(st)
    case FollowerEnds(syncDue) => FollowerEnd(st, syncDue)
    case Elected => BecameLeader(st)
    case Deposed => NoLongerLeader(st)
    case Heard(hb) => st.(t := ReceiveHeartbeat(st.t, st.me, hb))
  }

  function RunLr(st: LrState, events: seq<Event>): LrState
    decreases |events|
  {
    if events == [] then st else RunLr(StepLr(st, events[0]), events[1..])
  }

  // ----- the node with a record of what it was asked and what was answered -----

  /** Member `src` answered PrepareOK for request `token` after it was proposed. */
  datatype Answer = Answer(token: nat, src: int)

  /** `asked[k]` is the (view, op) request k was proposed with. */
  datatype Recorded = Recorded(lr: LrState, asked: seq<(nat, nat)>, answers: set<Answer>)

  function Step(r: Recorded, e: Event): Recorded {
    var lr' := StepLr(r.lr, e);
    match e
    case Request(req) =>
      if Propose(r.lr, req).1 then Recorded(lr', r.asked + [(MyView(lr'), MyOp(lr'))], r.answers)
      else r.(lr := lr')
    case AsLeader(PrepareOK(op, view, src, dst)) =>
      if r.asked != [] && r.asked[|r.asked| - 1] == (view, op)
      then Recorded(lr', r.asked, r.answers + {Answer(|r.asked| - 1, src)})
      else r.(lr := lr')
    case _ => r.(lr := lr')
  }

  function RunRecorded(r: Recorded, events: seq<Event>): Recorded
    decreases |events|
  {
    if events == [] then r else RunRecorded(Step(r, events[0]), events[1..])
  }

  /** The members that answered request `token`. */
  function Answerers(r: Recorded, token: nat): set<int> {
    set id | id in r.lr.t.rows && Answer(token, id) in r.answers
  }

  ghost predicate PendingMatches(r: Recorded, id: int)
    requires id in r.lr.t.rows
  {
    var row := r.lr.t.rows[id];
    && (row.okRcvd ==> row.pendingOp != INVALID_REQ_ID)
    && (row.pendingOp != INVALID_REQ_ID ==> r.asked != [] && (row.pendingView, row.pendingOp) == r.asked[|r.asked| - 1])
    && (row.okRcvd ==> Answer(|r.asked| - 1, id) in r.answers)
  }

  ghost predicate CompletionOk(r: Recorded, c: Completion) {
    && c.token < |r.asked|
    && (c.status.Committed? ==> |Answerers(r, c.token)| >= QuorumSize(|r.lr.t.rows|))
  }

  ghost predicate Inv(r: Recorded) {
    && r.lr.accepted == |r.asked|
    && (forall id :: id in r.lr.t.rows ==> PendingMatches(r, id))
    && (r.lr.cb.Some? ==> r.asked != [] && r.lr.cb.value == |r.asked| - 1)
    && (forall k :: 0 <= k < |r.lr.fired| ==> CompletionOk(r, r.lr.fired[k]))
    && (forall k :: 0 <= k < |r.lr.fired| && r.lr.cb.Some? ==> r.lr.fired[k].token != r.lr.cb.value)
    && (forall j, k :: 0 <= j < k < |r.lr.fired| ==> r.lr.fired[j].token != r.lr.fired[k].token)
  }

  /** Rows whose pending part did not change. */
  ghost predicate PendingKept(a: Table, b: Table) {
    && a.rows.Keys == b.rows.Keys
    && forall id :: id in a.rows ==>
         && b.rows[id].pendingView == a.rows[id].pendingView
         && b.rows[id].pendingOp == a.rows[id].pendingOp
         && b.rows[id].okRcvd == a.rows[id].okRcvd
  }

  lemma QuietStepKeepsInv(r: Recorded, r': Recorded)
    requires Inv(r)
    requires PendingKept(r.lr.t, r'.lr.t)
    requires r'.asked == r.asked && r'.answers == r.answers
    requires r'.lr.accepted == r.lr.accepted && r'.lr.cb == r.lr.cb && r'.lr.fired == r.lr.fired
    ensures Inv(r')
  {
  }

  lemma CompletionGrows(r: Recorded, r': Recorded, c: Completion)
    requires CompletionOk(r, c)
    requires r'.lr.t.rows.Keys == r.lr.t.rows.Keys && |r.asked| <= |r'.asked| && r.answers <= r'.answers
    ensures CompletionOk(r', c)
  {
    assert |r'.lr.t.rows.Keys| == |r.lr.t.rows.Keys|;
    SubsetSize(Answerers(r, c.token), Answerers(r', c.token));
  }

  lemma ProposeKeepsInv(r: Recorded, req: ClientMessage)
    requires Inv(r)
    ensures Inv(Step(r, Request(req)))
  {
    var r' := Step(r, Request(req));
    if r.lr.ongoing.None? {
      forall k | 0 <= k < |r.lr.fired| ensures CompletionOk(r', r.lr.fired[k]) {
        assert CompletionOk(r, r.lr.fired[k]);
        CompletionGrows(r, r', r.lr.fired[k]);
      }
      assert forall id :: id in r'.lr.t.rows ==> PendingMatches(r', id);
    }
  }

  lemma AnswerKeepsPending(r: Recorded, op: nat, view: nat, src: int, dst: int)
    requires Inv(r)
    ensures var r' := Step(r, AsLeader(PrepareOK(op, view, src, dst)));
            && r'.lr.t.rows.Keys == r.lr.t.rows.Keys
            && (forall id :: id in r'.lr.t.rows ==> PendingMatches(r', id))
  {
    var r' := Step(r, AsLeader(PrepareOK(op, view, src, dst)));
    assert r'.lr.t == MarkOk(r.lr.t, src, view, op);
    forall id | id in r'.lr.t.rows ensures PendingMatches(r', id) {
      assert PendingMatches(r, id);
    }
  }

  lemma OkMajorityIsAnswered(r: Recorded)
    requires forall id :: id in r.lr.t.rows ==> PendingMatches(r, id)
    requires OkMajority(r.lr.t)
    ensures r.asked != [] && |Answerers(r, |r.asked| - 1)| >= QuorumSize(|r.lr.t.rows|)
  {
    var marked := OkSet(r.lr.t);
    if !exists id :: id in marked {
      assert false;
    }
    var id :| id in marked;
    assert PendingMatches(r, id);
    assert marked <= Answerers(r, |r.asked| - 1);
    SubsetSize(marked, Answerers(r, |r.asked| - 1));
  }

  /** What an answer does besides the marks: nothing, or it completes the request being waited for. */
  lemma AnswerEffect(r: Recorded, op: nat, view: nat, src: int, dst: int)
    ensures var r' := Step(r, AsLeader(PrepareOK(op, view, src, dst)));
            && r'.lr.t == MarkOk(r.lr.t, src, view, op)
            && r'.asked == r.asked && r.answers <= r'.answers && r'.lr.accepted == r.lr.accepted
            && (if OkMajority(r'.lr.t) then
                  && r'.lr.cb.None?
                  && if r.lr.cb.None? then r'.lr.fired == r.lr.fired
                     else exists req :: r'.lr.fired == r.lr.fired + [Completion(r.lr.cb.value, req, Committed)]
                else r'.lr.cb == r.lr.cb && r'.lr.fired == r.lr.fired)
  {
  }

  lemma AnswerKeepsInv(r: Recorded, op: nat, view: nat, src: int, dst: int)
    requires Inv(r)
    ensures Inv(Step(r, AsLeader(PrepareOK(op, view, src, dst))))
  {
    var r' := Step(r, AsLeader(PrepareOK(op, view, src, dst)));
    AnswerKeepsPending(r, op, view, src, dst);
    AnswerEffect(r, op, view, src, dst);
    if OkMajority(r'.lr.t) {
      OkMajorityIsAnswered(r');
    }
    AnswerKeepsCompletions(r, r');
  }

  lemma AnswerKeepsCompletions(r: Recorded, r': Recorded)
    requires Inv(r) && r'.lr.t.rows.Keys == r.lr.t.rows.Keys && r'.asked == r.asked && r.answers <= r'.answers
    requires |r.lr.fired| <= |r'.lr.fired| <= |r.lr.fired| + 1 && r'.lr.fired[..|r.lr.fired|] == r.lr.fired
    requires |r.lr.fired| < |r'.lr.fired| ==> CompletionOk(r', r'.lr.fired[|r.lr.fired|])
    ensures forall k :: 0 <= k < |r'.lr.fired| ==> CompletionOk(r', r'.lr.fired[k])
  {
    forall k | 0 <= k < |r'.lr.fired| ensures CompletionOk(r', r'.lr.fired[k]) {
      if k < |r.lr.fired| {
        assert r'.lr.fired[k] == r.lr.fired[k] && CompletionOk(r, r.lr.fired[k]);
        CompletionGrows(r, r', r.lr.fired[k]);
      }
    }
  }

  lemma DeposedKeepsInv(r: Recorded)
    requires Inv(r)
    ensures Inv(Step(r, Deposed))
  {
    var r' := Step(r, Deposed);
    forall k | 0 <= k < |r'.lr.fired| ensures CompletionOk(r', r'.lr.fired[k]) {
      if k < |r.lr.fired| {
        assert CompletionOk(r, r.lr.fired[k]);
        CompletionGrows(r, r', r.lr.fired[k]);
      }
    }
    assert forall id :: id in r'.lr.t.rows ==> PendingMatches(r', id);
  }

  lemma ElectedKeepsInv(r: Recorded)
    requires Inv(r)
    ensures Inv(Step(r, Elected))
  {
    var r' := Step(r, Elected);
    forall k | 0 <= k < |r.lr.fired| ensures CompletionOk(r', r.lr.fired[k]) {
      assert CompletionOk(r, r.lr.fired[k]);
      CompletionGrows(r, r', r.lr.fired[k]);
    }
    assert forall id :: id in r'.lr.t.rows ==> PendingMatches(r', id);
  }

  /** Steps that touch neither the pending bookkeeping nor the callback. */
  predicate Quiet(e: Event) {
    !e.Request? && !e.Elected? && !e.Deposed? && !(e.AsLeader? && e.m.PrepareOK?)
  }

  ghost predicate SameRequest(st: LrState, st': LrState) {
    && PendingKept(st.t, st'.t)
    && st'.accepted == st.accepted && st'.cb == st.cb && st'.fired == st.fired && st'.ongoing == st.ongoing
  }

  lemma SetRowKeepsPending(t: Table, id: int, row: Member)
    requires row.pendingView == Row(t, id).pendingView
    requires row.pendingOp == Row(t, id).pendingOp && row.okRcvd == Row(t, id).okRcvd
    ensures PendingKept(t, SetRow(t, id, row))
  {
  }

  lemma HeartbeatKeepsPending(t: Table, me: int, hb: Heartbeat)
    ensures PendingKept(t, ReceiveHeartbeat(t, me, hb))
  {
  }

  lemma PrepareIsQuiet(st: LrState, op: nat, view: nat, src: int, payload: ClientMessage)
    ensures SameRequest(st, OnPrepare(st, op, view, src, payload))
  {
  }

  lemma CommitIsQuiet(st: LrState, op: nat, view: nat)
    ensures SameRequest(st, OnCommit(st, op, view))
  {
  }

  lemma QuietStep(st: LrState, e: Event)
    requires Quiet(e)
    ensures SameRequest(st, StepLr(st, e))
  {
    match e
    case AsLeader(Prepare(op, view, src, payload)) => PrepareIsQuiet(st, op, view, src, payload);
    case AsFollower(Prepare(op, view, src, payload)) => PrepareIsQuiet(st, op, view, src, payload);
    case AsLeader(Commit(op, view, src)) => CommitIsQuiet(st, op, view);
    case AsFollower(Commit(op, view, src)) => CommitIsQuiet(st, op, view);
    case AsFollower(PrepareOK(_, _, _, _)) =>
    case FollowerStarts => SetRowKeepsPending(st.t, st.me, Row(st.t, st.me).(op := LatestOp(st.log)));
    case FollowerEnds(syncDue) =>
      var log' := CommitUpTo(st.log, LargestCommitted(st.t));
      SetRowKeepsPending(st.t, st.me, Row(st.t, st.me).(committedOp := HighestCommitted(log')));
    case Heard(hb) => HeartbeatKeepsPending(st.t, st.me, hb);
  }

  lemma StepKeepsInv(r: Recorded, e: Event)
    requires Inv(r)
    ensures Inv(Step(r, e))
  {
    match e
    case Request(req) => ProposeKeepsInv(r, req);
    case AsLeader(PrepareOK(op, view, src, dst)) => AnswerKeepsInv(r, op, view, src, dst);
    case Deposed => DeposedKeepsInv(r);
    case Elected => ElectedKeepsInv(r);
    case _ =>
      QuietStep(r.lr, e);
      QuietStepKeepsInv(r, Step(r, e));
  }

  lemma {:induction false} RunKeepsInv(r: Recorded, events: seq<Event>)
    requires Inv(r)
    ensures Inv(RunRecorded(r, events))
    decreases |events|
  {
    if events != [] {
      StepKeepsInv(r, events[0]);
      RunKeepsInv(Step(r, events[0]), events[1..]);
    }
  }

  ghost predicate Fresh(st: LrState) {
    && st.ongoing == None && st.cb == None && st.accepted == 0 && st.fired == [] && st.out == []
    && forall id :: id in st.t.rows ==> st.t.rows[id] == FRESH_MEMBER
  }

  /** Each accepted request is answered at most once, and "committed" is reported only when a quorum
      of distinct members has answered PrepareOK for exactly its view and number since it was
      proposed. */
  lemma RequestsAnsweredOnce(st: LrState, events: seq<Event>)
    requires Fresh(st)
    ensures var r := RunRecorded(Recorded(st, [], {}), events);
            && (forall j, k :: 0 <= j < k < |r.lr.fired| ==> r.lr.fired[j].token != r.lr.fired[k].token)
            && (forall k :: 0 <= k < |r.lr.fired| ==> r.lr.fired[k].token < |r.asked| == r.lr.accepted)
            && (forall k :: 0 <= k < |r.lr.fired| && r.lr.fired[k].status == Committed ==>
                  |Answerers(r, r.lr.fired[k].token)| >= QuorumSize(|r.lr.t.rows|))
  {
    RunKeepsInv(Recorded(st, [], {}), events);
    var r := RunRecorded(Recorded(st, [], {}), events);
    forall k | 0 <= k < |r.lr.fired| ensures CompletionOk(r, r.lr.fired[k]) {
    }
  }

  // ----- a deposed leader's unfinished request blocks the node -----

  /** A request is still held, nobody is waiting for it, and nothing is pending anywhere. */
  ghost predicate Blocked(st: LrState) {
    && st.ongoing.Some? && st.cb == None
    && forall id :: id in st.t.rows ==> !st.t.rows[id].okRcvd && st.t.rows[id].pendingOp == INVALID_REQ_ID
  }

  lemma BlockedStays(st: LrState, e: Event)
    requires Blocked(st)
    ensures Blocked(StepLr(st, e)) && StepLr(st, e).fired == st.fired && StepLr(st, e).accepted == st.accepted
  {
    if Quiet(e) {
      QuietStep(st, e);
    } else if e.AsLeader? {
      var t' := MarkOk(st.t, e.m.src, e.m.view, e.m.op);
      assert forall id :: id in t'.rows ==> !t'.rows[id].okRcvd;
      assert OkSet(t') == {};
    }
  }

  lemma {:induction false} BlockedForever(st: LrState, events: seq<Event>)
    requires Blocked(st)
    ensures Blocked(RunLr(st, events)) && RunLr(st, events).accepted == st.accepted
    decreases |events|
  {
    if events != [] {
      BlockedStays(st, events[0]);
      BlockedForever(StepLr(st, events[0]), events[1..]);
    }
  }

  /** After NoLongerLeaderActivity the node can accept a request again, in some run, exactly when no
      request was held at that moment: an aborted request keeps its slot for ever. */
  lemma AcceptsAgainExactly(st: LrState, req: ClientMessage)
    ensures (exists events :: Propose(RunLr(NoLongerLeader(st), events), req).1) <==> st.ongoing.None?
  {
    var st1 := NoLongerLeader(st);
    if st.ongoing.None? {
      var none: seq<Event> := [];
      assert RunLr(st1, none) == st1;
      assert Propose(RunLr(NoLongerLeader(st), none), req).1;
    } else {
      forall events ensures !Propose(RunLr(st1, events), req).1 {
        BlockedForever(st1, events);
      }
    }
  }
}
