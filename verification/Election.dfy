/** Leader election at one node (the files of src/ccm/le) as functions of its state. Timeouts are inputs;
    `out` holds every message sent to the other members, `events` every role callback. */
module Election {
  import opened LogModel
  import opened Membership

  datatype Kind = ElectionStart | ElectionCompleted | ElectionVote

  /** `viewWhenRcvd` is never set by the receiving code, so it is 0 in every message that travels. */
  datatype LeMsg = LeMsg(kind: Kind, view: nat, op: nat, sender: int, voteDst: int, viewWhenRcvd: nat)

  /** The state object of LE with its fields. */
  datatype Phase = Follower | Electing(first: bool, voteCast: bool) | Leader(first: bool)

  datatype RoleEvent = Entered | Left

  datatype LeState = LeState(me: int, t: Table, phase: Phase, out: seq<LeMsg>, events: seq<RoleEvent>)

  function MyView(st: LeState): nat { Row(st.t, st.me).view }

  function Send(st: LeState, m: LeMsg): LeState { st.(out := st.out + [m]) }

  function StartMsg(st: LeState): LeMsg { LeMsg(ElectionStart, MyView(st), 0, st.me, 0, 0) }

  function CompletedMsg(st: LeState): LeMsg { LeMsg(ElectionCompleted, MyView(st), 0, st.me, 0, 0) }

  function VoteMsg(st: LeState, dst: int): LeMsg {
    LeMsg(ElectionVote, MyView(st), Row(st.t, st.me).op, st.me, dst, 0)
  }

  // ----- Electing -----

  function RestartElectionPeriod(st: LeState, view: nat): LeState
    requires st.phase.Electing?
  {
    var st1 := st.(t := SetView(ResetVotes(st.t), st.me, view));
    Send(st1, StartMsg(st1)).(phase := st.phase.(voteCast := false))
  }

  function CastVote(st: LeState): LeState
    requires st.phase.Electing?
  {
    var (found, id) := LowestQc(st.t);
    if st.phase.voteCast || !found then st
    else
      Send(st, VoteMsg(st, id)).(t := if id == st.me then AddVote(st.t, id) else st.t,
                                 phase := st.phase.(voteCast := true))
  }

  function FirstTimeElecting(st: LeState): LeState
    requires st.phase.Electing?
  {
    if st.phase.first then
      var st1 := CastVote(Send(st, StartMsg(st)));
      st1.(phase := st1.phase.(first := false))
    else st
  }

  /** The vote is counted only when its view equals the view before the handler ran: a vote that
      restarts the period is not counted. */
  function OnVote(st: LeState, m: LeMsg): LeState
    requires st.phase.Electing?
  {
    var st1 := if m.view > MyView(st) then RestartElectionPeriod(st, m.view) else st;
    if m.view == MyView(st) then st1.(t := SetOp(AddVote(st1.t, m.voteDst), m.sender, m.op)) else st1
  }

  function OnElectingMsg(st: LeState, m: LeMsg): LeState
    requires st.phase.Electing?
  {
    match m.kind
    case ElectionVote =>
      var st1 := OnVote(st, m);
      if VoteMajority(st1.t, st1.me) then st1.(phase := Leader(true)) else st1
    case ElectionStart => if m.view > MyView(st) then RestartElectionPeriod(st, m.view) else st
    case ElectionCompleted => if m.view >= MyView(st) then st.(phase := Follower) else st
  }

  function RestartIfTmo(st: LeState, tmo: bool): LeState {
    if st.phase.Electing? && tmo then RestartElectionPeriod(st, LargestView(st.t) + 1) else st
  }

  /** One round of an election while some member is quorum-connected. */
  function ElectionRound(st: LeState, msg: Option<LeMsg>): LeState
    requires st.phase.Electing?
  {
    var st1 := CastVote(FirstTimeElecting(st));
    if msg.Some? then OnElectingMsg(st1, msg.value) else st1
  }

  function ElectingActivity(st: LeState, msg: Option<LeMsg>, tmo: bool): LeState
    requires st.phase.Electing?
  {
    if LeaderId(st.t) != INVALID_LEADER_ID then
      st.(t := SetView(st.t, st.me, Row(st.t, LeaderId(st.t)).view), phase := Follower)
    else if AnyQc(st.t) then RestartIfTmo(ElectionRound(st, msg), tmo)
    else st.(phase := Follower)
  }

  // ----- Follower -----

  predicate HigherThanWhenRcvd(m: LeMsg) { 0 < m.viewWhenRcvd < m.view }

  function FollowerActivity(st: LeState, msg: Option<LeMsg>, tmo: bool): LeState {
    var st1 := st.(t := ResetVotes(st.t));
    match msg
    case Some(m) =>
      if HigherThanWhenRcvd(m) && m.kind == ElectionVote then
        st1.(t := SetView(AddVote(st1.t, m.voteDst), st.me, m.view), phase := Electing(true, false))
      else if HigherThanWhenRcvd(m) && m.kind == ElectionCompleted then
        st1.(t := SetView(st1.t, st.me, m.view), phase := Electing(true, false))
      else st1
    case None =>
      if LeaderId(st1.t) == INVALID_LEADER_ID && tmo && AnyQc(st1.t) then
        st1.(t := SetView(st1.t, st.me, LargestView(st1.t) + 1), phase := Electing(true, false))
      else st1
  }

  // ----- Leader -----

  function FirstTimeLeader(st: LeState): LeState
    requires st.phase.Leader?
  {
    if st.phase.first then
      var st1 := st.(t := SetLeader(st.t, st.me, st.me));
      Send(st1, CompletedMsg(st1)).(events := st.events + [Entered], phase := Leader(false))
    else st
  }

  predicate LeavesLeaderState(st: LeState, msg: Option<LeMsg>) {
    (msg.Some? && msg.value.view > MyView(st)) || !IsQc(st.t, st.me)
  }

  function LeaderActivity(st: LeState, msg: Option<LeMsg>): LeState
    requires st.phase.Leader?
  {
    var st1 := FirstTimeLeader(st);
    if LeavesLeaderState(st1, msg) then
      st1.(t := SetLeader(st1.t, st1.me, INVALID_LEADER_ID), events := st1.events + [Left], phase := Follower)
    else st1
  }

  // ----- LE -----

  function Activity(st: LeState, msg: Option<LeMsg>, tmo: bool): LeState {
    match st.phase
    case Follower => FollowerActivity(st, msg, tmo)
    case Electing(_, _) => ElectingActivity(st, msg, tmo)
    case Leader(_) => LeaderActivity(st, msg)
  }

  /** A message and whether the period of the current state has expired when it is handled. */
  datatype Input = Input(msg: LeMsg, tmo: bool)

  function Messages(st: LeState, inputs: seq<Input>): LeState
    decreases |inputs|
  {
    if inputs == [] then st
    else Messages(Activity(st, Some(inputs[0].msg), inputs[0].tmo), inputs[1..])
  }

  /** One call of LE::HandleActivity: the queued messages, then one round without a message. */
  function Cycle(st: LeState, inputs: seq<Input>, tmo: bool): LeState {
    Activity(Messages(st, inputs), None, tmo)
  }
}
