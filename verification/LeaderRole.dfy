/** The role callbacks of LE: entered and left strictly alternate, and bracket leadership. */
module LeaderRole {
  import opened LogModel
  import opened Membership
  import opened Election

  /** A round of LE, or anything the failure detector does meanwhile that leaves the own leader mark
      and the membership alone. */
  datatype RoleStep = Handle(msg: Option<LeMsg>, tmo: bool) | Background(t: Table)

  ghost predicate Possible(st: LeState, step: RoleStep) {
    step.Background? ==>
      step.t.rows.Keys == st.t.rows.Keys && Row(step.t, st.me).leaderId == Row(st.t, st.me).leaderId
  }

  function Do(st: LeState, step: RoleStep): LeState {
    match step
    case Handle(msg, tmo) => Activity(st, msg, tmo)
    case Background(t) => st.(t := t)
  }

  ghost predicate AllPossible(st: LeState, steps: seq<RoleStep>)
    decreases |steps|
  {
    steps == [] || (Possible(st, steps[0]) && AllPossible(Do(st, steps[0]), steps[1..]))
  }

  function DoAll(st: LeState, steps: seq<RoleStep>): LeState
    decreases |steps|
  {
    if steps == [] then st else DoAll(Do(st, steps[0]), steps[1..])
  }

  ghost predicate Alternate(events: seq<RoleEvent>) {
    forall k :: 0 <= k < |events| ==> events[k] == if k % 2 == 0 then Entered else Left
  }

  /** Entered without having left since. */
  predicate InRole(events: seq<RoleEvent>) { |events| % 2 == 1 }

  ghost predicate RoleInv(st: LeState) {
    && st.me in st.t.rows && st.me != INVALID_LEADER_ID
    && Alternate(st.events)
    && (InRole(st.events) <==> st.phase == Leader(false))
    && st.t.rows[st.me].leaderId == (if InRole(st.events) then st.me else INVALID_LEADER_ID)
  }

  /** What the first two states may change of what the roles depend on: nothing. */
  ghost predicate RoleUntouched(st: LeState, st': LeState) {
    && st'.me == st.me && st'.events == st.events
    && st'.t.order == st.t.order && st'.t.rows.Keys == st.t.rows.Keys
    && Row(st'.t, st.me).leaderId == Row(st.t, st.me).leaderId
  }

  lemma RestartUntouched(st: LeState, view: nat)
    requires st.phase.Electing?
    ensures RoleUntouched(st, RestartElectionPeriod(st, view))
  {
  }

  lemma CastVoteUntouched(st: LeState)
    requires st.phase.Electing?
    ensures RoleUntouched(st, CastVote(st))
  {
  }

  lemma OnVoteUntouched(st: LeState, m: LeMsg)
    requires st.phase.Electing?
    ensures RoleUntouched(st, OnVote(st, m))
  {
    RestartUntouched(st, m.view);
  }

  lemma FirstTimeUntouched(st: LeState)
    requires st.phase.Electing?
    ensures RoleUntouched(st, FirstTimeElecting(st))
  {
    CastVoteUntouched(Send(st, StartMsg(st)));
  }

  lemma ElectingMsgUntouched(st: LeState, m: LeMsg)
    requires st.phase.Electing?
    ensures RoleUntouched(st, OnElectingMsg(st, m))
    ensures OnElectingMsg(st, m).phase != Leader(false)
  {
    RestartUntouched(st, m.view);
    OnVoteUntouched(st, m);
  }

  lemma RoundUntouched(st: LeState, msg: Option<LeMsg>)
    requires st.phase.Electing?
    ensures RoleUntouched(st, ElectionRound(st, msg))
    ensures ElectionRound(st, msg).phase != Leader(false)
    ensures msg.None? ==> !ElectionRound(st, msg).phase.Leader?
  {
    FirstTimeUntouched(st);
    CastVoteUntouched(FirstTimeElecting(st));
    if msg.Some? {
      ElectingMsgUntouched(CastVote(FirstTimeElecting(st)), msg.value);
    }
  }

  lemma TmoUntouched(st: LeState, tmo: bool)
    ensures RoleUntouched(st, RestartIfTmo(st, tmo))
    ensures RestartIfTmo(st, tmo).phase == st.phase || RestartIfTmo(st, tmo).phase.Electing?
  {
    if st.phase.Electing? {
      RestartUntouched(st, LargestView(st.t) + 1);
    }
  }

  lemma ElectingUntouched(st: LeState, msg: Option<LeMsg>, tmo: bool)
    requires st.phase.Electing?
    ensures RoleUntouched(st, ElectingActivity(st, msg, tmo))
    ensures ElectingActivity(st, msg, tmo).phase != Leader(false)
    ensures msg.None? ==> !ElectingActivity(st, msg, tmo).phase.Leader?
  {
    if LeaderId(st.t) == INVALID_LEADER_ID && AnyQc(st.t) {
      RoundUntouched(st, msg);
      TmoUntouched(ElectionRound(st, msg), tmo);
    }
  }

  lemma FollowerUntouched(st: LeState, msg: Option<LeMsg>, tmo: bool)
    ensures RoleUntouched(st, FollowerActivity(st, msg, tmo))
    ensures st.phase.Follower? ==> !FollowerActivity(st, msg, tmo).phase.Leader?
  {
  }

  /** A leader's round: entering first if it has not, leaving if it must. */
  lemma LeaderRound(st: LeState, msg: Option<LeMsg>)
    requires st.phase.Leader? && RoleInv(st)
    ensures RoleInv(LeaderActivity(st, msg))
    ensures LeaderActivity(st, msg).phase != Leader(true) && LeaderActivity(st, msg).me == st.me
  {
  }

  lemma DoKeepsRole(st: LeState, step: RoleStep)
    requires RoleInv(st) && Possible(st, step)
    ensures RoleInv(Do(st, step)) && Do(st, step).me == st.me
    ensures step.Handle? && step.msg.None? ==> Do(st, step).phase != Leader(true)
    ensures st.phase != Leader(true) && step.Background? ==> Do(st, step).phase != Leader(true)
  {
    match step
    case Handle(msg, tmo) =>
      match st.phase {
        case Follower => FollowerUntouched(st, msg, tmo);
        case Electing(_, _) => ElectingUntouched(st, msg, tmo);
        case Leader(_) => LeaderRound(st, msg);
      }
    case Background(t) =>
  }

  /** A node as constructed is in order, whatever it has heard about others. */
  lemma StartIsInOrder(st: LeState)
    requires st.phase == Follower && st.events == [] && st.me != INVALID_LEADER_ID
    requires st.me in st.t.rows && st.t.rows[st.me].leaderId == INVALID_LEADER_ID
    ensures RoleInv(st)
  {
  }

  /** Over every run: the callbacks alternate starting with "entered", and the node marks itself
      leader exactly while it is between them. */
  lemma {:induction false} RolesBracketed(st: LeState, steps: seq<RoleStep>)
    requires RoleInv(st) && AllPossible(st, steps)
    ensures RoleInv(DoAll(st, steps))
    decreases |steps|
  {
    if steps != [] {
      DoKeepsRole(st, steps[0]);
      RolesBracketed(Do(st, steps[0]), steps[1..]);
    }
  }

  lemma {:induction false} MessagesAreSteps(st: LeState, inputs: seq<Input>)
    requires RoleInv(st)
    ensures RoleInv(Messages(st, inputs)) && Messages(st, inputs).me == st.me
    decreases |inputs|
  {
    if inputs != [] {
      DoKeepsRole(st, Handle(Some(inputs[0].msg), inputs[0].tmo));
      MessagesAreSteps(Activity(st, Some(inputs[0].msg), inputs[0].tmo), inputs[1..]);
    }
  }

  lemma InRoleMeaning(st: LeState)
    requires RoleInv(st) && st.phase != Leader(true)
    ensures st.phase.Leader? <==> InRole(st.events)
    ensures st.phase.Leader? ==> st.events[|st.events| - 1] == Entered && Row(st.t, st.me).leaderId == st.me
  {
  }

  /** Whenever LE::HandleActivity returns with the node in state Leader, "entered" has been called and
      not yet "left", and the node marks itself leader. */
  lemma LeaderHasEntered(st: LeState, inputs: seq<Input>, tmo: bool)
    requires RoleInv(st)
    ensures var st' := Cycle(st, inputs, tmo);
            && RoleInv(st') && st'.me == st.me
            && (st'.phase.Leader? <==> InRole(st'.events))
            && (st'.phase.Leader? ==> st'.events[|st'.events| - 1] == Entered
                                      && Row(st'.t, st.me).leaderId == st.me)
  {
    var st1 := Messages(st, inputs);
    MessagesAreSteps(st, inputs);
    DoKeepsRole(st1, Handle(None, tmo));
    InRoleMeaning(Do(st1, Handle(None, tmo)));
  }
}
