/** At most one winner per view, over all runs of all nodes' elections. */
module ElectionSafety {
  import opened LogModel
  import opened Membership
  import opened Quorum
  import opened Election

  /** A node with the votes it has counted since its current voting period began. */
  datatype ENode = ENode(le: LeState, accepted: set<LeMsg>)

  datatype Win = Win(node: int, view: nat)

  datatype System = System(nodes: map<int, ENode>, wins: set<Win>)

  datatype Step =
    | Receive(i: int, from: int, k: nat, tmo: bool)
    | Idle(i: int, tmo: bool)
    | Gossip(i: int, t: Table)

  predicate IsVote(m: LeMsg) { m.kind == ElectionVote }

  /** HandleVote will count this vote. */
  predicate Accepts(st: LeState, m: LeMsg) {
    && st.phase.Electing? && IsVote(m)
    && LeaderId(st.t) == INVALID_LEADER_ID && AnyQc(st.t)
    && m.view == MyView(st)
  }

  predicate Wins(st: LeState, st': LeState) { st.phase.Electing? && st'.phase.Leader? }

  /** The counted votes survive a step that stays in the period or wins it. */
  function Kept(st: LeState, st': LeState, accepted: set<LeMsg>): set<LeMsg> {
    if st.phase.Electing? && !st'.phase.Follower? && MyView(st') == MyView(st) then accepted else {}
  }

  // ----- what can happen, and the hypotheses -----

  /** What heartbeats may do to a table at any moment: anything but touch vote counts, the membership
      or lower the own view. */
  ghost predicate GossipFrame(st: LeState, t': Table) {
    && t'.order == st.t.order && t'.rows.Keys == st.t.rows.Keys
    && (forall id :: id in st.t.rows ==> t'.rows[id].votes == st.t.rows[id].votes)
    && MyView(st) <= Row(t', st.me).view
  }

  /** A node receives any message another member has sent, any number of times; or nothing; or gossip. */
  ghost predicate Possible(s: System, step: Step) {
    && step.i in s.nodes
    && match step
       case Receive(i, from, k, _) => from in s.nodes && from != i && k < |s.nodes[from].le.out|
       case Idle(_, _) => true
       case Gossip(i, t') => GossipFrame(s.nodes[i].le, t')
  }

  /** The view adopted from an available leader is not below any view the node has voted in. */
  ghost predicate AdoptsNoLower(st: LeState) {
    st.phase.Electing? && LeaderId(st.t) != INVALID_LEADER_ID ==>
      forall m :: m in st.out && IsVote(m) ==> m.view <= Row(st.t, LeaderId(st.t)).view
  }

  ghost predicate NoVotesCounted(st: LeState) { forall id :: id in st.t.rows ==> st.t.rows[id].votes == 0 }

  /** The own view of a node that is electing and has counted a vote does not move. */
  ghost predicate KeepsView(st: LeState, t': Table) {
    st.phase.Electing? && Row(t', st.me).view != MyView(st) ==> NoVotesCounted(st)
  }

  datatype Hypothesis = CountsOnce | AdoptsVotedView | ViewStays

  /** The three hypotheses: no vote is counted twice in one period; no view is adopted that is lower
      than one voted in; counted votes are not moved into another view. */
  ghost predicate Meets(h: Hypothesis, s: System, step: Step)
    requires Possible(s, step)
  {
    var nd := s.nodes[step.i];
    match h
    case CountsOnce =>
      step.Receive? ==> var m := s.nodes[step.from].le.out[step.k]; Accepts(nd.le, m) ==> m !in nd.accepted
    case AdoptsVotedView => !step.Gossip? ==> AdoptsNoLower(nd.le)
    case ViewStays => step.Gossip? ==> KeepsView(nd.le, step.t)
  }

  ghost predicate Enabled(s: System, step: Step) {
    Possible(s, step) && Meets(CountsOnce, s, step) && Meets(AdoptsVotedView, s, step) && Meets(ViewStays, s, step)
  }

  ghost function After(s: System, step: Step): System
    requires Possible(s, step)
  {
    var i, nd := step.i, s.nodes[step.i];
    var le' := match step
      case Receive(_, from, k, tmo) => Activity(nd.le, Some(s.nodes[from].le.out[k]), tmo)
      case Idle(_, tmo) => Activity(nd.le, None, tmo)
      case Gossip(_, t') => nd.le.(t := t');
    var counted := if step.Receive? && Accepts(nd.le, s.nodes[step.from].le.out[step.k])
                   then nd.accepted + {s.nodes[step.from].le.out[step.k]} else nd.accepted;
    System(s.nodes[i := ENode(le', Kept(nd.le, le', counted))],
           if Wins(nd.le, le') then s.wins + {Win(i, MyView(le'))} else s.wins)
  }

  ghost predicate Next(s: System, s': System) {
    exists step :: Enabled(s, step) && s' == After(s, step)
  }

  ghost predicate StepAt(run: seq<System>, k: nat) { k + 1 < |run| && Next(run[k], run[k + 1]) }

  /** Every node starts as a follower that has sent and received nothing. */
  ghost predicate Init(s: System) {
    && s.wins == {}
    && forall i :: i in s.nodes ==>
         && s.nodes[i].le.me == i && s.nodes[i].le.t.rows.Keys == s.nodes.Keys && ValidTable(s.nodes[i].le.t)
         && s.nodes[i].le.phase == Follower && s.nodes[i].le.out == []
         && s.nodes[i].accepted == {}
  }

  ghost predicate IsRun(run: seq<System>) {
    run != [] && Init(run[0]) && forall k: nat :: k + 1 < |run| ==> StepAt(run, k)
  }

  // ----- what one node sends: at most one vote per view -----

  /** All votes are of views at most v, and each is of a higher view than the one before. */
  ghost predicate VotesAscend(out: seq<LeMsg>, me: int, v: nat) {
    && (forall p :: 0 <= p < |out| ==> out[p].viewWhenRcvd == 0)
    && (forall p :: 0 <= p < |out| && IsVote(out[p]) ==> out[p].sender == me && out[p].view <= v)
    && (forall p, q :: 0 <= p < q < |out| && IsVote(out[p]) && IsVote(out[q]) ==> out[p].view < out[q].view)
  }

  ghost predicate VotesBelow(out: seq<LeMsg>, v: nat) {
    forall p :: 0 <= p < |out| && IsVote(out[p]) ==> out[p].view < v
  }

  /** A vote of view v for dst is among the messages. */
  ghost predicate VotedFor(out: seq<LeMsg>, v: nat, dst: int) {
    exists m :: m in out && IsVote(m) && m.view == v && m.voteDst == dst
  }

  ghost predicate SentOk(st: LeState) {
    && VotesAscend(st.out, st.me, MyView(st))
    && (st.phase.Electing? && !st.phase.voteCast ==> VotesBelow(st.out, MyView(st)))
  }

  // ----- what one node counts -----

  function Tally(accepted: set<LeMsg>, v: nat, dst: int): set<LeMsg> {
    set m | m in accepted && m.view == v && m.voteDst == dst
  }

  ghost function OwnVote(st: LeState, dst: int): nat {
    if dst == st.me && VotedFor(st.out, MyView(st), dst) then 1 else 0
  }

  /** While electing, every candidate's counter is the number of votes for it accepted in the current
      view, plus the node's own vote when it voted for itself. */
  ghost predicate CountsOk(st: LeState, accepted: set<LeMsg>) {
    forall id :: id in st.t.rows ==>
      st.t.rows[id].votes == |Tally(accepted, MyView(st), id)| + OwnVote(st, id)
  }

  ghost predicate AcceptedOk(accepted: set<LeMsg>, v: nat) {
    forall m :: m in accepted ==> IsVote(m) && m.view == v
  }

  /** Everything about one node that does not mention the others. */
  ghost predicate LocalOk(st: LeState, accepted: set<LeMsg>) {
    && st.me in st.t.rows && st.me in st.t.order
    && SentOk(st)
    && AcceptedOk(accepted, MyView(st))
    && (st.phase.Electing? ==> CountsOk(st, accepted))
  }

  // ----- sending -----

  lemma SendOther(out: seq<LeMsg>, me: int, v: nat, m: LeMsg)
    requires VotesAscend(out, me, v) && !IsVote(m) && m.viewWhenRcvd == 0
    ensures VotesAscend(out + [m], me, v)
    ensures VotesBelow(out, v) ==> VotesBelow(out + [m], v)
    ensures forall w, dst :: VotedFor(out + [m], w, dst) <==> VotedFor(out, w, dst)
  {
  }

  lemma SendVoteMsg(out: seq<LeMsg>, me: int, v: nat, m: LeMsg)
    requires VotesAscend(out, me, v) && VotesBelow(out, v)
    requires IsVote(m) && m.viewWhenRcvd == 0 && m.sender == me && m.view == v
    ensures VotesAscend(out + [m], me, v)
    ensures forall dst :: VotedFor(out + [m], v, dst) <==> dst == m.voteDst
  {
  }

  lemma NoVoteBelow(out: seq<LeMsg>, v: nat, dst: int)
    requires VotesBelow(out, v)
    ensures !VotedFor(out, v, dst)
  {
  }

  // ----- the parts of a round -----

  ghost predicate SameNode(st: LeState, st': LeState) {
    st'.me == st.me && st'.t.rows.Keys == st.t.rows.Keys && st.out <= st'.out
  }

  /** A fresh view: votes reset, nothing counted and nothing voted in it. */
  lemma FreshView(st: LeState, st': LeState)
    requires SentOk(st)
    requires st'.me == st.me && st'.me in st'.t.rows && st'.me in st'.t.order && MyView(st') > MyView(st)
    requires st'.phase.Electing? && !st'.phase.voteCast
    requires st'.out == st.out || st'.out == st.out + [StartMsg(st')]
    requires NoVotesCounted(st')
    ensures LocalOk(st', {})
  {
  }

  lemma RestartOk(st: LeState, view: nat, accepted: set<LeMsg>)
    requires st.phase.Electing? && LocalOk(st, accepted) && view > MyView(st)
    ensures LocalOk(RestartElectionPeriod(st, view), {}) && MyView(RestartElectionPeriod(st, view)) == view
    ensures SameNode(st, RestartElectionPeriod(st, view))
  {
    FreshView(st, RestartElectionPeriod(st, view));
  }

  /** Same counts, same view, one more message that is not a vote. */
  lemma AnnounceOk(st: LeState, accepted: set<LeMsg>)
    requires st.phase.Electing? && LocalOk(st, accepted)
    ensures LocalOk(Send(st, StartMsg(st)), accepted)
  {
    var st' := Send(st, StartMsg(st));
    SendOther(st.out, st.me, MyView(st), StartMsg(st));
    forall id | id in st'.t.rows
      ensures st'.t.rows[id].votes == |Tally(accepted, MyView(st'), id)| + OwnVote(st', id)
    {
      assert OwnVote(st', id) == OwnVote(st, id);
    }
  }

  lemma CastVoteOk(st: LeState, accepted: set<LeMsg>)
    requires st.phase.Electing? && LocalOk(st, accepted)
    ensures LocalOk(CastVote(st), accepted)
    ensures MyView(CastVote(st)) == MyView(st) && SameNode(st, CastVote(st))
  {
    var st' := CastVote(st);
    if st' != st {
      var dst, v := LowestQc(st.t).1, MyView(st);
      SendVoteMsg(st.out, st.me, v, VoteMsg(st, dst));
      forall id | id in st'.t.rows ensures st'.t.rows[id].votes == |Tally(accepted, v, id)| + OwnVote(st', id) {
        NoVoteBelow(st.out, v, id);
      }
    }
  }

  lemma FirstTimeOk(st: LeState, accepted: set<LeMsg>)
    requires st.phase.Electing? && LocalOk(st, accepted)
    ensures LocalOk(FirstTimeElecting(st), accepted)
    ensures MyView(FirstTimeElecting(st)) == MyView(st) && SameNode(st, FirstTimeElecting(st))
  {
    if st.phase.first {
      AnnounceOk(st, accepted);
      var st1 := CastVote(Send(st, StartMsg(st)));
      CastVoteOk(Send(st, StartMsg(st)), accepted);
      var st2 := FirstTimeElecting(st);
      assert st2.t == st1.t && st2.out == st1.out && st2.me == st1.me;
      assert forall id :: id in st2.t.rows ==> OwnVote(st2, id) == OwnVote(st1, id);
    }
  }

  lemma TallyAdd(accepted: set<LeMsg>, m: LeMsg, v: nat, id: int)
    requires m !in accepted && m.view == v
    ensures |Tally(accepted + {m}, v, id)| == |Tally(accepted, v, id)| + if id == m.voteDst then 1 else 0
  {
    if id == m.voteDst {
      assert Tally(accepted + {m}, v, id) == Tally(accepted, v, id) + {m};
    } else {
      assert Tally(accepted + {m}, v, id) == Tally(accepted, v, id);
    }
  }

  /** A vote accepted in the current view adds one to its candidate's count and to its tally. */
  lemma AcceptedVoteOk(st: LeState, m: LeMsg, accepted: set<LeMsg>)
    requires st.phase.Electing? && LocalOk(st, accepted)
    requires IsVote(m) && m.view == MyView(st) && m !in accepted
    ensures LocalOk(OnVote(st, m), accepted + {m})
    ensures MyView(OnVote(st, m)) == MyView(st) && SameNode(st, OnVote(st, m))
  {
    var st', v := OnVote(st, m), MyView(st);
    assert st' == st.(t := SetOp(AddVote(st.t, m.voteDst), m.sender, m.op));
    assert MyView(st') == v;
    forall id | id in st'.t.rows
      ensures st'.t.rows[id].votes == |Tally(accepted + {m}, v, id)| + OwnVote(st', id)
    {
      TallyAdd(accepted, m, v, id);
      assert st'.t.rows[id].votes == st.t.rows[id].votes + if id == m.voteDst then 1 else 0;
      assert OwnVote(st', id) == OwnVote(st, id);
    }
  }

  function Counted(st: LeState, m: LeMsg, accepted: set<LeMsg>): set<LeMsg> {
    if IsVote(m) && m.view == MyView(st) then accepted + {m} else accepted
  }

  lemma OnVoteOk(st: LeState, m: LeMsg, accepted: set<LeMsg>)
    requires st.phase.Electing? && LocalOk(st, accepted) && IsVote(m)
    requires m.view == MyView(st) ==> m !in accepted
    ensures LocalOk(OnVote(st, m), Kept(st, OnVote(st, m), Counted(st, m, accepted)))
    ensures MyView(st) <= MyView(OnVote(st, m)) && SameNode(st, OnVote(st, m))
  {
    if m.view > MyView(st) {
      RestartOk(st, m.view, accepted);
    } else if m.view == MyView(st) {
      AcceptedVoteOk(st, m, accepted);
    }
  }

  /** The votes a winner has: a quorum, among those accepted in its view and its own. */
  ghost predicate WonWith(st: LeState, accepted: set<LeMsg>) {
    |Tally(accepted, MyView(st), st.me)| + OwnVote(st, st.me) >= QuorumSize(|st.t.rows|)
  }

  /** What a step of a node has to leave. */
  ghost predicate GoodStep(st: LeState, st': LeState, counted: set<LeMsg>) {
    && LocalOk(st', Kept(st, st', counted))
    && SameNode(st, st')
    && (Wins(st, st') ==> WonWith(st', Kept(st, st', counted)))
  }

  lemma ElectingMsgOk(st: LeState, m: LeMsg, accepted: set<LeMsg>)
    requires st.phase.Electing? && LocalOk(st, accepted)
    requires IsVote(m) && m.view == MyView(st) ==> m !in accepted
    ensures GoodStep(st, OnElectingMsg(st, m), Counted(st, m, accepted))
    ensures MyView(st) <= MyView(OnElectingMsg(st, m))
  {
    match m.kind
    case ElectionVote =>
      OnVoteOk(st, m, accepted);
      var st1, st' := OnVote(st, m), OnElectingMsg(st, m);
      assert OwnVote(st', st.me) == OwnVote(st1, st.me);
    case ElectionStart =>
      if m.view > MyView(st) {
        RestartOk(st, m.view, accepted);
      }
    case ElectionCompleted =>
  }

  function CountedIn(st: LeState, msg: Option<LeMsg>, accepted: set<LeMsg>): set<LeMsg> {
    if msg.Some? then Counted(st, msg.value, accepted) else accepted
  }

  lemma RoundOk(st: LeState, msg: Option<LeMsg>, accepted: set<LeMsg>)
    requires st.phase.Electing? && LocalOk(st, accepted)
    requires msg.Some? && IsVote(msg.value) && msg.value.view == MyView(st) ==> msg.value !in accepted
    ensures GoodStep(st, ElectionRound(st, msg), CountedIn(st, msg, accepted))
    ensures MyView(st) <= MyView(ElectionRound(st, msg))
  {
    FirstTimeOk(st, accepted);
    var st1 := FirstTimeElecting(st);
    CastVoteOk(st1, accepted);
    var st2 := CastVote(st1);
    if msg.Some? {
      ElectingMsgOk(st2, msg.value, accepted);
    }
  }

  lemma LargestViewIsMine(st: LeState)
    requires st.me in st.t.order
    ensures LargestView(st.t) >= MyView(st)
  {
  }

  lemma TmoOk(st: LeState, tmo: bool, accepted: set<LeMsg>)
    requires LocalOk(st, accepted) && st.phase.Electing?
    ensures GoodStep(st, RestartIfTmo(st, tmo), accepted)
    ensures RestartIfTmo(st, tmo).phase.Electing? && MyView(st) <= MyView(RestartIfTmo(st, tmo))
  {
    LargestViewIsMine(st);
    if tmo {
      RestartOk(st, LargestView(st.t) + 1, accepted);
    }
  }

  lemma KeptTwice(st: LeState, st1: LeState, st2: LeState, accepted: set<LeMsg>)
    requires st1.phase.Electing? && MyView(st) <= MyView(st1) <= MyView(st2)
    ensures Kept(st1, st2, Kept(st, st1, accepted)) == Kept(st, st2, accepted)
  {
  }

  lemma ElectingOk(st: LeState, msg: Option<LeMsg>, tmo: bool, accepted: set<LeMsg>)
    requires st.phase.Electing? && LocalOk(st, accepted) && AdoptsNoLower(st)
    requires msg.Some? && Accepts(st, msg.value) ==> msg.value !in accepted
    ensures GoodStep(st, ElectingActivity(st, msg, tmo),
                     if msg.Some? && Accepts(st, msg.value) then accepted + {msg.value} else accepted)
  {
    if LeaderId(st.t) != INVALID_LEADER_ID {
      AdoptOk(st, accepted);
    } else if AnyQc(st.t) {
      RoundOk(st, msg, accepted);
      var st1 := ElectionRound(st, msg);
      if st1.phase.Electing? {
        var counted := CountedIn(st, msg, accepted);
        TmoOk(st1, tmo, Kept(st, st1, counted));
        KeptTwice(st, st1, RestartIfTmo(st1, tmo), counted);
      }
    }
  }

  function Adopt(st: LeState): LeState {
    st.(t := SetView(st.t, st.me, Row(st.t, LeaderId(st.t)).view), phase := Follower)
  }

  lemma AdoptOk(st: LeState, accepted: set<LeMsg>)
    requires st.phase.Electing? && LocalOk(st, accepted) && AdoptsNoLower(st) && LeaderId(st.t) != INVALID_LEADER_ID
    ensures LocalOk(Adopt(st), {}) && SameNode(st, Adopt(st))
  {
    var v := Row(st.t, LeaderId(st.t)).view;
    assert MyView(Adopt(st)) == v;
    forall p | 0 <= p < |st.out| && IsVote(st.out[p]) ensures st.out[p].view <= v {
      assert st.out[p] in st.out;
    }
  }

  lemma FollowerOk(st: LeState, msg: Option<LeMsg>, tmo: bool, accepted: set<LeMsg>)
    requires st.phase.Follower? && LocalOk(st, accepted)
    requires msg.Some? ==> msg.value.viewWhenRcvd == 0
    ensures GoodStep(st, FollowerActivity(st, msg, tmo), accepted)
  {
    var st1 := st.(t := ResetVotes(st.t));
    var st' := FollowerActivity(st, msg, tmo);
    LargestViewIsMine(st1);
    if st'.phase.Electing? {
      FreshView(st, st');
    }
  }

  lemma LeaderOk(st: LeState, msg: Option<LeMsg>, accepted: set<LeMsg>)
    requires st.phase.Leader? && LocalOk(st, accepted)
    ensures GoodStep(st, LeaderActivity(st, msg), accepted)
  {
    var st1 := st.(t := SetLeader(st.t, st.me, st.me));
    SendOther(st.out, st.me, MyView(st), CompletedMsg(st1));
  }

  /** One activity of LE, in whatever state it is. */
  lemma ActivityOk(st: LeState, msg: Option<LeMsg>, tmo: bool, accepted: set<LeMsg>)
    requires LocalOk(st, accepted) && AdoptsNoLower(st)
    requires msg.Some? ==> msg.value.viewWhenRcvd == 0
    requires msg.Some? && Accepts(st, msg.value) ==> msg.value !in accepted
    ensures GoodStep(st, Activity(st, msg, tmo),
                     if msg.Some? && Accepts(st, msg.value) then accepted + {msg.value} else accepted)
  {
    match st.phase
    case Follower => FollowerOk(st, msg, tmo, accepted);
    case Electing(_, _) => ElectingOk(st, msg, tmo, accepted);
    case Leader(_) => LeaderOk(st, msg, accepted);
  }

  lemma GossipKeepsOk(st: LeState, t': Table, accepted: set<LeMsg>)
    requires LocalOk(st, accepted) && GossipFrame(st, t') && KeepsView(st, t')
    ensures GoodStep(st, st.(t := t'), accepted)
  {
    var st' := st.(t := t');
    if st.phase.Electing? {
      forall id | id in st'.t.rows
        ensures st'.t.rows[id].votes == |Tally(Kept(st, st', accepted), MyView(st'), id)| + OwnVote(st', id)
      {
        if MyView(st') == MyView(st) {
          assert OwnVote(st', id) == OwnVote(st, id);
        } else {
          assert st.t.rows[id].votes == 0;
        }
      }
    }
  }

  // ----- the hypotheses are exact -----

  /** Counting a vote of the current view keeps the counters meaning what they should exactly when the
      vote has not been counted in this period. */
  lemma CountsOnceExactly(st: LeState, m: LeMsg, accepted: set<LeMsg>)
    requires st.phase.Electing? && LocalOk(st, accepted)
    requires IsVote(m) && m.view == MyView(st) && m.voteDst in st.t.rows
    ensures CountsOk(OnVote(st, m), accepted + {m}) <==> m !in accepted
  {
    if m !in accepted {
      AcceptedVoteOk(st, m, accepted);
    } else {
      var st' := OnVote(st, m);
      assert accepted + {m} == accepted;
      assert OwnVote(st', m.voteDst) == OwnVote(st, m.voteDst);
      assert st'.t.rows[m.voteDst].votes == st.t.rows[m.voteDst].votes + 1;
    }
  }

  /** Following an available leader keeps the votes sent below the own view exactly when its view is not
      lower than one the node has voted in. */
  lemma AdoptionExactly(st: LeState, msg: Option<LeMsg>, tmo: bool, accepted: set<LeMsg>)
    requires st.phase.Electing? && LocalOk(st, accepted) && LeaderId(st.t) != INVALID_LEADER_ID
    ensures SentOk(ElectingActivity(st, msg, tmo)) <==> AdoptsNoLower(st)
  {
    var v := Row(st.t, LeaderId(st.t)).view;
    assert MyView(Adopt(st)) == v;
    if AdoptsNoLower(st) {
      AdoptOk(st, accepted);
    } else {
      var m :| m in st.out && IsVote(m) && m.view > v;
      var p :| 0 <= p < |st.out| && st.out[p] == m;
    }
  }

  /** Gossip keeps the counters of a node that is electing meaning what they should exactly when it
      leaves the own view alone or no vote has been counted. */
  lemma ViewMoveExactly(st: LeState, t': Table, accepted: set<LeMsg>)
    requires st.phase.Electing? && LocalOk(st, accepted) && GossipFrame(st, t')
    ensures CountsOk(st.(t := t'), accepted) <==> KeepsView(st, t')
  {
    var st' := st.(t := t');
    forall id | id in st.t.rows
      ensures MyView(st') == MyView(st) ==> OwnVote(st', id) == OwnVote(st, id)
      ensures MyView(st') != MyView(st) ==> OwnVote(st', id) == 0 && Tally(accepted, MyView(st'), id) == {}
    {
    }
  }

  /** What a heartbeat does is within what these runs allow exactly unless it comes from the reported
      leader, with a higher view, while the node is electing and has counted a vote. */
  lemma HeartbeatAllowedExactly(st: LeState, hb: Heartbeat)
    requires st.me in st.t.rows && hb.sender != st.me
    ensures var t' := ReceiveHeartbeat(st.t, st.me, hb);
            && GossipFrame(st, t')
            && (KeepsView(st, t') <==>
                !(st.phase.Electing? && LeaderId(HeardFrom(st.t, hb)) == hb.sender && hb.view > MyView(st)
                  && !NoVotesCounted(st)))
  {
    var t' := ReceiveHeartbeat(st.t, st.me, hb);
    assert t'.rows.Keys == st.t.rows.Keys;
    assert Row(HeardFrom(st.t, hb), st.me) == Row(st.t, st.me);
  }

  // ----- all nodes -----

  /** A counted vote was sent by another member. */
  ghost predicate Provenance(s: System, i: int, m: LeMsg) {
    m.sender in s.nodes && m.sender != i && m in s.nodes[m.sender].le.out
  }

  ghost predicate NodeOk(s: System, i: int, nd: ENode) {
    && nd.le.me == i && nd.le.t.rows.Keys == s.nodes.Keys
    && LocalOk(nd.le, nd.accepted)
    && forall m :: m in nd.accepted ==> Provenance(s, i, m)
  }

  /** The members that sent a vote for `dst` in view v. */
  ghost function Voters(s: System, dst: int, v: nat): set<int> {
    set i | i in s.nodes && VotedFor(s.nodes[i].le.out, v, dst)
  }

  ghost predicate WinOk(s: System, w: Win) {
    w.node in s.nodes && |Voters(s, w.node, w.view)| >= QuorumSize(|s.nodes|)
  }

  ghost predicate NodesOk(s: System) {
    forall i {:trigger NodeOk(s, i, s.nodes[i])} :: i in s.nodes ==> NodeOk(s, i, s.nodes[i])
  }

  ghost predicate Inv(s: System) {
    && NodesOk(s)
    && (forall w {:trigger WinOk(s, w)} :: w in s.wins ==> WinOk(s, w))
  }

  ghost predicate Grows(s: System, s': System) {
    && s'.nodes.Keys == s.nodes.Keys
    && forall i :: i in s.nodes ==> s.nodes[i].le.out <= s'.nodes[i].le.out
  }

  lemma VotedForGrows(out: seq<LeMsg>, out': seq<LeMsg>, v: nat, dst: int)
    requires out <= out' && VotedFor(out, v, dst)
    ensures VotedFor(out', v, dst)
  {
  }

  lemma WinOkGrows(s: System, s': System, w: Win)
    requires Grows(s, s') && WinOk(s, w)
    ensures WinOk(s', w)
  {
    assert |s'.nodes.Keys| == |s.nodes.Keys|;
    forall i | i in Voters(s, w.node, w.view) ensures i in Voters(s', w.node, w.view) {
      VotedForGrows(s.nodes[i].le.out, s'.nodes[i].le.out, w.view, w.node);
    }
    SubsetSize(Voters(s, w.node, w.view), Voters(s', w.node, w.view));
  }

  /** A node sends at most one vote per view. */
  lemma OneVotePerView(out: seq<LeMsg>, me: int, v: nat, m: LeMsg, m': LeMsg)
    requires VotesAscend(out, me, v) && m in out && m' in out && IsVote(m) && IsVote(m') && m.view == m'.view
    ensures m == m'
  {
  }

  /** The members whose votes are in a tally: as many as votes, all of them voters, the node not among
      them. */
  lemma TallySenders(s: System, i: int, tally: set<LeMsg>, v: nat) returns (senders: set<int>)
    requires forall j :: j in s.nodes ==> VotesAscend(s.nodes[j].le.out, j, MyView(s.nodes[j].le))
    requires forall m :: m in tally ==> IsVote(m) && Provenance(s, i, m) && m.view == v && m.voteDst == i
    ensures |senders| == |tally| && i !in senders && senders <= Voters(s, i, v)
  {
    senders := set m | m in tally :: m.sender;
    forall m, m' | m in tally && m' in tally && m.sender == m'.sender ensures m == m' {
      OneVotePerView(s.nodes[m.sender].le.out, m.sender, MyView(s.nodes[m.sender].le), m, m');
    }
    InjectiveImageSize(tally, (m: LeMsg) => m.sender, senders);
    forall j | j in senders ensures j in Voters(s, i, v) {
      var m :| m in tally && m.sender == j;
      assert m in s.nodes[j].le.out;
    }
  }

  /** The votes a winner counted came from as many distinct members. */
  lemma WinnerHasVoters(s: System, i: int, nd: ENode)
    requires forall j :: j in s.nodes ==> VotesAscend(s.nodes[j].le.out, j, MyView(s.nodes[j].le))
    requires i in s.nodes && s.nodes[i].le.out == nd.le.out && nd.le.me == i && nd.le.t.rows.Keys == s.nodes.Keys
    requires forall m :: m in nd.accepted ==> IsVote(m) && Provenance(s, i, m)
    requires WonWith(nd.le, nd.accepted)
    ensures |Voters(s, i, MyView(nd.le))| >= QuorumSize(|s.nodes|)
  {
    var v := MyView(nd.le);
    var senders := TallySenders(s, i, Tally(nd.accepted, v, i), v);
    SubsetSize(if OwnVote(nd.le, i) == 1 then senders + {i} else senders, Voters(s, i, v));
    assert |nd.le.t.rows.Keys| == |s.nodes.Keys|;
  }

  /** What a step leaves at its own node. */
  lemma StepLocal(s: System, step: Step)
    requires Inv(s) && Enabled(s, step)
    ensures var i := step.i;
            var nd, nd' := s.nodes[i], After(s, step).nodes[i];
            && LocalOk(nd'.le, nd'.accepted) && SameNode(nd.le, nd'.le)
            && (Wins(nd.le, nd'.le) ==> WonWith(nd'.le, nd'.accepted))
            && forall m :: m in nd'.accepted ==> Provenance(s, i, m)
  {
    var i, nd := step.i, s.nodes[step.i];
    assert NodeOk(s, i, nd);
    match step
    case Receive(_, from, k, tmo) =>
      var m := s.nodes[from].le.out[k];
      assert NodeOk(s, from, s.nodes[from]);
      assert Meets(CountsOnce, s, step) && Meets(AdoptsVotedView, s, step);
      ActivityOk(nd.le, Some(m), tmo, nd.accepted);
    case Idle(_, tmo) =>
      assert Meets(AdoptsVotedView, s, step);
      ActivityOk(nd.le, None, tmo, nd.accepted);
    case Gossip(_, t') =>
      assert Meets(ViewStays, s, step);
      GossipKeepsOk(nd.le, t', nd.accepted);
  }

  lemma StepKeepsNodes(s: System, step: Step)
    requires Inv(s) && Enabled(s, step)
    ensures Grows(s, After(s, step))
    ensures NodesOk(After(s, step))
  {
    var i, s' := step.i, After(s, step);
    assert NodeOk(s, i, s.nodes[i]);
    StepLocal(s, step);
    assert Grows(s, s');
    forall j | j in s'.nodes ensures NodeOk(s', j, s'.nodes[j]) {
      assert NodeOk(s, j, s.nodes[j]);
      forall m | m in s'.nodes[j].accepted ensures Provenance(s', j, m) {
        assert Provenance(s, j, m);
      }
    }
  }

  lemma NewWinOk(s: System, i: int)
    requires i in s.nodes && NodesOk(s)
    requires WonWith(s.nodes[i].le, s.nodes[i].accepted)
    ensures WinOk(s, Win(i, MyView(s.nodes[i].le)))
  {
    forall j | j in s.nodes ensures VotesAscend(s.nodes[j].le.out, j, MyView(s.nodes[j].le)) {
      assert NodeOk(s, j, s.nodes[j]);
    }
    assert NodeOk(s, i, s.nodes[i]);
    WinnerHasVoters(s, i, s.nodes[i]);
  }

  lemma WinsKept(s: System, s': System, i: int)
    requires Inv(s) && Grows(s, s') && i in s'.nodes
    requires NodesOk(s')
    requires s'.wins == s.wins
             || (WonWith(s'.nodes[i].le, s'.nodes[i].accepted)
                 && s'.wins == s.wins + {Win(i, MyView(s'.nodes[i].le))})
    ensures Inv(s')
  {
    forall w | w in s'.wins ensures WinOk(s', w) {
      if w in s.wins {
        WinOkGrows(s, s', w);
      } else {
        NewWinOk(s', i);
      }
    }
  }

  lemma StepKeepsInv(s: System, step: Step)
    requires Inv(s) && Enabled(s, step)
    ensures Inv(After(s, step)) && s.wins <= After(s, step).wins
  {
    var s' := After(s, step);
    StepLocal(s, step);
    StepKeepsNodes(s, step);
    WinsKept(s, s', step.i);
  }

  lemma InitInv(s: System)
    requires Init(s)
    ensures Inv(s)
  {
    forall i | i in s.nodes ensures NodeOk(s, i, s.nodes[i]) {
    }
  }

  lemma {:induction false} RunInv(run: seq<System>, k: nat)
    requires IsRun(run) && k < |run|
    ensures Inv(run[k])
  {
    if k == 0 {
      InitInv(run[0]);
    } else {
      RunInv(run, k - 1);
      assert StepAt(run, k - 1);
      var step :| Enabled(run[k - 1], step) && run[k] == After(run[k - 1], step);
      StepKeepsInv(run[k - 1], step);
    }
  }

  lemma {:induction false} WinsKeptInRun(run: seq<System>, k: nat, l: nat)
    requires IsRun(run) && k <= l < |run|
    ensures run[k].wins <= run[l].wins
  {
    if k < l {
      WinsKeptInRun(run, k, l - 1);
      RunInv(run, l - 1);
      assert StepAt(run, l - 1);
      var step :| Enabled(run[l - 1], step) && run[l] == After(run[l - 1], step);
      StepKeepsInv(run[l - 1], step);
    }
  }

  /** Two wins on record at one moment are of different views or of the same node. */
  lemma WinnersAgree(s: System, a: Win, b: Win)
    requires Inv(s) && a in s.wins && b in s.wins && a.view == b.view
    ensures a.node == b.node
  {
    assert WinOk(s, a) && WinOk(s, b);
    assert |s.nodes.Keys| == |s.nodes|;
    QuorumsMeet(s.nodes.Keys, Voters(s, a.node, a.view), Voters(s, b.node, b.view));
    var i :| i in Voters(s, a.node, a.view) && i in Voters(s, b.node, b.view);
    assert NodeOk(s, i, s.nodes[i]);
    var out := s.nodes[i].le.out;
    var m :| m in out && IsVote(m) && m.view == a.view && m.voteDst == a.node;
    var m' :| m' in out && IsVote(m') && m'.view == b.view && m'.voteDst == b.node;
    OneVotePerView(out, i, MyView(s.nodes[i].le), m, m');
  }

  /** Election safety: two nodes that make the move from Electing to Leader in the same view, at
      whatever moments of a run, are the same node. */
  lemma ElectionSafety(run: seq<System>, k: nat, i: int, l: nat, j: int)
    requires IsRun(run) && k < |run| - 1 && l < |run| - 1
    requires i in run[k].nodes && i in run[k + 1].nodes && Wins(run[k].nodes[i].le, run[k + 1].nodes[i].le)
    requires j in run[l].nodes && j in run[l + 1].nodes && Wins(run[l].nodes[j].le, run[l + 1].nodes[j].le)
    requires MyView(run[k + 1].nodes[i].le) == MyView(run[l + 1].nodes[j].le)
    ensures i == j
  {
    var last := |run| - 1;
    WinRecorded(run, k, i);
    WinRecorded(run, l, j);
    WinsKeptInRun(run, k + 1, last);
    WinsKeptInRun(run, l + 1, last);
    RunInv(run, last);
    WinnersAgree(run[last], Win(i, MyView(run[k + 1].nodes[i].le)), Win(j, MyView(run[l + 1].nodes[j].le)));
  }

  lemma WinRecorded(run: seq<System>, k: nat, i: int)
    requires IsRun(run) && k < |run| - 1
    requires i in run[k].nodes && i in run[k + 1].nodes && Wins(run[k].nodes[i].le, run[k + 1].nodes[i].le)
    ensures Win(i, MyView(run[k + 1].nodes[i].le)) in run[k + 1].wins
  {
    assert StepAt(run, k);
    var step :| Enabled(run[k], step) && run[k + 1] == After(run[k], step);
  }

  /** What a vote counter means, at every moment of every run: while node i is electing, its counter
      for a member is the number of votes for that member, of i's current view, that it accepted,
      plus its own vote when it voted for itself in that view. */
  lemma VoteCountMeaning(run: seq<System>, k: nat, i: int, id: int)
    requires IsRun(run) && k < |run| && i in run[k].nodes && run[k].nodes[i].le.phase.Electing?
    requires id in run[k].nodes[i].le.t.rows
    ensures var nd := run[k].nodes[i];
            nd.le.t.rows[id].votes
            == |set m | m in nd.accepted && m.view == MyView(nd.le) && m.voteDst == id|
               + (if id == i && VotedFor(nd.le.out, MyView(nd.le), i) then 1 else 0)
  {
    RunInv(run, k);
    var nd := run[k].nodes[i];
    assert NodeOk(run[k], i, nd);
    assert (set m | m in nd.accepted && m.view == MyView(nd.le) && m.voteDst == id)
           == Tally(nd.accepted, MyView(nd.le), id);
  }

  /** At every moment of every run, a node has sent at most one vote for any view. */
  lemma OneVotePerViewInRun(run: seq<System>, k: nat, i: int, p: nat, q: nat)
    requires IsRun(run) && k < |run| && i in run[k].nodes
    requires p < |run[k].nodes[i].le.out| && q < |run[k].nodes[i].le.out|
    requires var out := run[k].nodes[i].le.out; IsVote(out[p]) && IsVote(out[q]) && out[p].view == out[q].view
    ensures p == q
  {
    RunInv(run, k);
    assert NodeOk(run[k], i, run[k].nodes[i]);
  }

  /** In every run a follower that receives a message only clears its counters: the view number its
      reaction depends on is never recorded. It leaves its state by losing the leader. */
  lemma FollowersIgnoreMessages(run: seq<System>, k: nat, i: int, from: int, p: nat, tmo: bool)
    requires IsRun(run) && k < |run| && i in run[k].nodes && run[k].nodes[i].le.phase.Follower?
    requires from in run[k].nodes && p < |run[k].nodes[from].le.out|
    ensures var st := run[k].nodes[i].le;
            Activity(st, Some(run[k].nodes[from].le.out[p]), tmo) == st.(t := ResetVotes(st.t))
  {
    RunInv(run, k);
    assert NodeOk(run[k], from, run[k].nodes[from]);
  }

  /** Every way into a fresh voting period raises the view and leaves no votes behind. */
  lemma FreshPeriod(st: LeState, msg: Option<LeMsg>, tmo: bool, view: nat)
    requires st.me in st.t.rows && st.me in st.t.order && (msg.Some? ==> msg.value.viewWhenRcvd == 0)
    ensures st.phase.Electing? && view > MyView(st) ==>
              var st' := RestartElectionPeriod(st, view);
              MyView(st') == view && !st'.phase.voteCast
              && forall id :: id in st'.t.rows ==> st'.t.rows[id].votes == 0
    ensures var st' := FollowerActivity(st, msg, tmo);
            st.phase.Follower? && st'.phase.Electing? ==>
              MyView(st') > MyView(st) && !st'.phase.voteCast
              && forall id :: id in st'.t.rows ==> st'.t.rows[id].votes == 0
  {
  }
}
