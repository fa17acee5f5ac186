/** What a round of the election does, said of the member table: when exactly a node votes, counts, wins,
    starts over, follows, and steps down. */
module ElectionRounds {
  import opened LogModel
  import opened Membership
  import opened Election

  /** Member `id` reaches n/2+1 members with its connections and itself. */
  predicate Reaches(t: Table, id: int) { id in t.rows && |t.rows[id].connections| + 1 >= |t.rows| / 2 + 1 }

  /** `c` is the lowest such member. */
  ghost predicate Lowest(t: Table, c: int) { Reaches(t, c) && forall id :: Reaches(t, id) ==> c <= id }

  ghost predicate NoVotes(t: Table) { forall id :: id in t.rows ==> t.rows[id].votes == 0 }

  /** Only the own row and the vote counters may differ. */
  ghost predicate OthersKept(t: Table, t': Table, me: int) {
    && t'.order == t.order && t'.rows.Keys == t.rows.Keys
    && forall id :: id in t.rows && id != me ==> t'.rows[id] == t.rows[id].(votes := t'.rows[id].votes)
  }

  lemma LowestIsScanned(t: Table, c: int)
    requires ValidTable(t) && !Reaches(t, 0) && Lowest(t, c)
    ensures LowestQc(t) == (true, c)
  {
    LowestQcMeaning(t);
    assert IsQc(t, c);
    assert Reaches(t, LowestQc(t).1);
    assert !IsQc(t, 0);
  }

  lemma NobodyIsScanned(t: Table)
    requires ValidTable(t) && forall id :: !Reaches(t, id)
    ensures !LowestQc(t).0 && !AnyQc(t)
  {
    LowestQcMeaning(t);
    AnyQcMeaning(t);
    assert forall id :: IsQc(t, id) ==> Reaches(t, id);
  }

  /** A node that has not voted in its period votes for the lowest member that reaches a quorum, counting
      the vote itself exactly when it is for itself. */
  lemma VotesForLowest(st: LeState, c: int)
    requires st.phase.Electing? && st.me in st.t.rows
    requires ValidTable(st.t) && !Reaches(st.t, 0) && Lowest(st.t, c) && !st.phase.voteCast
    ensures var st', mine := CastVote(st), st.t.rows[st.me];
            && st'.out == st.out + [LeMsg(ElectionVote, mine.view, mine.op, st.me, c, 0)]
            && st'.phase == st.phase.(voteCast := true)
            && (c == st.me ==> st'.t == st.t.(rows := st.t.rows[c := st.t.rows[c].(votes := st.t.rows[c].votes + 1)]))
            && (c != st.me ==> st'.t == st.t)
  {
    LowestIsScanned(st.t, c);
  }

  /** It does not vote when it has, or when nobody reaches a quorum. */
  lemma DoesNotVote(st: LeState)
    requires st.phase.Electing? && ValidTable(st.t) && (st.phase.voteCast || forall id :: !Reaches(st.t, id))
    ensures CastVote(st) == st
  {
    if !st.phase.voteCast {
      NobodyIsScanned(st.t);
    }
  }

  /** Entering the state a node announces the election in its view, before it votes. */
  lemma AnnouncesOnEntry(st: LeState)
    requires st.phase == Electing(true, false) && st.me in st.t.rows
    ensures var start := LeMsg(ElectionStart, st.t.rows[st.me].view, 0, st.me, 0, 0);
            && |FirstTimeElecting(st).out| > |st.out| && FirstTimeElecting(st).out[..|st.out| + 1] == st.out + [start]
            && FirstTimeElecting(st) == CastVote(st.(out := st.out + [start])).(phase := FirstTimeElecting(st).phase)
            && FirstTimeElecting(st).phase == Electing(false, CastVote(st.(out := st.out + [start])).phase.voteCast)
  {
  }

  /** A new period: that view, no votes, its start announced, the vote free. */
  ghost predicate NewPeriod(st: LeState, st': LeState, view: nat) {
    && st.me in st.t.rows && st'.phase == Electing(st.phase.Electing? && st.phase.first, false)
    && st'.t.rows.Keys == st.t.rows.Keys && st'.t.rows[st.me] == st.t.rows[st.me].(view := view, votes := 0)
    && NoVotes(st'.t) && OthersKept(st.t, st'.t, st.me)
    && st'.me == st.me && st'.events == st.events
    && st'.out == st.out + [LeMsg(ElectionStart, view, 0, st.me, 0, 0)]
  }

  lemma RestartIsNewPeriod(st: LeState, view: nat)
    requires st.phase.Electing? && st.me in st.t.rows
    ensures NewPeriod(st, RestartElectionPeriod(st, view), view)
  {
  }

  /** A vote or an announced election of a higher view starts a new period in that view; the vote is not
      counted. */
  lemma HigherViewStartsOver(st: LeState, m: LeMsg)
    requires st.phase.Electing? && st.me in st.t.rows
    requires !m.kind.ElectionCompleted? && m.view > st.t.rows[st.me].view
    ensures NewPeriod(st, OnElectingMsg(st, m), m.view)
  {
    var st1 := RestartElectionPeriod(st, m.view);
    RestartIsNewPeriod(st, m.view);
    assert st1.t.rows[st1.me].votes == 0 && !VoteMajority(st1.t, st1.me);
  }

  /** A vote of the own view counts one for its candidate, brings the sender's number, and wins exactly
      when the own count is then at least n/2+1. */
  lemma CurrentVoteCounts(st: LeState, m: LeMsg)
    requires st.phase.Electing? && st.me in st.t.rows
    requires m.kind.ElectionVote? && m.view == st.t.rows[st.me].view
    ensures var st' := OnElectingMsg(st, m);
            var count := (id: int) requires id in st.t.rows => st.t.rows[id].votes + if id == m.voteDst then 1 else 0;
            && st'.t.order == st.t.order && st'.t.rows.Keys == st.t.rows.Keys
            && (forall id :: id in st.t.rows ==>
                  st'.t.rows[id]
                  == st.t.rows[id].(votes := count(id), op := if id == m.sender then m.op else st.t.rows[id].op))
            && st'.phase == (if count(st.me) >= |st.t.rows| / 2 + 1 then Leader(true) else st.phase)
            && st'.out == st.out && st'.events == st.events
  {
    var t' := OnVote(st, m).t;
    assert t'.rows.Keys == st.t.rows.Keys;
    assert |t'.rows| == |t'.rows.Keys| && |st.t.rows| == |st.t.rows.Keys|;
  }

  /** A vote of a lower view, and an announcement of a view that is not higher, change nothing, unless the
      node already has the count to win when the vote comes. */
  lemma LowerViewIgnored(st: LeState, m: LeMsg)
    requires st.phase.Electing? && st.me in st.t.rows
    requires (m.kind.ElectionVote? && m.view < st.t.rows[st.me].view)
             || (m.kind.ElectionStart? && m.view <= st.t.rows[st.me].view)
    ensures OnElectingMsg(st, m) ==
            if m.kind.ElectionVote? && st.t.rows[st.me].votes >= |st.t.rows| / 2 + 1
            then st.(phase := Leader(true)) else st
  {
  }

  /** A completed election ends the node's own exactly when its view is not lower. */
  lemma CompletedEnds(st: LeState, m: LeMsg)
    requires st.phase.Electing? && st.me in st.t.rows && m.kind.ElectionCompleted?
    ensures OnElectingMsg(st, m) == if m.view >= st.t.rows[st.me].view then st.(phase := Follower) else st
  {
  }

  ghost predicate SameMembers(st: LeState, st': LeState) {
    st'.me == st.me && st'.t.rows.Keys == st.t.rows.Keys && st'.t.order == st.t.order
  }

  lemma CastVoteKeepsMembers(st: LeState)
    requires st.phase.Electing?
    ensures SameMembers(st, CastVote(st))
  {
  }

  lemma MessageKeepsMembers(st: LeState, m: LeMsg)
    requires st.phase.Electing?
    ensures SameMembers(st, OnElectingMsg(st, m))
  {
  }

  lemma ReachMeaning(t: Table)
    requires ValidTable(t)
    ensures AnyQc(t) <==> exists id :: Reaches(t, id)
  {
    AnyQcMeaning(t);
    assert forall id :: IsQc(t, id) <==> Reaches(t, id);
  }

  /** An electing node follows an available leader into its view, and gives up when nobody reaches a
      quorum. */
  lemma ElectingEnds(st: LeState, msg: Option<LeMsg>, tmo: bool)
    requires st.phase.Electing? && st.me in st.t.rows && ValidTable(st.t)
    ensures var st' := ElectingActivity(st, msg, tmo);
            && (LeaderId(st.t) != 0 ==>
                  && st'.phase == Follower && st'.out == st.out
                  && st'.t.rows.Keys == st.t.rows.Keys
                  && st'.t.rows[st.me] == st.t.rows[st.me].(view := Row(st.t, LeaderId(st.t)).view)
                  && OthersKept(st.t, st'.t, st.me))
            && (LeaderId(st.t) == 0 && (forall id :: !Reaches(st.t, id)) ==> st' == st.(phase := Follower))
  {
    ReachMeaning(st.t);
  }

  /** Otherwise, without a message, it has announced the election once, voted once for the lowest member
      that reaches a quorum, and done nothing else. */
  lemma ElectingVotesOnce(st: LeState, c: int)
    requires st.phase.Electing? && st.me in st.t.rows && ValidTable(st.t)
    requires LeaderId(st.t) == 0 && !Reaches(st.t, 0) && Lowest(st.t, c)
    ensures var st', mine := ElectingActivity(st, None, false), st.t.rows[st.me];
            && st'.out == st.out
                 + (if st.phase.first then [LeMsg(ElectionStart, mine.view, 0, st.me, 0, 0)] else [])
                 + (if st.phase.voteCast then [] else [LeMsg(ElectionVote, mine.view, mine.op, st.me, c, 0)])
            && st'.phase == Electing(false, true)
            && st'.t == (if c == st.me && !st.phase.voteCast
                         then st.t.(rows := st.t.rows[c := st.t.rows[c].(votes := st.t.rows[c].votes + 1)])
                         else st.t)
            && st' == st.(out := st'.out, phase := st'.phase, t := st'.t)
  {
    ReachMeaning(st.t);
    LowestIsScanned(st.t, c);
  }

  /** `view` is one above the largest view of any member. */
  ghost predicate OneAbove(t: Table, view: nat) {
    && (forall id :: id in t.rows ==> t.rows[id].view < view)
    && (view == 1 || exists id :: id in t.rows && t.rows[id].view + 1 == view)
  }

  lemma LargestIsBelow(t: Table)
    requires ValidTable(t)
    ensures OneAbove(t, LargestView(t) + 1)
  {
    LargestMeaning(t, (r: Member) => r.view);
  }

  /** If the period is over and the node still elects, the next one has started one above every view it
      knows. */
  ghost predicate EndOfRound(heard: LeState, st': LeState, tmo: bool) {
    if heard.phase.Electing? && tmo then
      exists view: nat :: NewPeriod(heard, st', view) && OneAbove(heard.t, view)
    else st' == heard
  }

  lemma TmoStartsOver(st: LeState, tmo: bool)
    requires st.me in st.t.rows && ValidTable(st.t)
    ensures EndOfRound(st, RestartIfTmo(st, tmo), tmo)
  {
    if st.phase.Electing? {
      LargestIsBelow(st.t);
      RestartIsNewPeriod(st, LargestView(st.t) + 1);
    }
  }

  function AfterVote(voted: LeState, msg: Option<LeMsg>): LeState
    requires voted.phase.Electing?
  {
    match msg
    case Some(m) => OnElectingMsg(voted, m)
    case None => voted
  }

  lemma RoundParts(st: LeState, msg: Option<LeMsg>, tmo: bool)
    requires st.phase.Electing? && ValidTable(st.t) && LeaderId(st.t) == 0 && exists id :: Reaches(st.t, id)
    ensures var voted := ElectingActivity(st, None, false);
            && voted.phase.Electing?
            && SameMembers(st, AfterVote(voted, msg))
            && ElectingActivity(st, msg, tmo) == RestartIfTmo(AfterVote(voted, msg), tmo)
  {
    ReachMeaning(st.t);
    CastVoteKeepsMembers(Send(st, StartMsg(st)));
    CastVoteKeepsMembers(FirstTimeElecting(st));
    if msg.Some? {
      MessageKeepsMembers(CastVote(FirstTimeElecting(st)), msg.value);
    }
  }

  /** A message at hand is handled after that, and then the time is looked at. */
  lemma ElectingRound(st: LeState, msg: Option<LeMsg>, tmo: bool)
    requires st.phase.Electing? && st.me in st.t.rows && ValidTable(st.t)
    requires LeaderId(st.t) == 0 && exists id :: Reaches(st.t, id)
    ensures var voted := ElectingActivity(st, None, false);
            && voted.phase.Electing?
            && EndOfRound(AfterVote(voted, msg), ElectingActivity(st, msg, tmo), tmo)
  {
    RoundParts(st, msg, tmo);
    TmoStartsOver(AfterVote(ElectingActivity(st, None, false), msg), tmo);
  }

  /** A vote for `dst`, if there is one, over cleared counters, and the view the node is then in. */
  lemma OneVoteCounted(t: Table, me: int, vote: Option<int>, view: nat)
    requires me in t.rows
    ensures var t' := SetView(if vote.Some? then AddVote(ResetVotes(t), vote.value) else ResetVotes(t), me, view);
            && OthersKept(t, t', me)
            && t'.rows[me].(votes := 0) == t.rows[me].(votes := 0, view := view)
            && forall id :: id in t.rows ==> t'.rows[id].votes == if vote == Some(id) then 1 else 0
  {
  }

  /** A follower starts an election exactly when no message is at hand, no leader is reported, its patience
      is over and some member reaches a quorum: one above every view it knows, with no votes. Otherwise it
      only clears the counters. */
  lemma FollowerElectsExactly(st: LeState, tmo: bool)
    requires st.phase.Follower? && st.me in st.t.rows && ValidTable(st.t)
    ensures var st' := FollowerActivity(st, None, tmo);
            && NoVotes(st'.t) && OthersKept(st.t, st'.t, st.me) && st'.out == st.out
            && (if LeaderId(ResetVotes(st.t)) == 0 && tmo && exists id :: Reaches(st.t, id) then
                  st'.phase == Electing(true, false)
                  && OneAbove(st.t, st'.t.rows[st.me].view)
                else st'.phase == Follower && st'.t.rows[st.me].view == st.t.rows[st.me].view)
  {
    ResetKeepsReach(st.t);
    ResetKeepsViews(st.t);
    OneVoteCounted(st.t, st.me, None, LargestView(ResetVotes(st.t)) + 1);
  }

  lemma ResetKeepsViews(t: Table)
    requires ValidTable(t)
    ensures OneAbove(t, LargestView(ResetVotes(t)) + 1)
  {
    LargestIsBelow(ResetVotes(t));
    assert forall id :: id in t.rows ==> ResetVotes(t).rows[id].view == t.rows[id].view;
  }

  /** With a message at hand a follower starts an election exactly when the message carries a view above the
      one noted at its arrival, and one was noted: in that view, with no votes but the one the message
      brings. Otherwise it only clears the counters. */
  lemma FollowerHearsExactly(st: LeState, m: LeMsg, tmo: bool)
    requires st.phase.Follower? && st.me in st.t.rows
    ensures var st' := FollowerActivity(st, Some(m), tmo);
            var elects := 0 < m.viewWhenRcvd < m.view && !m.kind.ElectionStart?;
            && OthersKept(st.t, st'.t, st.me) && st'.out == st.out && st'.events == st.events && st'.me == st.me
            && st'.phase == (if elects then Electing(true, false) else Follower)
            && st'.t.rows[st.me].(votes := 0)
               == st.t.rows[st.me].(votes := 0, view := if elects then m.view else st.t.rows[st.me].view)
            && forall id :: id in st.t.rows ==>
                 st'.t.rows[id].votes == if elects && m.kind.ElectionVote? && id == m.voteDst then 1 else 0
  {
    if HigherThanWhenRcvd(m) && !m.kind.ElectionStart? {
      OneVoteCounted(st.t, st.me, if m.kind.ElectionVote? then Some(m.voteDst) else None, m.view);
    }
  }

  lemma ResetKeepsReach(t: Table)
    requires ValidTable(t)
    ensures AnyQc(ResetVotes(t)) <==> exists id :: Reaches(t, id)
  {
    var t1 := ResetVotes(t);
    assert t1.rows.Keys == t.rows.Keys;
    assert |t1.rows| == |t1.rows.Keys| && |t.rows| == |t.rows.Keys|;
    ReachMeaning(t1);
    assert forall id :: Reaches(t1, id) <==> Reaches(t, id);
  }

  /** A leader's round: entering, it marks itself, announces the completed election in its view and makes
      the callback; and it steps down exactly when a message of a higher view has come or it no longer
      reaches a quorum, clearing its mark and making the other callback. */
  lemma StepsDownExactly(st: LeState, msg: Option<LeMsg>)
    requires st.phase.Leader? && st.me in st.t.rows
    ensures var st', mine := LeaderActivity(st, msg), st.t.rows[st.me];
            var leaves := (msg.Some? && msg.value.view > mine.view) || |mine.connections| + 1 < |st.t.rows| / 2 + 1;
            && st'.phase == (if leaves then Follower else Leader(false))
            && st'.events == st.events + (if st.phase.first then [Entered] else []) + (if leaves then [Left] else [])
            && st'.out
               == st.out + (if st.phase.first then [LeMsg(ElectionCompleted, mine.view, 0, st.me, 0, 0)] else [])
            && st'.t.rows.Keys == st.t.rows.Keys
            && st'.t.rows[st.me]
               == mine.(leaderId := if leaves then 0 else if st.phase.first then st.me else mine.leaderId)
            && forall id :: id in st.t.rows && id != st.me ==> st'.t.rows[id] == st.t.rows[id]
  {
    var t1 := FirstTimeLeader(st).t;
    assert t1.rows.Keys == st.t.rows.Keys;
    assert |t1.rows| == |t1.rows.Keys| && |st.t.rows| == |st.t.rows.Keys|;
  }

  /** Queued messages are handled one after the other, in the order they came, each with the time as it is
      then. */
  lemma {:induction false} MessagesInOrder(st: LeState, inputs: seq<Input>, next: Input)
    ensures Messages(st, []) == st
    ensures Messages(st, inputs + [next]) == Activity(Messages(st, inputs), Some(next.msg), next.tmo)
    decreases |inputs|
  {
    if inputs == [] {
      assert inputs + [next] == [next];
      assert Messages(st, [next]) == Messages(Activity(st, Some(next.msg), next.tmo), []);
    } else {
      assert (inputs + [next])[1..] == inputs[1..] + [next];
      MessagesInOrder(Activity(st, Some(inputs[0].msg), inputs[0].tmo), inputs[1..], next);
    }
  }
}
