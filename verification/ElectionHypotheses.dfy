/** Why election safety has its hypotheses: for each of the three there is a run that gives up only that
    one and elects two nodes in one view. */
module ElectionHypotheses {
  import opened LogModel
  import opened Membership
  import opened Quorum
  import opened Election
  import opened ElectionSafety

  /** The step meets every hypothesis but `h`. */
  ghost predicate EnabledBut(h: Hypothesis, s: System, step: Step) {
    Possible(s, step) && forall g: Hypothesis {:trigger Meets(g, s, step)} :: g != h ==> Meets(g, s, step)
  }

  ghost predicate IsRunBut(h: Hypothesis, run: seq<System>, steps: seq<Step>) {
    && |run| == |steps| + 1 && Init(run[0])
    && forall k {:trigger steps[k]} :: 0 <= k < |steps| ==>
         EnabledBut(h, run[k], steps[k]) && run[k + 1] == After(run[k], steps[k])
  }

  /** What gossip does at this step is what the handler does with some member's present heartbeat. */
  ghost predicate Heard(s: System, step: Step) {
    step.Gossip? && step.i in s.nodes ==>
      exists j :: j in s.nodes && j != step.i
                  && step.t == ReceiveHeartbeat(s.nodes[step.i].le.t, step.i, MakeHeartbeat(s.nodes[j].le.t, j))
  }

  ghost predicate AllHeard(run: seq<System>, steps: seq<Step>) {
    |run| == |steps| + 1 && forall k {:trigger steps[k]} :: 0 <= k < |steps| ==> Heard(run[k], steps[k])
  }

  function Last(run: seq<System>): System
    requires run != []
  {
    run[|run| - 1]
  }

  lemma RunFrom(h: Hypothesis, s: System) returns (run: seq<System>, steps: seq<Step>)
    requires Init(s)
    ensures IsRunBut(h, run, steps) && AllHeard(run, steps) && run[0] == s && Last(run) == s
  {
    run, steps := [s], [];
  }

  lemma RunOn(h: Hypothesis, run: seq<System>, steps: seq<Step>, step: Step)
    requires IsRunBut(h, run, steps) && EnabledBut(h, Last(run), step)
    ensures IsRunBut(h, run + [After(Last(run), step)], steps + [step])
    ensures AllHeard(run, steps) && Heard(Last(run), step) ==>
              AllHeard(run + [After(Last(run), step)], steps + [step])
  {
    var run', steps' := run + [After(Last(run), step)], steps + [step];
    forall k {:trigger steps'[k]} | 0 <= k < |steps'|
      ensures EnabledBut(h, run'[k], steps'[k]) && run'[k + 1] == After(run'[k], steps'[k])
      ensures AllHeard(run, steps) && Heard(Last(run), step) ==> Heard(run'[k], steps'[k])
    {
      if k < |steps| {
        assert steps'[k] == steps[k] && run'[k] == run[k] && run'[k + 1] == run[k + 1];
      }
    }
  }

  // ----- a node that sees no leader and one quorum-connected member -----

  ghost predicate NobodyLeads(t: Table) { forall id :: id in t.rows ==> t.rows[id].leaderId == INVALID_LEADER_ID }

  ghost predicate Sees(t: Table, c: int) {
    ValidTable(t) && NobodyLeads(t) && c != 0 && forall id :: IsQc(t, id) <==> id == c
  }

  lemma {:induction false} NoLeaderFound(t: Table, i: nat)
    requires NobodyLeads(t) && i <= |t.order|
    ensures LeaderFrom(t, i, INVALID_LEADER_ID) == INVALID_LEADER_ID
    decreases |t.order| - i
  {
    if i < |t.order| {
      NoLeaderFound(t, i + 1);
    }
  }

  lemma SeesScans(t: Table, c: int)
    requires Sees(t, c)
    ensures LeaderId(t) == INVALID_LEADER_ID && AnyQc(t) && LowestQc(t) == (true, c)
  {
    NoLeaderFound(t, 0);
    AnyQcMeaning(t);
    LowestQcMeaning(t);
    assert IsQc(t, c);
  }

  lemma SameScans(t: Table, t': Table, c: int)
    requires Sees(t, c) && t'.order == t.order && t'.rows.Keys == t.rows.Keys
    requires forall id :: id in t.rows ==>
               t'.rows[id].leaderId == t.rows[id].leaderId && t'.rows[id].connections == t.rows[id].connections
    ensures Sees(t', c)
  {
    assert |t'.rows| == |t'.rows.Keys| == |t.rows|;
    forall id ensures IsQc(t', id) <==> IsQc(t, id) {
    }
  }

  /** Node `me` sees only `c`, is in view `v`, the highest it knows, and has counted `n` votes for itself. */
  ghost predicate At(st: LeState, me: int, c: int, v: nat, n: nat, phase: Phase) {
    && st.me == me && me in st.t.rows && Sees(st.t, c) && st.phase == phase
    && st.t.rows[me].view == v && st.t.rows[me].votes == n
    && forall id :: id in st.t.rows ==> st.t.rows[id].view <= v
  }

  lemma HighestKnown(t: Table, me: int, v: nat)
    requires ValidTable(t) && me in t.rows && t.rows[me].view == v && forall id :: id in t.rows ==> t.rows[id].view <= v
    ensures LargestView(t) == v
  {
    LargestMeaning(t, (r: Member) => r.view);
  }

  lemma Elects(st: LeState, me: int, c: int, v: nat, n: nat)
    requires At(st, me, c, v, n, Follower)
    ensures var st' := Activity(st, None, true);
            && At(st', me, c, v + 1, 0, Electing(true, false))
            && st'.out == st.out && st'.t.rows.Keys == st.t.rows.Keys
            && forall id :: id in st.t.rows && id != me ==> st'.t.rows[id].view == st.t.rows[id].view
  {
    var t1 := ResetVotes(st.t);
    SameScans(st.t, t1, c);
    SeesScans(t1, c);
    HighestKnown(t1, me, v);
    SameScans(t1, SetView(t1, me, v + 1), c);
  }

  ghost predicate VoteSent(m: LeMsg, me: int, dst: int, v: nat) {
    IsVote(m) && m.sender == me && m.voteDst == dst && m.view == v
  }

  lemma Votes(st: LeState, me: int, c: int, v: nat, n: nat, first: bool)
    requires At(st, me, c, v, n, Electing(first, false))
    ensures var st' := Activity(st, None, false);
            && At(st', me, c, v, if c == me then n + 1 else n, Electing(false, true))
            && st'.t.rows.Keys == st.t.rows.Keys
            && st'.out != [] && VoteSent(st'.out[|st'.out| - 1], me, c, v)
            && forall id :: id in st.t.rows && id != me ==> st'.t.rows[id].view == st.t.rows[id].view
  {
    SeesScans(st.t, c);
    var st1 := if first then Send(st, StartMsg(st)) else st;
    var st2 := CastVote(st1);
    assert st2.out == st1.out + [VoteMsg(st1, c)];
    SameScans(st.t, st2.t, c);
    SeesScans(st2.t, c);
    assert CastVote(FirstTimeElecting(st)) == st2.(phase := Electing(false, true));
  }

  lemma Counts(st: LeState, me: int, c: int, v: nat, n: nat, m: LeMsg)
    requires At(st, me, c, v, n, Electing(false, true)) && IsVote(m) && m.view == v && m.voteDst == me
    ensures var st' := Activity(st, Some(m), false);
            && At(st', me, c, v, n + 1,
                  if n + 1 >= QuorumSize(|st.t.rows|) then Leader(true) else Electing(false, true))
            && st'.out == st.out && st'.t.rows.Keys == st.t.rows.Keys
  {
    SeesScans(st.t, c);
    var t' := SetOp(AddVote(st.t, me), m.sender, m.op);
    assert t'.rows.Keys == st.t.rows.Keys;
    assert |t'.rows| == |t'.rows.Keys| && |st.t.rows| == |st.t.rows.Keys|;
    SameScans(st.t, t', c);
    assert OnVote(st, m).t == t';
  }

  lemma Restarts(st: LeState, me: int, c: int, v: nat, n: nat)
    requires At(st, me, c, v, n, Electing(false, true))
    ensures var st' := Activity(st, None, true);
            At(st', me, c, v + 1, 0, Electing(false, false)) && st'.t.rows.Keys == st.t.rows.Keys
  {
    SeesScans(st.t, c);
    HighestKnown(st.t, me, v);
    SameScans(st.t, SetView(ResetVotes(st.t), me, v + 1), c);
  }

  // ----- the same as steps of a run -----

  /** The step changed only node `i`, and nobody's wins were lost. */
  ghost predicate OnlyAt(s: System, s': System, i: int) {
    && s'.nodes.Keys == s.nodes.Keys && s.wins <= s'.wins
    && forall j :: j in s.nodes && j != i ==> s'.nodes[j] == s.nodes[j]
  }

  /** One round without a message. */
  lemma DoIdle(h: Hypothesis, run: seq<System>, steps: seq<Step>, i: int, tmo: bool)
    returns (run': seq<System>, steps': seq<Step>)
    requires IsRunBut(h, run, steps) && i in Last(run).nodes
    requires h == AdoptsVotedView || LeaderId(Last(run).nodes[i].le.t) == INVALID_LEADER_ID
    ensures IsRunBut(h, run', steps') && (AllHeard(run, steps) ==> AllHeard(run', steps'))
    ensures OnlyAt(Last(run), Last(run'), i) && run'[0] == run[0]
    ensures var nd, nd' := Last(run).nodes[i], Last(run').nodes[i];
            nd'.le == Activity(nd.le, None, tmo) && nd'.accepted == Kept(nd.le, nd'.le, nd.accepted)
  {
    var s, step := Last(run), Idle(i, tmo);
    assert EnabledBut(h, s, step);
    RunOn(h, run, steps, step);
    run', steps' := run + [After(s, step)], steps + [step];
  }

  lemma StartPeriod(h: Hypothesis, run: seq<System>, steps: seq<Step>, i: int, c: int, v: nat, n: nat)
    returns (run': seq<System>, steps': seq<Step>)
    requires IsRunBut(h, run, steps) && i in Last(run).nodes && At(Last(run).nodes[i].le, i, c, v, n, Follower)
    ensures IsRunBut(h, run', steps') && (AllHeard(run, steps) ==> AllHeard(run', steps'))
    ensures OnlyAt(Last(run), Last(run'), i) && run'[0] == run[0] && Last(run').nodes[i].accepted == {}
    ensures var st, st' := Last(run).nodes[i].le, Last(run').nodes[i].le;
            && At(st', i, c, v + 1, 0, Electing(true, false)) && st'.t.rows.Keys == st.t.rows.Keys
            && forall id :: id in st.t.rows && id != i ==> st'.t.rows[id].view == st.t.rows[id].view
  {
    SeesScans(Last(run).nodes[i].le.t, c);
    Elects(Last(run).nodes[i].le, i, c, v, n);
    run', steps' := DoIdle(h, run, steps, i, true);
  }

  lemma VoteOnce(h: Hypothesis, run: seq<System>, steps: seq<Step>, i: int, c: int, v: nat, first: bool)
    returns (run': seq<System>, steps': seq<Step>)
    requires IsRunBut(h, run, steps) && i in Last(run).nodes
    requires At(Last(run).nodes[i].le, i, c, v, 0, Electing(first, false)) && Last(run).nodes[i].accepted == {}
    ensures IsRunBut(h, run', steps') && (AllHeard(run, steps) ==> AllHeard(run', steps'))
    ensures OnlyAt(Last(run), Last(run'), i) && run'[0] == run[0] && Last(run').nodes[i].accepted == {}
    ensures var st, st' := Last(run).nodes[i].le, Last(run').nodes[i].le;
            && At(st', i, c, v, if c == i then 1 else 0, Electing(false, true))
            && st'.t.rows.Keys == st.t.rows.Keys
            && st'.out != [] && VoteSent(st'.out[|st'.out| - 1], i, c, v)
            && forall id :: id in st.t.rows && id != i ==> st'.t.rows[id].view == st.t.rows[id].view
  {
    SeesScans(Last(run).nodes[i].le.t, c);
    Votes(Last(run).nodes[i].le, i, c, v, 0, first);
    run', steps' := DoIdle(h, run, steps, i, false);
  }

  /** A follower loses its leader, starts a period and votes. */
  lemma Campaign(h: Hypothesis, run: seq<System>, steps: seq<Step>, i: int, c: int, v: nat, n: nat)
    returns (run': seq<System>, steps': seq<Step>)
    requires IsRunBut(h, run, steps) && i in Last(run).nodes && At(Last(run).nodes[i].le, i, c, v, n, Follower)
    ensures IsRunBut(h, run', steps') && (AllHeard(run, steps) ==> AllHeard(run', steps'))
    ensures OnlyAt(Last(run), Last(run'), i) && run'[0] == run[0] && Last(run').nodes[i].accepted == {}
    ensures var st, st' := Last(run).nodes[i].le, Last(run').nodes[i].le;
            && At(st', i, c, v + 1, if c == i then 1 else 0, Electing(false, true))
            && st'.t.rows.Keys == st.t.rows.Keys
            && st'.out != [] && VoteSent(st'.out[|st'.out| - 1], i, c, v + 1)
            && forall id :: id in st.t.rows && id != i ==> st'.t.rows[id].view == st.t.rows[id].view
  {
    run', steps' := StartPeriod(h, run, steps, i, c, v, n);
    run', steps' := VoteOnce(h, run', steps', i, c, v + 1, true);
  }

  /** A period of a node that has voted ends, and it votes again in the next view. */
  lemma Recampaign(h: Hypothesis, run: seq<System>, steps: seq<Step>, i: int, c: int, v: nat, n: nat)
    returns (run': seq<System>, steps': seq<Step>)
    requires IsRunBut(h, run, steps) && i in Last(run).nodes
    requires At(Last(run).nodes[i].le, i, c, v, n, Electing(false, true))
    ensures IsRunBut(h, run', steps') && OnlyAt(Last(run), Last(run'), i) && run'[0] == run[0]
    ensures var st' := Last(run').nodes[i].le;
            st'.out != [] && VoteSent(st'.out[|st'.out| - 1], i, c, v + 1)
  {
    SeesScans(Last(run).nodes[i].le.t, c);
    Restarts(Last(run).nodes[i].le, i, c, v, n);
    run', steps' := DoIdle(h, run, steps, i, true);
    run', steps' := VoteOnce(h, run', steps', i, c, v + 1, false);
  }

  /** Node `i` counts the last vote `from` has sent, and wins if that is enough. */
  lemma DeliverVote(h: Hypothesis, run: seq<System>, steps: seq<Step>, i: int, from: int, v: nat, n: nat)
    returns (run': seq<System>, steps': seq<Step>)
    requires IsRunBut(h, run, steps) && i in Last(run).nodes && from in Last(run).nodes && from != i
    requires At(Last(run).nodes[i].le, i, i, v, n, Electing(false, true))
    requires var out := Last(run).nodes[from].le.out;
             out != [] && VoteSent(out[|out| - 1], from, i, v)
             && (h == CountsOnce || out[|out| - 1] !in Last(run).nodes[i].accepted)
    ensures IsRunBut(h, run', steps') && (AllHeard(run, steps) ==> AllHeard(run', steps'))
    ensures OnlyAt(Last(run), Last(run'), i) && run'[0] == run[0]
    ensures var st, st' := Last(run).nodes[i].le, Last(run').nodes[i].le;
            var won := n + 1 >= QuorumSize(|st.t.rows|);
            && At(st', i, i, v, n + 1, if won then Leader(true) else Electing(false, true))
            && st'.t.rows.Keys == st.t.rows.Keys
            && (won ==> Win(i, v) in Last(run').wins)
  {
    var s := Last(run);
    var k := |s.nodes[from].le.out| - 1;
    var step := Receive(i, from, k, false);
    SeesScans(s.nodes[i].le.t, i);
    Counts(s.nodes[i].le, i, i, v, n, s.nodes[from].le.out[k]);
    assert EnabledBut(h, s, step);
    RunOn(h, run, steps, step);
    run', steps' := run + [After(s, step)], steps + [step];
  }

  // ----- without the first hypothesis -----

  /** Of four members, `a` and `b` vote for `a`, and `b`'s vote reaches `a` twice. */
  lemma TwiceIsEnough(run: seq<System>, steps: seq<Step>, a: int, b: int)
    returns (run': seq<System>, steps': seq<Step>)
    requires IsRunBut(CountsOnce, run, steps) && AllHeard(run, steps)
    requires a in Last(run).nodes && b in Last(run).nodes && a != b
    requires At(Last(run).nodes[a].le, a, a, 0, 0, Follower) && At(Last(run).nodes[b].le, b, a, 0, 0, Follower)
    requires |Last(run).nodes[a].le.t.rows.Keys| == 4
    ensures IsRunBut(CountsOnce, run', steps') && AllHeard(run', steps') && run'[0] == run[0]
    ensures Last(run').nodes.Keys == Last(run).nodes.Keys && Last(run).wins + {Win(a, 1)} <= Last(run').wins
    ensures forall j :: j in Last(run).nodes && j != a && j != b ==> Last(run').nodes[j] == Last(run).nodes[j]
  {
    run', steps' := Campaign(CountsOnce, run, steps, a, a, 0, 0);
    run', steps' := Campaign(CountsOnce, run', steps', b, a, 0, 0);
    assert |Last(run').nodes[a].le.t.rows| == |Last(run').nodes[a].le.t.rows.Keys|;
    run', steps' := DeliverVote(CountsOnce, run', steps', a, b, 1, 1);
    assert |Last(run').nodes[a].le.t.rows| == |Last(run').nodes[a].le.t.rows.Keys|;
    run', steps' := DeliverVote(CountsOnce, run', steps', a, b, 1, 2);
  }

  /** Four members, none in a view or with a leader, with the given connections. */
  function Web(conns: map<int, set<int>>): Table {
    Table([1, 2, 3, 4], map id | id in conns :: FRESH_MEMBER.(connections := conns[id]))
  }

  const UNHEARD: map<int, set<int>> := map[1 := {}, 2 := {}, 3 := {}, 4 := {}]

  /** A follower that has done nothing but listen. */
  function Listener(me: int, conns: map<int, set<int>>): ENode {
    ENode(LeState(me, Web(conns), Follower, [], []), {})
  }

  function HearIn(c: map<int, set<int>>, d: map<int, set<int>>, me: int, j: int): map<int, set<int>>
    requires c.Keys == d.Keys == {1, 2, 3, 4} && me in c && j in c
  {
    c[j := d[j]][me := c[me] + {j}]
  }

  lemma HearWeb(c: map<int, set<int>>, d: map<int, set<int>>, me: int, j: int)
    requires c.Keys == d.Keys == {1, 2, 3, 4} && me in c && j in c && me != j
    ensures ReceiveHeartbeat(Web(c), me, MakeHeartbeat(Web(d), j)) == Web(HearIn(c, d, me, j))
  {
    NoLeaderFound(Web(c), 0);
    NoLeaderFound(Web(d), 0);
    var hb := MakeHeartbeat(Web(d), j);
    assert HeardFrom(Web(c), hb).rows == Web(c[j := d[j]]).rows;
    NoLeaderFound(Web(c[j := d[j]]), 0);
  }

  lemma Hear(h: Hypothesis, run: seq<System>, steps: seq<Step>, i: int, c: map<int, set<int>>,
             j: int, d: map<int, set<int>>)
    returns (run': seq<System>, steps': seq<Step>)
    requires IsRunBut(h, run, steps) && AllHeard(run, steps)
    requires c.Keys == d.Keys == {1, 2, 3, 4} && i in c && j in c && i != j
    requires i in Last(run).nodes && Last(run).nodes[i] == Listener(i, c)
    requires j in Last(run).nodes && Last(run).nodes[j] == Listener(j, d)
    ensures IsRunBut(h, run', steps') && AllHeard(run', steps') && run'[0] == run[0]
    ensures OnlyAt(Last(run), Last(run'), i) && Last(run').nodes[i] == Listener(i, HearIn(c, d, i, j))
  {
    HearWeb(c, d, i, j);
    var s, step := Last(run), Gossip(i, Web(HearIn(c, d, i, j)));
    assert GossipFrame(s.nodes[i].le, step.t);
    assert Heard(s, step);
    assert EnabledBut(h, s, step);
    RunOn(h, run, steps, step);
    run', steps' := run + [After(s, step)], steps + [step];
  }

  lemma FourValid(c: map<int, set<int>>)
    requires c.Keys == {1, 2, 3, 4}
    ensures ValidTable(Web(c)) && |Web(c).rows| == |Web(c).rows.Keys| == 4
  {
    assert Web(c).rows.Keys == c.Keys;
  }

  lemma WebSees(c: map<int, set<int>>, me: int, seen: int)
    requires c.Keys == {1, 2, 3, 4} && me in c && seen in c && |c[seen]| == 2
    requires forall id :: id in c && id != seen ==> |c[id]| <= 1
    ensures At(Listener(me, c).le, me, seen, 0, 0, Follower) && |Listener(me, c).le.t.rows.Keys| == 4
  {
    FourValid(c);
    assert Sees(Web(c), seen);
  }

  /** The members as started. */
  ghost predicate Started(s: System) {
    s.nodes.Keys == {1, 2, 3, 4} && s.wins == {} && forall i :: i in s.nodes ==> s.nodes[i] == Listener(i, UNHEARD)
  }

  lemma StartedIsInit(s: System)
    requires Started(s)
    ensures Init(s)
  {
    FourValid(UNHEARD);
  }

  /** What member `a` knows after hearing 3 and 4, which have heard nobody. */
  function CandidateWeb(a: int): map<int, set<int>> { UNHEARD[a := {3, 4}] }

  /** What member `b` knows after hearing `a`. */
  function VoterWeb(a: int, b: int): map<int, set<int>> { UNHEARD[a := {3, 4}][b := {a}] }

  lemma HearsVoters(h: Hypothesis, run: seq<System>, steps: seq<Step>, a: int)
    returns (run': seq<System>, steps': seq<Step>)
    requires IsRunBut(h, run, steps) && AllHeard(run, steps) && a in {1, 2}
    requires Last(run).nodes.Keys == {1, 2, 3, 4} && Last(run).nodes[a] == Listener(a, UNHEARD)
    requires Last(run).nodes[3] == Listener(3, UNHEARD) && Last(run).nodes[4] == Listener(4, UNHEARD)
    ensures IsRunBut(h, run', steps') && AllHeard(run', steps') && run'[0] == run[0]
    ensures OnlyAt(Last(run), Last(run'), a) && Last(run').nodes[a] == Listener(a, CandidateWeb(a))
  {
    assert UNHEARD[a] + {3} == {3} && {3} + {4} == {3, 4};
    run', steps' := Hear(h, run, steps, a, UNHEARD, 3, UNHEARD);
    assert HearIn(UNHEARD, UNHEARD, a, 3) == UNHEARD[a := {3}];
    run', steps' := Hear(h, run', steps', a, UNHEARD[a := {3}], 4, UNHEARD);
    assert HearIn(UNHEARD[a := {3}], UNHEARD, a, 4) == CandidateWeb(a);
  }

  lemma HearsCandidate(h: Hypothesis, run: seq<System>, steps: seq<Step>, a: int, b: int)
    returns (run': seq<System>, steps': seq<Step>)
    requires IsRunBut(h, run, steps) && AllHeard(run, steps) && a in {1, 2} && b in {3, 4}
    requires Last(run).nodes.Keys == {1, 2, 3, 4}
    requires Last(run).nodes[a] == Listener(a, CandidateWeb(a)) && Last(run).nodes[b] == Listener(b, UNHEARD)
    ensures IsRunBut(h, run', steps') && AllHeard(run', steps') && run'[0] == run[0]
    ensures OnlyAt(Last(run), Last(run'), b) && Last(run').nodes[b] == Listener(b, VoterWeb(a, b))
  {
    assert UNHEARD[b] + {a} == {a};
    run', steps' := Hear(h, run, steps, b, UNHEARD, a, CandidateWeb(a));
    assert HearIn(UNHEARD, CandidateWeb(a), b, a) == VoterWeb(a, b);
  }

  lemma PairReady(a: int, b: int)
    requires a in {1, 2} && b in {3, 4}
    ensures At(Listener(a, CandidateWeb(a)).le, a, a, 0, 0, Follower)
    ensures At(Listener(b, VoterWeb(a, b)).le, b, a, 0, 0, Follower)
    ensures |Listener(a, CandidateWeb(a)).le.t.rows.Keys| == 4
  {
    assert |{3, 4}| == 2;
    WebSees(CandidateWeb(a), a, a);
    WebSees(VoterWeb(a, b), b, a);
  }

  /** Members 1 and 2 each hear 3 and 4; then 4 hears 1, and 3 hears 2. */
  lemma Introduce(h: Hypothesis, s: System) returns (run: seq<System>, steps: seq<Step>)
    requires Started(s)
    ensures IsRunBut(h, run, steps) && AllHeard(run, steps) && run[0] == s
    ensures var s' := Last(run);
            && s'.nodes.Keys == {1, 2, 3, 4}
            && s'.nodes[1] == Listener(1, CandidateWeb(1)) && s'.nodes[4] == Listener(4, VoterWeb(1, 4))
            && s'.nodes[2] == Listener(2, CandidateWeb(2)) && s'.nodes[3] == Listener(3, VoterWeb(2, 3))
  {
    StartedIsInit(s);
    run, steps := RunFrom(h, s);
    run, steps := HearsVoters(h, run, steps, 1);
    run, steps := HearsVoters(h, run, steps, 2);
    run, steps := HearsCandidate(h, run, steps, 1, 4);
    run, steps := HearsCandidate(h, run, steps, 2, 3);
  }

  /** A run of the code itself from freshly started members, in which gossip is nothing but heartbeats
      received: members 1 and 4 have heard of each other, and so have 2 and 3. Each pair votes for its
      lower member, whose counter the other's vote, delivered twice, brings to three. */
  lemma RepeatedVotesElectTwo(s: System) returns (run: seq<System>, steps: seq<Step>)
    requires Started(s)
    ensures IsRunBut(CountsOnce, run, steps) && AllHeard(run, steps) && run[0] == s
    ensures Win(1, 1) in Last(run).wins && Win(2, 1) in Last(run).wins
  {
    run, steps := Introduce(CountsOnce, s);
    PairReady(1, 4);
    PairReady(2, 3);
    run, steps := TwiceIsEnough(run, steps, 1, 4);
    run, steps := TwiceIsEnough(run, steps, 2, 3);
  }

  // ----- without the third hypothesis -----

  lemma MoveView(run: seq<System>, steps: seq<Step>, i: int, v: nat, n: nat)
    returns (run': seq<System>, steps': seq<Step>)
    requires IsRunBut(ViewStays, run, steps) && i in Last(run).nodes
    requires At(Last(run).nodes[i].le, i, i, v, n, Electing(false, true))
    ensures IsRunBut(ViewStays, run', steps') && run'[0] == run[0] && OnlyAt(Last(run), Last(run'), i)
    ensures var nd, nd' := Last(run).nodes[i], Last(run').nodes[i];
            && At(nd'.le, i, i, v + 1, n, Electing(false, true))
            && nd'.accepted == {} && nd'.le.t.rows.Keys == nd.le.t.rows.Keys
  {
    var s := Last(run);
    var st := s.nodes[i].le;
    var step := Gossip(i, SetView(st.t, i, v + 1));
    SameScans(st.t, step.t, i);
    assert GossipFrame(st, step.t);
    assert EnabledBut(ViewStays, s, step);
    RunOn(ViewStays, run, steps, step);
    run', steps' := run + [After(s, step)], steps + [step];
  }

  /** Both members have voted for `a` in view 1, and `a` has counted both; `b` goes on to view 2. */
  lemma TwoCounted(run: seq<System>, steps: seq<Step>, a: int, b: int)
    returns (run': seq<System>, steps': seq<Step>)
    requires IsRunBut(ViewStays, run, steps)
    requires a in Last(run).nodes && b in Last(run).nodes && a != b
    requires At(Last(run).nodes[a].le, a, a, 0, 0, Follower) && At(Last(run).nodes[b].le, b, a, 0, 0, Follower)
    requires |Last(run).nodes[a].le.t.rows.Keys| == 4
    ensures IsRunBut(ViewStays, run', steps') && run'[0] == run[0]
    ensures Last(run').nodes.Keys == Last(run).nodes.Keys && Last(run).wins <= Last(run').wins
    ensures forall j :: j in Last(run).nodes && j != a && j != b ==> Last(run').nodes[j] == Last(run).nodes[j]
    ensures At(Last(run').nodes[a].le, a, a, 1, 2, Electing(false, true))
    ensures Last(run').nodes[a].le.t.rows.Keys == Last(run).nodes[a].le.t.rows.Keys
    ensures var out := Last(run').nodes[b].le.out; out != [] && VoteSent(out[|out| - 1], b, a, 2)
  {
    run', steps' := Campaign(ViewStays, run, steps, a, a, 0, 0);
    run', steps' := Campaign(ViewStays, run', steps', b, a, 0, 0);
    assert |Last(run').nodes[a].le.t.rows| == |Last(run').nodes[a].le.t.rows.Keys|;
    run', steps' := DeliverVote(ViewStays, run', steps', a, b, 1, 1);
    run', steps' := Recampaign(ViewStays, run', steps', b, a, 1, 0);
  }

  /** Of four members, `a` and `b` vote for `a` in view 1; gossip moves `a` to view 2 with both votes on
      its counter, and `b`'s vote of view 2 is the third. */
  lemma MovedCountIsEnough(run: seq<System>, steps: seq<Step>, a: int, b: int)
    returns (run': seq<System>, steps': seq<Step>)
    requires IsRunBut(ViewStays, run, steps)
    requires a in Last(run).nodes && b in Last(run).nodes && a != b
    requires At(Last(run).nodes[a].le, a, a, 0, 0, Follower) && At(Last(run).nodes[b].le, b, a, 0, 0, Follower)
    requires |Last(run).nodes[a].le.t.rows.Keys| == 4
    ensures IsRunBut(ViewStays, run', steps') && run'[0] == run[0]
    ensures Last(run').nodes.Keys == Last(run).nodes.Keys && Last(run).wins + {Win(a, 2)} <= Last(run').wins
    ensures forall j :: j in Last(run).nodes && j != a && j != b ==> Last(run').nodes[j] == Last(run).nodes[j]
  {
    run', steps' := TwoCounted(run, steps, a, b);
    run', steps' := MoveView(run', steps', a, 1, 2);
    assert |Last(run').nodes[a].le.t.rows| == |Last(run').nodes[a].le.t.rows.Keys|;
    run', steps' := DeliverVote(ViewStays, run', steps', a, b, 2, 2);
  }

  /** A run from freshly started members that gives up only the third hypothesis and elects two of them
      in view 2. */
  lemma MovedViewsElectTwo(s: System) returns (run: seq<System>, steps: seq<Step>)
    requires Started(s)
    ensures IsRunBut(ViewStays, run, steps) && run[0] == s
    ensures Win(1, 2) in Last(run).wins && Win(2, 2) in Last(run).wins
  {
    run, steps := Introduce(ViewStays, s);
    PairReady(1, 4);
    PairReady(2, 3);
    run, steps := MovedCountIsEnough(run, steps, 1, 4);
    run, steps := MovedCountIsEnough(run, steps, 2, 3);
  }

  // ----- without the second hypothesis -----

  /** Three members, of which only `seen` has a connection. */
  function Trio(seen: int): Table {
    Table([1, 2, 3], map[1 := FRESH_MEMBER, 2 := FRESH_MEMBER, 3 := FRESH_MEMBER]
                     [seen := FRESH_MEMBER.(connections := {3})])
  }

  lemma TrioReady(me: int, seen: int)
    requires me in {1, 2, 3} && seen in {1, 2}
    ensures ValidTable(Trio(seen)) && Trio(seen).rows.Keys == {1, 2, 3} && |Trio(seen).rows.Keys| == 3
    ensures At(Onlooker(me, seen).le, me, seen, 0, 0, Follower)
  {
    var t := Trio(seen);
    assert t.rows.Keys == {1, 2, 3};
    assert |{1, 2, 3}| == 3 && |t.rows| == |t.rows.Keys|;
    assert Sees(t, seen);
  }

  function Onlooker(me: int, seen: int): ENode { ENode(LeState(me, Trio(seen), Follower, [], []), {}) }

  /** Three members in view 0; `a` and `b` see `a`, and `d` sees itself. */
  ghost predicate Ready(s: System, a: int, b: int, d: int) {
    && a in s.nodes && b in s.nodes && d in s.nodes
    && At(s.nodes[a].le, a, a, 0, 0, Follower) && At(s.nodes[b].le, b, a, 0, 0, Follower)
    && At(s.nodes[d].le, d, d, 0, 0, Follower)
    && |s.nodes[a].le.t.rows.Keys| == |s.nodes[d].le.t.rows.Keys| == 3
    && var rows := s.nodes[b].le.t.rows; |rows.Keys| == 3 && d in rows && rows[d].view == 0
  }

  /** Members 1 and 3 see member 1, member 2 sees itself. */
  ghost predicate Divided(s: System) {
    && s.nodes.Keys == {1, 2, 3} && s.wins == {}
    && forall i :: i in s.nodes ==> s.nodes[i] == Onlooker(i, if i == 2 then 2 else 1)
  }

  /** Gossip that does not touch votes or the own view. */
  lemma HearTable(run: seq<System>, steps: seq<Step>, i: int, t: Table)
    returns (run': seq<System>, steps': seq<Step>)
    requires IsRunBut(AdoptsVotedView, run, steps) && i in Last(run).nodes
    requires GossipFrame(Last(run).nodes[i].le, t) && Row(t, i).view == MyView(Last(run).nodes[i].le)
    requires Last(run).nodes[i].le.me == i
    ensures IsRunBut(AdoptsVotedView, run', steps') && run'[0] == run[0] && OnlyAt(Last(run), Last(run'), i)
    ensures Last(run').nodes[i].le == Last(run).nodes[i].le.(t := t)
  {
    var s, step := Last(run), Gossip(i, t);
    assert EnabledBut(AdoptsVotedView, s, step);
    RunOn(AdoptsVotedView, run, steps, step);
    run', steps' := run + [After(s, step)], steps + [step];
  }

  /** The table of a member to whom `d` claims to lead. */
  function Claimed(t: Table, d: int): Table { SetLeader(t, d, d) }

  /** A node in view 1 that has voted follows a claim in view 0. */
  lemma FollowsClaim(st: LeState, b: int, c: int, d: int, n: nat)
    requires At(st, b, c, 1, n, Electing(false, true)) && d in st.t.rows && d != b && d != 0 && st.t.rows[d].view == 0
    ensures var st1 := st.(t := Claimed(st.t, d));
            GossipFrame(st, st1.t) && Row(st1.t, b).view == 1
            && Activity(st1, None, false) == st1.(t := SetView(st1.t, b, 0), phase := Follower)
  {
    var t := Claimed(st.t, d);
    var k :| 0 <= k < |t.order| && t.order[k] == d;
    LeaderScan(t, 0, INVALID_LEADER_ID, k);
    assert forall id :: ClaimsLeadership(t, id) ==> id == d;
    assert LeaderId(t) == d;
  }

  /** What the node hears when the claim is gone: everyone is in view 0, and it sees only `d`. */
  function Afterwards(t: Table, b: int, d: int): Table {
    t.(rows := map id | id in t.rows ::
                 t.rows[id].(view := 0, leaderId := 0, connections := if id == d then {b} else {}))
  }

  lemma SeesOther(st: LeState, b: int, d: int)
    requires st.me == b && st.phase == Follower && ValidTable(st.t) && |st.t.rows.Keys| == 3
    requires b in st.t.rows && d in st.t.rows && d != b && d != 0 && st.t.rows[b].view == 0
    ensures var t' := Afterwards(st.t, b, d);
            && GossipFrame(st, t') && t'.rows.Keys == st.t.rows.Keys
            && At(st.(t := t'), b, d, 0, st.t.rows[b].votes, Follower)
  {
    var t' := Afterwards(st.t, b, d);
    assert t'.rows.Keys == st.t.rows.Keys;
    assert |t'.rows| == |t'.rows.Keys|;
    assert Sees(t', d);
  }

  /** Member `b`, which has voted in view 1, loses its vote's view and comes back to being a follower that
      sees only `d`. */
  lemma ForgetsItsVote(run: seq<System>, steps: seq<Step>, b: int, c: int, d: int, n: nat)
    returns (run': seq<System>, steps': seq<Step>, n': nat)
    requires IsRunBut(AdoptsVotedView, run, steps) && b in Last(run).nodes && d != b && d != 0
    requires At(Last(run).nodes[b].le, b, c, 1, n, Electing(false, true))
    requires var rows := Last(run).nodes[b].le.t.rows; |rows.Keys| == 3 && d in rows && rows[d].view == 0
    ensures IsRunBut(AdoptsVotedView, run', steps') && run'[0] == run[0] && OnlyAt(Last(run), Last(run'), b)
    ensures At(Last(run').nodes[b].le, b, d, 0, n', Follower)
  {
    var st := Last(run).nodes[b].le;
    FollowsClaim(st, b, c, d, n);
    run', steps' := HearTable(run, steps, b, Claimed(st.t, d));
    run', steps' := DoIdle(AdoptsVotedView, run', steps', b, false);
    var st1 := Last(run').nodes[b].le;
    SeesOther(st1, b, d);
    n' := st1.t.rows[b].votes;
    run', steps' := HearTable(run', steps', b, Afterwards(st1.t, b, d));
  }

  /** Of three members, `a` has its own vote and gets that of `b`. */
  lemma CollectVote(run: seq<System>, steps: seq<Step>, a: int, b: int)
    returns (run': seq<System>, steps': seq<Step>)
    requires IsRunBut(AdoptsVotedView, run, steps) && a in Last(run).nodes && b in Last(run).nodes && a != b
    requires At(Last(run).nodes[a].le, a, a, 1, 1, Electing(false, true)) && Last(run).nodes[a].accepted == {}
    requires |Last(run).nodes[a].le.t.rows.Keys| == 3
    requires var out := Last(run).nodes[b].le.out; out != [] && VoteSent(out[|out| - 1], b, a, 1)
    ensures IsRunBut(AdoptsVotedView, run', steps') && run'[0] == run[0]
    ensures OnlyAt(Last(run), Last(run'), a) && Win(a, 1) in Last(run').wins
  {
    assert |Last(run).nodes[a].le.t.rows| == |Last(run).nodes[a].le.t.rows.Keys|;
    run', steps' := DeliverVote(AdoptsVotedView, run, steps, a, b, 1, 1);
  }

  /** Members `a` and `b` vote for `a`, which wins view 1. */
  lemma FirstWins(run: seq<System>, steps: seq<Step>, a: int, b: int)
    returns (run': seq<System>, steps': seq<Step>)
    requires IsRunBut(AdoptsVotedView, run, steps) && a in Last(run).nodes && b in Last(run).nodes && a != b
    requires At(Last(run).nodes[a].le, a, a, 0, 0, Follower) && At(Last(run).nodes[b].le, b, a, 0, 0, Follower)
    requires |Last(run).nodes[a].le.t.rows.Keys| == 3
    ensures IsRunBut(AdoptsVotedView, run', steps') && run'[0] == run[0]
    ensures Last(run').nodes.Keys == Last(run).nodes.Keys && Win(a, 1) in Last(run').wins
    ensures forall j :: j in Last(run).nodes && j != a && j != b ==> Last(run').nodes[j] == Last(run).nodes[j]
    ensures var st, st' := Last(run).nodes[b].le, Last(run').nodes[b].le;
            && At(st', b, a, 1, 0, Electing(false, true)) && st'.t.rows.Keys == st.t.rows.Keys
            && forall id :: id in st.t.rows && id != b ==> st'.t.rows[id].view == st.t.rows[id].view
  {
    run', steps' := Campaign(AdoptsVotedView, run, steps, a, a, 0, 0);
    run', steps' := Campaign(AdoptsVotedView, run', steps', b, a, 0, 0);
    run', steps' := CollectVote(run', steps', a, b);
  }

  /** Member `b`, which has voted for `a` in view 1, votes for `d` there, and that one wins too. */
  lemma SecondWins(run: seq<System>, steps: seq<Step>, a: int, b: int, d: int)
    returns (run': seq<System>, steps': seq<Step>)
    requires IsRunBut(AdoptsVotedView, run, steps) && b in Last(run).nodes && d in Last(run).nodes && d != b
    requires At(Last(run).nodes[d].le, d, d, 0, 0, Follower) && |Last(run).nodes[d].le.t.rows.Keys| == 3
    requires At(Last(run).nodes[b].le, b, a, 1, 0, Electing(false, true))
    requires var rows := Last(run).nodes[b].le.t.rows; |rows.Keys| == 3 && d in rows && rows[d].view == 0
    ensures IsRunBut(AdoptsVotedView, run', steps') && run'[0] == run[0]
    ensures Last(run).wins + {Win(d, 1)} <= Last(run').wins
  {
    var n;
    run', steps', n := ForgetsItsVote(run, steps, b, a, d, 0);
    run', steps' := Campaign(AdoptsVotedView, run', steps', b, d, 0, n);
    run', steps' := Campaign(AdoptsVotedView, run', steps', d, d, 0, 0);
    run', steps' := CollectVote(run', steps', d, b);
  }

  lemma DividedIsInit(s: System)
    requires Divided(s)
    ensures Init(s)
  {
    assert ValidTable(Trio(1)) && ValidTable(Trio(2));
  }

  /** There are such members. */
  lemma DividedReady(s: System)
    requires Divided(s)
    ensures Ready(s, 1, 3, 2)
  {
    TrioReady(1, 1);
    TrioReady(2, 2);
    TrioReady(3, 1);
  }

  /** A run that gives up only the second hypothesis: `b` votes in view 1 for `a`, follows a claim in
      view 0, loses it, and votes in view 1 for `d`; both win view 1. */
  lemma LowerViewElectsTwo(s: System, a: int, b: int, d: int) returns (run: seq<System>, steps: seq<Step>)
    requires Init(s) && Ready(s, a, b, d) && a != b && a != d && b != d
    ensures IsRunBut(AdoptsVotedView, run, steps) && run[0] == s
    ensures Win(a, 1) in Last(run).wins && Win(d, 1) in Last(run).wins
  {
    run, steps := RunFrom(AdoptsVotedView, s);
    run, steps := FirstWins(run, steps, a, b);
    run, steps := SecondWins(run, steps, a, b, d);
  }
}
