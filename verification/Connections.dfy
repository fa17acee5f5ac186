/** The connection bits as gossip spreads them: over every run no member's bits name a stranger or the
    member itself, so that any two quorum-connected members, wherever and whenever they are seen to be so,
    have a member in common. */
module Connections {
  import opened Membership
  import opened Quorum

  /** Every node's table, and the heartbeats sent so far. */
  datatype Net = Net(tables: map<int, Table>, sent: set<Heartbeat>)

  datatype Step =
    | SendHeartbeat(i: int)
    | HearHeartbeat(i: int, hb: Heartbeat)
    | LookAtClocks(i: int, late: set<int>)
    | Otherwise(i: int, t: Table)

  /** Votes, views, numbers and marks may change in any way; the connection bits may not. */
  ghost predicate SameBits(t: Table, t': Table) {
    t'.rows.Keys == t.rows.Keys && forall id :: id in t.rows ==> t'.rows[id].connections == t.rows[id].connections
  }

  ghost predicate Enabled(s: Net, step: Step) {
    && step.i in s.tables
    && match step
       case SendHeartbeat(_) => true
       case HearHeartbeat(i, hb) => hb in s.sent && hb.sender != i // nobody hears itself
       case LookAtClocks(_, _) => true
       case Otherwise(i, t') => SameBits(s.tables[i], t')
  }

  ghost function After(s: Net, step: Step): Net
    requires Enabled(s, step)
  {
    var t := s.tables[step.i];
    match step
    case SendHeartbeat(i) => s.(sent := s.sent + {MakeHeartbeat(t, i)})
    case HearHeartbeat(i, hb) => s.(tables := s.tables[i := ReceiveHeartbeat(t, i, hb)])
    case LookAtClocks(i, late) => s.(tables := s.tables[i := CheckContact(t, i, late)])
    case Otherwise(i, t') => s.(tables := s.tables[i := t'])
  }

  ghost predicate Init(s: Net) {
    && s.sent == {}
    && forall i :: i in s.tables ==>
         && s.tables[i].rows.Keys == s.tables.Keys
         && forall id :: id in s.tables.Keys ==> s.tables[i].rows[id] == FRESH_MEMBER
  }

  ghost predicate StepAt(run: seq<Net>, k: nat) {
    k + 1 < |run| && exists step :: Enabled(run[k], step) && run[k + 1] == After(run[k], step)
  }

  ghost predicate IsRun(run: seq<Net>) {
    run != [] && Init(run[0]) && forall k: nat :: k + 1 < |run| ==> StepAt(run, k)
  }

  ghost predicate ProperTable(ids: set<int>, t: Table) {
    t.rows.Keys == ids && forall id :: id in t.rows ==> t.rows[id].connections <= ids - {id}
  }

  ghost predicate ProperHeartbeat(ids: set<int>, hb: Heartbeat) {
    hb.sender in ids && hb.connections <= ids - {hb.sender}
  }

  ghost predicate Inv(s: Net) {
    && (forall i {:trigger ProperTable(s.tables.Keys, s.tables[i])} ::
          i in s.tables ==> ProperTable(s.tables.Keys, s.tables[i]))
    && (forall hb {:trigger ProperHeartbeat(s.tables.Keys, hb)} ::
          hb in s.sent ==> ProperHeartbeat(s.tables.Keys, hb))
  }

  lemma HearingKeepsProper(ids: set<int>, t: Table, me: int, hb: Heartbeat)
    requires ProperTable(ids, t) && ProperHeartbeat(ids, hb) && me in ids && hb.sender != me
    ensures ProperTable(ids, ReceiveHeartbeat(t, me, hb))
  {
    assert ProperTable(ids, HeardFrom(t, hb));
  }

  lemma CheckKeepsProper(ids: set<int>, t: Table, me: int, late: set<int>)
    requires ProperTable(ids, t) && me in ids
    ensures ProperTable(ids, CheckContact(t, me, late))
  {
    assert Nameable(ids - {me} - late) <= ids - {me};
  }

  lemma InvWithTable(s: Net, i: int, t': Table)
    requires Inv(s) && i in s.tables && ProperTable(s.tables.Keys, t')
    ensures Inv(s.(tables := s.tables[i := t'])) && s.tables[i := t'].Keys == s.tables.Keys
  {
    var s' := s.(tables := s.tables[i := t']);
    assert s'.tables.Keys == s.tables.Keys;
    forall j {:trigger ProperTable(s'.tables.Keys, s'.tables[j])} | j in s'.tables
      ensures ProperTable(s'.tables.Keys, s'.tables[j])
    {
      assert j in s.tables && ProperTable(s.tables.Keys, s.tables[j]);
    }
    forall hb {:trigger ProperHeartbeat(s'.tables.Keys, hb)} | hb in s'.sent
      ensures ProperHeartbeat(s'.tables.Keys, hb)
    {
      assert ProperHeartbeat(s.tables.Keys, hb);
    }
  }

  lemma StepKeepsInv(s: Net, step: Step)
    requires Inv(s) && Enabled(s, step)
    ensures Inv(After(s, step)) && After(s, step).tables.Keys == s.tables.Keys
  {
    var ids := s.tables.Keys;
    assert ProperTable(ids, s.tables[step.i]);
    match step
    case SendHeartbeat(i) => assert ProperHeartbeat(ids, MakeHeartbeat(s.tables[i], i));
    case HearHeartbeat(i, hb) =>
      assert ProperHeartbeat(ids, hb);
      HearingKeepsProper(ids, s.tables[i], i, hb);
      InvWithTable(s, i, ReceiveHeartbeat(s.tables[i], i, hb));
    case LookAtClocks(i, late) =>
      CheckKeepsProper(ids, s.tables[i], i, late);
      InvWithTable(s, i, CheckContact(s.tables[i], i, late));
    case Otherwise(i, t') => InvWithTable(s, i, t');
  }

  lemma {:induction false} RunInv(run: seq<Net>, k: nat)
    requires IsRun(run) && k < |run|
    ensures Inv(run[k]) && run[k].tables.Keys == run[0].tables.Keys
  {
    if k > 0 {
      RunInv(run, k - 1);
      assert StepAt(run, k - 1);
      var step :| Enabled(run[k - 1], step) && run[k] == After(run[k - 1], step);
      StepKeepsInv(run[k - 1], step);
    }
  }

  /** Two members that are quorum-connected in anybody's tables, at any two moments of a run, have a
      member in common among those they reach. */
  lemma QcMembersMeetInRun(run: seq<Net>, k: nat, p: int, i: int, l: nat, q: int, j: int)
    requires IsRun(run) && k < |run| && l < |run| && p in run[k].tables && q in run[l].tables
    requires IsQc(run[k].tables[p], i) && IsQc(run[l].tables[q], j)
    ensures exists m :: m in run[0].tables
                        && m in Reach(i, run[k].tables[p].rows[i].connections)
                        && m in Reach(j, run[l].tables[q].rows[j].connections)
  {
    RunInv(run, k);
    RunInv(run, l);
    var ids, t, u := run[0].tables.Keys, run[k].tables[p], run[l].tables[q];
    assert ProperTable(ids, t) && ProperTable(ids, u);
    assert |t.rows| == |t.rows.Keys| && |u.rows| == |u.rows.Keys|;
    QuorumConnectedMeet(ids, i, t.rows[i].connections, j, u.rows[j].connections);
  }

  // ----- what a heartbeat and a contact check do -----

  /** A heartbeat from another known member leaves what it carries in the sender's row; the node is then
      connected to the sender, is in its view exactly when the sender is the reported leader and its view
      is higher, and has changed nothing else. */
  lemma HeartbeatHeard(t: Table, me: int, hb: Heartbeat)
    requires me in t.rows && hb.sender in t.rows && hb.sender != me && 0 <= hb.sender <= MAX_MEMBERS
    ensures var t', mine := ReceiveHeartbeat(t, me, hb), t.rows[me];
            var said := t.rows[hb.sender].(connections := hb.connections, leaderId := hb.leaderId, view := hb.view,
                                           op := hb.op, committedOp := hb.committedOp);
            var follows := LeaderId(t.(rows := t.rows[hb.sender := said])) == hb.sender && hb.view > mine.view;
            && t'.order == t.order && t'.rows.Keys == t.rows.Keys
            && t'.rows[hb.sender] == said
            && t'.rows[me] == mine.(connections := mine.connections + {hb.sender},
                                    view := if follows then hb.view else mine.view)
            && forall id :: id in t.rows && id != me && id != hb.sender ==> t'.rows[id] == t.rows[id]
  {
  }

  /** What a member's heartbeat tells, its receiver then knows about it. */
  lemma HeartbeatTells(t: Table, me: int, from: Table, sender: int)
    requires me in t.rows && sender in t.rows && sender in from.rows && sender != me && 0 <= sender <= MAX_MEMBERS
    ensures var known, own := ReceiveHeartbeat(t, me, MakeHeartbeat(from, sender)).rows, from.rows[sender];
            && sender in known
            && known[sender].connections == own.connections && known[sender].view == own.view
            && known[sender].op == own.op && known[sender].committedOp == own.committedOp
            && known[sender].leaderId == LeaderId(from)
  {
    HeartbeatHeard(t, me, MakeHeartbeat(from, sender));
  }

  /** A contact check leaves the node connected, of the other members a bit can name, to exactly those that are
      not late, and changes no other bit; of a late member it forgets what it said; about one it still hears
      it changes nothing. */
  lemma ContactExactly(t: Table, me: int, late: set<int>)
    requires me in t.rows
    ensures var t' := CheckContact(t, me, late);
            && t'.order == t.order && t'.rows.Keys == t.rows.Keys
            && (forall id :: id in t'.rows[me].connections <==>
                  if id in t.rows && id != me && 0 <= id <= 64 then id !in late else id in t.rows[me].connections)
            && t'.rows[me] == t.rows[me].(connections := t'.rows[me].connections)
            && forall id :: id in t.rows && id != me ==>
                 t'.rows[id] == if id in late then t.rows[id].(leaderId := 0, connections := {}) else t.rows[id]
  {
  }

  /** A late leader that nobody else reports is not reported any more. */
  lemma LateLeaderForgotten(t: Table, me: int, late: set<int>, leader: int)
    requires me in t.rows && leader in t.rows && leader in late && leader != me && leader != 0
    requires forall id :: id in t.rows && id != leader ==> t.rows[id].leaderId != leader
    ensures LeaderId(CheckContact(t, me, late)) != leader
  {
    NobodySays(CheckContact(t, me, late), 0, INVALID_LEADER_ID, leader);
  }

  lemma {:induction false} NobodySays(t: Table, i: nat, last: int, leader: int)
    requires last != leader && leader != 0 && forall id :: id in t.rows ==> t.rows[id].leaderId != leader
    ensures LeaderFrom(t, i, last) != leader
    decreases |t.order| - i
  {
    if i < |t.order| && !ClaimsLeadership(t, t.order[i]) {
      NobodySays(t, i + 1, Row(t, t.order[i]).leaderId, leader);
    }
  }
}
