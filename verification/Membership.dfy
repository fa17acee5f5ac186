/** The membership table (src/ccm/gmm/Member.h, Member.cpp, GMM.cpp): what each node knows about
    every member. `order` is the iteration order of the source's unordered map, so a statement for
    every table holds for every order. */
module Membership {
  import opened Quorum

  const INVALID_LEADER_ID := 0
  const INVALID_REQ_ID := 0
  const MAX_MEMBERS := 64

  datatype Member = Member(leaderId: int, view: nat, votes: nat, op: nat, committedOp: nat,
                           pendingView: nat, pendingOp: nat, okRcvd: bool, connections: set<int>)

  const FRESH_MEMBER := Member(INVALID_LEADER_ID, 0, 0, 0, 0, INVALID_REQ_ID, INVALID_REQ_ID, false, {})

  datatype Table = Table(order: seq<int>, rows: map<int, Member>)

  ghost predicate ValidTable(t: Table) {
    && (forall i, j :: 0 <= i < j < |t.order| ==> t.order[i] != t.order[j])
    && (forall i :: 0 <= i < |t.order| ==> t.order[i] in t.rows)
    && (forall id :: id in t.rows ==> id in t.order)
  }

  datatype Heartbeat = Heartbeat(sender: int, leaderId: int, view: nat, op: nat, committedOp: nat,
                                 connections: set<int>)

  // ----- rows -----

  /** The row of a member; a stranger reads as an untouched row. */
  function Row(t: Table, id: int): Member { if id in t.rows then t.rows[id] else FRESH_MEMBER }

  function SetRow(t: Table, id: int, row: Member): Table {
    if id in t.rows then t.(rows := t.rows[id := row]) else t
  }

  function SetView(t: Table, id: int, view: nat): Table { SetRow(t, id, Row(t, id).(view := view)) }

  function SetOp(t: Table, id: int, op: nat): Table { SetRow(t, id, Row(t, id).(op := op)) }

  function SetCommittedOp(t: Table, id: int, op: nat): Table { SetRow(t, id, Row(t, id).(committedOp := op)) }

  function SetLeader(t: Table, id: int, leader: int): Table { SetRow(t, id, Row(t, id).(leaderId := leader)) }

  function AddVote(t: Table, id: int): Table { SetRow(t, id, Row(t, id).(votes := Row(t, id).votes + 1)) }

  function ResetVotes(t: Table): Table { t.(rows := map id | id in t.rows :: t.rows[id].(votes := 0)) }

  // ----- pending prepares -----

  function PendingRow(row: Member, view: nat, op: nat): Member {
    row.(pendingView := view, pendingOp := op, okRcvd := false)
  }

  function SetPending(t: Table, view: nat, op: nat): Table {
    t.(rows := map id | id in t.rows :: PendingRow(t.rows[id], view, op))
  }

  function ClearPending(t: Table): Table { SetPending(t, INVALID_REQ_ID, INVALID_REQ_ID) }

  function OkRow(row: Member, view: nat, op: nat): Member {
    if view != INVALID_REQ_ID && op != INVALID_REQ_ID && view == row.pendingView && op == row.pendingOp
    then row.(okRcvd := true) else row
  }

  function MarkOk(t: Table, id: int, view: nat, op: nat): Table { SetRow(t, id, OkRow(Row(t, id), view, op)) }

  function OkSet(t: Table): set<int> { set id | id in t.rows && t.rows[id].okRcvd }

  predicate OkMajority(t: Table) { |OkSet(t)| >= QuorumSize(|t.rows|) }

  // ----- votes, connections, leader -----

  predicate VoteMajority(t: Table, me: int) { me in t.rows && t.rows[me].votes >= QuorumSize(|t.rows|) }

  predicate IsQc(t: Table, id: int) { id in t.rows && QuorumConnected(|t.rows|, t.rows[id].connections) }

  predicate AnyQc(t: Table) { exists i :: 0 <= i < |t.order| && IsQc(t, t.order[i]) }

  lemma AnyQcMeaning(t: Table)
    requires ValidTable(t)
    ensures AnyQc(t) <==> exists id :: IsQc(t, id)
  {
  }

  /** The members that answered one request and any other quorum of the same members, such as those
      that answered another request or voted for a leader, have a member in common. */
  lemma MajoritiesMeet(t: Table, members: set<int>, others: set<int>)
    requires t.rows.Keys == members && OkMajority(t)
    requires others <= members && |others| >= QuorumSize(|members|)
    ensures exists k :: k in OkSet(t) && k in others
  {
    assert |t.rows| == |t.rows.Keys|;
    QuorumsMeet(members, OkSet(t), others);
  }

  /** Two members the table calls quorum-connected have a member in common among those they reach,
      when their bits stay within the membership and leave out themselves. */
  lemma QcMembersMeet(t: Table, i: int, j: int)
    requires IsQc(t, i) && t.rows[i].connections <= t.rows.Keys - {i}
    requires IsQc(t, j) && t.rows[j].connections <= t.rows.Keys - {j}
    ensures exists k :: k in t.rows && k in Reach(i, t.rows[i].connections) && k in Reach(j, t.rows[j].connections)
  {
    assert |t.rows| == |t.rows.Keys|;
    QuorumConnectedMeet(t.rows.Keys, i, t.rows[i].connections, j, t.rows[j].connections);
  }

  /** The scan of GetLowestQuorumConnectedId from position i on: found so far, and the id held. */
  function LowestQcFrom(t: Table, i: nat, found: bool, held: int): (bool, int)
    decreases |t.order| - i
  {
    if i >= |t.order| then (found, held)
    else
      var id := t.order[i];
      if IsQc(t, id) && (held == 0 || id < held) then LowestQcFrom(t, i + 1, true, id)
      else LowestQcFrom(t, i + 1, found, held)
  }

  function LowestQc(t: Table): (bool, int) { LowestQcFrom(t, 0, false, 0) }

  lemma {:induction false} LowestQcFinds(t: Table, i: nat, found: bool, held: int)
    requires ValidTable(t) && i <= |t.order|
    requires if found then IsQc(t, held) else held == 0
    ensures var (f, low) := LowestQcFrom(t, i, found, held);
            && (f ==> IsQc(t, low))
            && (found ==> f)
            && (forall k :: i <= k < |t.order| && IsQc(t, t.order[k]) ==> f)
    decreases |t.order| - i
  {
    if i < |t.order| {
      var id := t.order[i];
      if IsQc(t, id) && (held == 0 || id < held) {
        LowestQcFinds(t, i + 1, true, id);
      } else {
        LowestQcFinds(t, i + 1, found, held);
      }
    }
  }

  lemma {:induction false} LowestQcIsLowest(t: Table, i: nat, found: bool, held: int)
    requires ValidTable(t) && i <= |t.order|
    requires !IsQc(t, 0) && (found <==> held != 0)
    ensures var (f, low) := LowestQcFrom(t, i, found, held);
            && (found ==> low <= held)
            && (forall k :: i <= k < |t.order| && IsQc(t, t.order[k]) ==> low <= t.order[k])
    decreases |t.order| - i
  {
    if i < |t.order| {
      var id := t.order[i];
      if IsQc(t, id) && (held == 0 || id < held) {
        LowestQcIsLowest(t, i + 1, true, id);
      } else {
        LowestQcIsLowest(t, i + 1, found, held);
      }
    }
  }

  /** The scan finds a quorum-connected member exactly when there is one, and the lowest when no
      such member has the id 0 that the scan uses for "none yet". */
  lemma LowestQcMeaning(t: Table)
    requires ValidTable(t)
    ensures LowestQc(t).0 <==> exists id :: IsQc(t, id)
    ensures LowestQc(t).0 ==> IsQc(t, LowestQc(t).1)
    ensures !IsQc(t, 0) ==> forall id :: IsQc(t, id) ==> LowestQc(t).1 <= id
  {
    LowestQcFinds(t, 0, false, 0);
    if !IsQc(t, 0) {
      LowestQcIsLowest(t, 0, false, 0);
    }
    forall id | IsQc(t, id) ensures LowestQc(t).0 && (!IsQc(t, 0) ==> LowestQc(t).1 <= id) {
      var k :| 0 <= k < |t.order| && t.order[k] == id;
    }
  }

  predicate ClaimsLeadership(t: Table, id: int) {
    id in t.rows && t.rows[id].leaderId != INVALID_LEADER_ID && t.rows[id].leaderId == id
  }

  /** The scan of GetLeaderId: the first member that claims itself, else what the last one said. */
  function LeaderFrom(t: Table, i: nat, last: int): int
    decreases |t.order| - i
  {
    if i >= |t.order| then last
    else if ClaimsLeadership(t, t.order[i]) then t.order[i]
    else LeaderFrom(t, i + 1, Row(t, t.order[i]).leaderId)
  }

  function LeaderId(t: Table): int { LeaderFrom(t, 0, INVALID_LEADER_ID) }

  /** When some member claims itself leader, such a member is reported. */
  lemma {:induction false} LeaderScan(t: Table, i: nat, last: int, k: nat)
    requires i <= k < |t.order| && ClaimsLeadership(t, t.order[k])
    ensures ClaimsLeadership(t, LeaderFrom(t, i, last))
    decreases k - i
  {
    if !ClaimsLeadership(t, t.order[i]) {
      LeaderScan(t, i + 1, Row(t, t.order[i]).leaderId, k);
    }
  }

  /** Position k holds the first member that names itself. */
  ghost predicate FirstToClaim(t: Table, k: nat) {
    && k < |t.order| && Row(t, t.order[k]).leaderId == t.order[k] != 0
    && forall j :: 0 <= j < k ==> Row(t, t.order[j]).leaderId != t.order[j] || t.order[j] == 0
  }

  lemma {:induction false} ScanStops(t: Table, i: nat, last: int, k: nat)
    requires ValidTable(t) && i <= k && FirstToClaim(t, k)
    ensures LeaderFrom(t, i, last) == t.order[k]
    decreases k - i
  {
    if i < k {
      ScanStops(t, i + 1, Row(t, t.order[i]).leaderId, k);
    }
  }

  lemma {:induction false} ScanEnds(t: Table, i: nat, last: int)
    requires ValidTable(t) && i <= |t.order|
    requires forall id :: id in t.rows ==> t.rows[id].leaderId != id || id == 0
    ensures LeaderFrom(t, i, last) == if i == |t.order| then last else Row(t, t.order[|t.order| - 1]).leaderId
    decreases |t.order| - i
  {
    if i < |t.order| {
      ScanEnds(t, i + 1, Row(t, t.order[i]).leaderId);
    }
  }

  /** The leader reported is the first member, in iteration order, that names itself; when there is none it
      is whoever the last member names, right or wrong. */
  lemma LeaderReportedExactly(t: Table)
    requires ValidTable(t)
    ensures forall k: nat :: FirstToClaim(t, k) ==> LeaderId(t) == t.order[k]
    ensures (forall id :: id in t.rows ==> t.rows[id].leaderId != id || id == 0) ==>
              LeaderId(t) == if t.order == [] then 0 else t.rows[t.order[|t.order| - 1]].leaderId
  {
    forall k: nat | FirstToClaim(t, k) ensures LeaderId(t) == t.order[k] {
      ScanStops(t, 0, INVALID_LEADER_ID, k);
    }
    if forall id :: id in t.rows ==> t.rows[id].leaderId != id || id == 0 {
      ScanEnds(t, 0, INVALID_LEADER_ID);
    }
  }

  // ----- maxima -----

  function LargestTo(t: Table, f: Member -> nat, n: nat): (h: nat)
    requires n <= |t.order|
    ensures forall i :: 0 <= i < n ==> f(Row(t, t.order[i])) <= h
    ensures h > 0 ==> exists i :: 0 <= i < n && f(Row(t, t.order[i])) == h
  {
    if n == 0 then 0
    else
      var h, v := LargestTo(t, f, n - 1), f(Row(t, t.order[n - 1]));
      if v > h then v else h
  }

  function Largest(t: Table, f: Member -> nat): nat { LargestTo(t, f, |t.order|) }

  function LargestView(t: Table): nat { Largest(t, (r: Member) => r.view) }

  function LargestOp(t: Table): nat { Largest(t, (r: Member) => r.op) }

  function LargestCommitted(t: Table): nat { Largest(t, (r: Member) => r.committedOp) }

  lemma LargestMeaning(t: Table, f: Member -> nat)
    requires ValidTable(t)
    ensures forall id :: id in t.rows ==> f(t.rows[id]) <= Largest(t, f)
    ensures Largest(t, f) > 0 ==> exists id :: id in t.rows && f(t.rows[id]) == Largest(t, f)
  {
  }

  // ----- heartbeats (src/ccm/fd/FD.cpp:141-172) -----

  function Connect(row: Member, id: int): Member {
    if 0 <= id <= MAX_MEMBERS then row.(connections := row.connections + {id}) else row
  }

  /** What the sender's row becomes. */
  function HeardFrom(t: Table, hb: Heartbeat): Table {
    SetRow(t, hb.sender, Row(t, hb.sender).(connections := hb.connections, leaderId := hb.leaderId,
                                            view := hb.view, op := hb.op, committedOp := hb.committedOp))
  }

  /** What the own row becomes: connected to the sender, and in the leader's view if that is higher. */
  function HeardMyself(t: Table, me: int, hb: Heartbeat): Table {
    var row := Connect(Row(t, me), hb.sender);
    SetRow(t, me, if LeaderId(t) == hb.sender && row.view < hb.view then row.(view := hb.view) else row)
  }

  function ReceiveHeartbeat(t: Table, me: int, hb: Heartbeat): Table {
    HeardMyself(HeardFrom(t, hb), me, hb)
  }

  function MakeHeartbeat(t: Table, me: int): Heartbeat {
    var row := Row(t, me);
    Heartbeat(me, LeaderId(t), row.view, row.op, row.committedOp, row.connections)
  }

  // ----- losing contact (src/ccm/gmm/GMM.cpp:114-137) -----

  function Disconnect(row: Member, id: int): Member {
    if 0 <= id <= MAX_MEMBERS then row.(connections := row.connections - {id}) else row
  }

  function LostRow(row: Member): Member { row.(leaderId := INVALID_LEADER_ID, connections := {}) }

  /** The members that a connection bit can name. */
  function Nameable(ids: set<int>): set<int> { set id | id in ids && 0 <= id <= MAX_MEMBERS }

  /** The table once the members in `seen` have been looked at, when those in `late` have not been heard
      for too long: they are disconnected and nothing they said is kept; the rest are connected. */
  function Checked(t: Table, me: int, seen: set<int>, late: set<int>): Table {
    t.(rows := map id | id in t.rows ::
         if id == me then
           t.rows[id].(connections := t.rows[id].connections - Nameable(seen * late) + Nameable(seen - late))
         else if id in seen * late then LostRow(t.rows[id]) else t.rows[id])
  }

  function CheckContact(t: Table, me: int, late: set<int>): Table {
    if me in t.rows then Checked(t, me, t.rows.Keys - {me}, late) else t
  }

  lemma NothingLookedAt(t: Table, me: int, late: set<int>)
    ensures Checked(t, me, {}, late) == t
  {
    assert Nameable({} * late) == {} && Nameable({} - late) == {};
    forall id | id in t.rows ensures Checked(t, me, {}, late).rows[id] == t.rows[id] {
      assert t.rows[id].connections - {} + {} == t.rows[id].connections;
    }
    assert Checked(t, me, {}, late).rows == t.rows;
  }

  lemma AllLookedAt(t: Table, me: int, seen: set<int>)
    requires ValidTable(t)
    requires forall id :: id in seen <==> id != me && exists k :: 0 <= k < |t.order| && t.order[k] == id
    ensures seen == t.rows.Keys - {me}
  {
    forall id | id in t.rows.Keys - {me} ensures id in seen {
      var k :| 0 <= k < |t.order| && t.order[k] == id;
    }
  }

  /** One member is looked at. */
  function LookAt(t: Table, me: int, id: int, late: set<int>): Table {
    if id == me then t
    else if id in late then SetRow(SetRow(t, me, Disconnect(Row(t, me), id)), id, LostRow(Row(t, id)))
    else SetRow(t, me, Connect(Row(t, me), id))
  }

  lemma LookedAt(t: Table, me: int, seen: set<int>, id: int, late: set<int>)
    requires me in t.rows && id in t.rows && id != me && id !in seen
    ensures LookAt(Checked(t, me, seen, late), me, id, late) == Checked(t, me, seen + {id}, late)
  {
    var a, b := LookAt(Checked(t, me, seen, late), me, id, late), Checked(t, me, seen + {id}, late);
    assert (seen + {id}) * late == if id in late then seen * late + {id} else seen * late;
    assert (seen + {id}) - late == if id in late then seen - late else seen - late + {id};
    assert a.rows[me].connections == b.rows[me].connections;
    assert a.rows == b.rows;
  }
}
