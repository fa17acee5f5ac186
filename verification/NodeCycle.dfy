/** One cycle of a node (src/ccm/CCM.cpp:206-227): the election first, then replication in the role it
    left the node in, then the upcalls. */
module NodeCycle {
  import opened LogModel
  import opened LogTheory
  import opened Membership
  import opened Replication
  import opened HandlerTheory
  import opened RequestProgress
  import Election
  import LeaderRole

  /** The election and the replication of a node work on one member table. */
  datatype NodeState = NodeState(le: Election.LeState, lr: LrState, trace: seq<Upcall>)

  /** What a cycle finds waiting: election messages and whether the election period is over, a client's
      request, replication messages, and whether the node has lagged for longer than the sync delay. */
  datatype Waiting = Waiting(elections: seq<Election.Input>, tmo: bool, client: Option<ClientMessage>,
                             msgs: seq<LrMsg>, syncDue: bool)

  ghost predicate Linked(n: NodeState) { n.le.me == n.lr.me && n.le.t == n.lr.t }

  /** The role callbacks, as they reach LR. */
  function Notify(lr: LrState, events: seq<Election.RoleEvent>): LrState
    decreases |events|
  {
    if events == [] then lr
    else Notify(if events[0].Entered? then BecameLeader(lr) else NoLongerLeader(lr), events[1..])
  }

  function TakeRequest(lr: LrState, client: Option<ClientMessage>): LrState {
    if ValidId(lr.ongoingReq) || !HasLatestEntries(lr) || client.None? then lr
    else Propose(lr, client.value).0
  }

  function Replicate(lr: LrState, phase: Election.Phase, w: Waiting): LrState {
    match phase
    case Leader(_) => LeaderAll(TakeRequest(lr, w.client), w.msgs)
    case Follower => FollowerEnd(FollowerAll(FollowerBegin(lr), w.msgs), w.syncDue)
    case Electing(_, _) => lr
  }

  lemma ActivityRecords(st: Election.LeState, msg: Option<Election.LeMsg>, tmo: bool)
    ensures st.events <= Election.Activity(st, msg, tmo).events && Election.Activity(st, msg, tmo).me == st.me
  {
    match st.phase
    case Follower => LeaderRole.FollowerUntouched(st, msg, tmo);
    case Electing(_, _) => LeaderRole.ElectingUntouched(st, msg, tmo);
    case Leader(_) =>
  }

  lemma {:induction false} MessagesRecord(st: Election.LeState, inputs: seq<Election.Input>)
    ensures st.events <= Election.Messages(st, inputs).events && Election.Messages(st, inputs).me == st.me
    decreases |inputs|
  {
    if inputs != [] {
      ActivityRecords(st, Some(inputs[0].msg), inputs[0].tmo);
      MessagesRecord(Election.Activity(st, Some(inputs[0].msg), inputs[0].tmo), inputs[1..]);
    }
  }

  lemma CycleRecords(st: Election.LeState, inputs: seq<Election.Input>, tmo: bool)
    ensures st.events <= Election.Cycle(st, inputs, tmo).events && Election.Cycle(st, inputs, tmo).me == st.me
  {
    MessagesRecord(st, inputs);
    ActivityRecords(Election.Messages(st, inputs), None, tmo);
  }

  /** The node after the election part of a cycle, with its callbacks made. */
  function Elected(n: NodeState, w: Waiting): (Election.LeState, LrState) {
    var le := Election.Cycle(n.le, w.elections, w.tmo);
    CycleRecords(n.le, w.elections, w.tmo);
    (le, Notify(n.lr.(t := le.t), le.events[|n.le.events|..]))
  }

  function Cycle(n: NodeState, w: Waiting): NodeState {
    var (le, lr) := Elected(n, w);
    var lr' := Replicate(lr, le.phase, w);
    NodeState(le.(t := lr'.t), lr'.(log := MarkUpcalls(lr'.log, false)), n.trace + UpcallsDue(lr'.log, false))
  }

  /** Cycles, and what other threads do in between: the failure detector and a finished log sync. */
  datatype Turn = Round(w: Waiting) | Detector(t: Table) | Synced(batch: seq<Entry>)

  ghost predicate Allowed(n: NodeState, turn: Turn) {
    match turn
    case Round(_) => true
    case Detector(t) => LeaderRole.Possible(n.le, LeaderRole.Background(t))
    case Synced(batch) => Shaped(batch) && MergeGuard(n.lr.log, batch)
  }

  function Take(n: NodeState, turn: Turn): NodeState {
    match turn
    case Round(w) => Cycle(n, w)
    case Detector(t) => n.(le := n.le.(t := t), lr := n.lr.(t := t))
    case Synced(batch) => n.(lr := n.lr.(log := Merge(n.lr.log, batch)))
  }

  ghost predicate AllAllowed(n: NodeState, turns: seq<Turn>)
    decreases |turns|
  {
    turns == [] || (Allowed(n, turns[0]) && AllAllowed(Take(n, turns[0]), turns[1..]))
  }

  function TakeAll(n: NodeState, turns: seq<Turn>): NodeState
    decreases |turns|
  {
    if turns == [] then n else TakeAll(Take(n, turns[0]), turns[1..])
  }

  // ----- what the role callbacks leave alone -----

  lemma {:induction false} NotifyKeeps(lr: LrState, events: seq<Election.RoleEvent>)
    ensures var lr' := Notify(lr, events);
            && lr'.log == lr.log && lr'.me == lr.me && lr'.accepted == lr.accepted && lr'.ongoing == lr.ongoing
            && lr'.t.order == lr.t.order && lr'.t.rows.Keys == lr.t.rows.Keys
            && forall id :: id in lr.t.rows ==> lr'.t.rows[id].leaderId == lr.t.rows[id].leaderId
                                                && lr'.t.rows[id].op == lr.t.rows[id].op
    decreases |events|
  {
    if events != [] {
      NotifyKeeps(if events[0].Entered? then BecameLeader(lr) else NoLongerLeader(lr), events[1..]);
    }
  }

  // ----- delivery -----

  ghost predicate Delivered(log: seq<Entry>, trace: seq<Upcall>) { DeliveredInOrder(LogState(log, trace)) }

  /** Either kind of node changes its log, on a message, by the log operation of that message. */
  lemma MessageDelivers(lr: LrState, m: LrMsg, trace: seq<Upcall>)
    requires Delivered(lr.log, trace)
    ensures Delivered(LeaderReceives(lr, m).log, trace) && Delivered(FollowerReceives(lr, m).log, trace)
  {
    match m
    case Prepare(op, view, src, payload) => StepDelivers(LogState(lr.log, trace), OpPrepare(op, view, payload));
    case PrepareOK(op, view, src, dst) =>
    case Commit(op, view, src) => StepDelivers(LogState(lr.log, trace), OpCommit(op, view));
  }

  lemma {:induction false} MessagesDeliver(lr: LrState, msgs: seq<LrMsg>, trace: seq<Upcall>)
    requires Delivered(lr.log, trace)
    ensures Delivered(LeaderAll(lr, msgs).log, trace) && Delivered(FollowerAll(lr, msgs).log, trace)
    decreases |msgs|
  {
    if msgs != [] {
      MessageDelivers(lr, msgs[0], trace);
      MessagesDeliver(LeaderReceives(lr, msgs[0]), msgs[1..], trace);
      MessagesDeliver(FollowerReceives(lr, msgs[0]), msgs[1..], trace);
    }
  }

  lemma ReplicateDelivers(lr: LrState, phase: Election.Phase, w: Waiting, trace: seq<Upcall>)
    requires Delivered(lr.log, trace)
    ensures Delivered(Replicate(lr, phase, w).log, trace)
  {
    match phase
    case Leader(_) => MessagesDeliver(TakeRequest(lr, w.client), w.msgs, trace);
    case Follower =>
      MessagesDeliver(FollowerBegin(lr), w.msgs, trace);
      var lr1 := FollowerAll(FollowerBegin(lr), w.msgs);
      StepDelivers(LogState(lr1.log, trace), OpCommitUpTo(LargestCommitted(lr1.t)));
    case Electing(_, _) =>
  }

  /** Whatever a cycle finds waiting and in whatever role it ends, it leaves every committed entry
      delivered, in order and once each. */
  lemma CycleDeliversAll(n: NodeState, w: Waiting)
    requires Delivered(n.lr.log, n.trace)
    ensures var n' := Cycle(n, w);
            && Delivered(n'.lr.log, n'.trace) && n.trace <= n'.trace
            && AllDelivered(n'.lr.log, n'.trace)
  {
    var (le, lr) := Elected(n, w);
    CycleRecords(n.le, w.elections, w.tmo);
    NotifyKeeps(n.lr.(t := le.t), le.events[|n.le.events|..]);
    ReplicateDelivers(lr, le.phase, w, n.trace);
    var log := Replicate(lr, le.phase, w).log;
    UpcallsCatchUp(LogState(log, n.trace));
    assert Apply(LogState(log, n.trace), OpUpcalls(false)) == LogState(Cycle(n, w).lr.log, Cycle(n, w).trace);
  }

  /** The calls made are those for entries 1, 2, and so on, up to the highest committed number. */
  ghost predicate AllDelivered(log: seq<Entry>, trace: seq<Upcall>) {
    && |trace| == HighestCommitted(log) <= |log|
    && forall i :: 0 <= i < |trace| ==> trace[i] == Upcall(i + 1, log[i].payload)
  }

  // ----- roles -----

  lemma {:induction false} LeaderAllKeeps(lr: LrState, msgs: seq<LrMsg>)
    ensures var lr' := LeaderAll(lr, msgs);
            && lr'.accepted == lr.accepted && lr'.me == lr.me && lr'.t.rows.Keys == lr.t.rows.Keys
            && Row(lr'.t, lr.me).leaderId == Row(lr.t, lr.me).leaderId
    decreases |msgs|
  {
    if msgs != [] {
      LeaderAllKeeps(LeaderReceives(lr, msgs[0]), msgs[1..]);
    }
  }

  lemma {:induction false} FollowerAllKeeps(lr: LrState, msgs: seq<LrMsg>)
    ensures var lr' := FollowerAll(lr, msgs);
            lr'.accepted == lr.accepted && lr'.me == lr.me && lr'.t == lr.t
    decreases |msgs|
  {
    if msgs != [] {
      FollowerAllKeeps(FollowerReceives(lr, msgs[0]), msgs[1..]);
    }
  }

  lemma ReplicateKeeps(lr: LrState, phase: Election.Phase, w: Waiting)
    ensures var lr' := Replicate(lr, phase, w);
            && lr'.me == lr.me && lr'.t.rows.Keys == lr.t.rows.Keys
            && Row(lr'.t, lr.me).leaderId == Row(lr.t, lr.me).leaderId
            && (lr'.accepted != lr.accepted ==> phase.Leader? && HasLatestEntries(lr) && lr.ongoing.None?)
  {
    match phase
    case Leader(_) => LeaderAllKeeps(TakeRequest(lr, w.client), w.msgs);
    case Follower => FollowerAllKeeps(FollowerBegin(lr), w.msgs);
    case Electing(_, _) =>
  }

  /** A cycle keeps the roles bracketed, and accepts a request only on a node that has entered the
      leader role and not left it, marks itself leader, waits for no other request, and holds every
      number any member has told of. */
  lemma CycleKeepsRole(n: NodeState, w: Waiting)
    requires Linked(n) && LeaderRole.RoleInv(n.le)
    ensures var n' := Cycle(n, w);
            && Linked(n') && LeaderRole.RoleInv(n'.le) && n'.le.phase != Election.Leader(true)
            && (n'.lr.accepted != n.lr.accepted ==>
                  && n'.le.phase.Leader? && LeaderRole.InRole(n'.le.events)
                  && Row(n'.lr.t, n.lr.me).leaderId == n.lr.me
                  && n.lr.ongoing.None?
                  && HasLatestEntries(Elected(n, w).1))
  {
    var (le, lr) := Elected(n, w);
    CycleRecords(n.le, w.elections, w.tmo);
    LeaderRole.LeaderHasEntered(n.le, w.elections, w.tmo);
    NotifyKeeps(n.lr.(t := le.t), le.events[|n.le.events|..]);
    ReplicateKeeps(lr, le.phase, w);
  }

  // ----- runs -----

  ghost predicate NodeInv(n: NodeState) {
    Linked(n) && LeaderRole.RoleInv(n.le) && n.le.phase != Election.Leader(true) && Delivered(n.lr.log, n.trace)
  }

  /** A node as constructed: a follower with an empty log that does not call itself leader. */
  ghost predicate Fresh(n: NodeState) {
    && Linked(n) && n.le.me in n.le.t.rows && n.le.me != INVALID_LEADER_ID
    && n.le.t.rows[n.le.me].leaderId == INVALID_LEADER_ID
    && n.le.phase == Election.Follower && n.le.events == []
    && n.lr.log == [] && n.trace == []
  }

  lemma FreshIsInOrder(n: NodeState)
    requires Fresh(n)
    ensures NodeInv(n)
  {
    LeaderRole.StartIsInOrder(n.le);
    CommitPointUnique(n.lr.log, 0);
  }

  lemma TurnKeepsInv(n: NodeState, turn: Turn)
    requires NodeInv(n) && Allowed(n, turn)
    ensures NodeInv(Take(n, turn)) && n.trace <= Take(n, turn).trace
  {
    match turn
    case Round(w) =>
      CycleKeepsRole(n, w);
      CycleDeliversAll(n, w);
    case Detector(t) => LeaderRole.DoKeepsRole(n.le, LeaderRole.Background(t));
    case Synced(batch) => StepDelivers(LogState(n.lr.log, n.trace), OpMerge(batch));
  }

  lemma {:induction false} TurnsKeepInv(n: NodeState, turns: seq<Turn>)
    requires NodeInv(n) && AllAllowed(n, turns)
    ensures NodeInv(TakeAll(n, turns)) && n.trace <= TakeAll(n, turns).trace
    decreases |turns|
  {
    if turns != [] {
      TurnKeepsInv(n, turns[0]);
      TurnsKeepInv(Take(n, turns[0]), turns[1..]);
    }
  }

  /** Over every run of a node, election, replication, heartbeats and guarded syncs interleaved: after
      each further cycle the callback has been called for exactly the committed entries, in order and
      once each; the node counts as leader exactly while between the two role callbacks; and a request
      accepted in that cycle was accepted in the leader role. */
  lemma NodeRunSafety(n: NodeState, turns: seq<Turn>, w: Waiting)
    requires NodeInv(n) && AllAllowed(n, turns)
    ensures var before := TakeAll(n, turns);
            var after := Cycle(before, w);
            && before.trace <= after.trace
            && AllDelivered(after.lr.log, after.trace)
            && (after.le.phase.Leader? <==> LeaderRole.InRole(after.le.events))
            && (after.lr.accepted != before.lr.accepted ==> LeaderRole.InRole(after.le.events))
  {
    TurnsKeepInv(n, turns);
    var before := TakeAll(n, turns);
    CycleKeepsRole(before, w);
    CycleDeliversAll(before, w);
  }

  // ----- what a cycle does -----

  lemma ActivityKeepsTable(st: Election.LeState, msg: Option<Election.LeMsg>, tmo: bool)
    ensures var t' := Election.Activity(st, msg, tmo).t;
            t'.order == st.t.order && t'.rows.Keys == st.t.rows.Keys
  {
    match st.phase
    case Follower => LeaderRole.FollowerUntouched(st, msg, tmo);
    case Electing(_, _) => LeaderRole.ElectingUntouched(st, msg, tmo);
    case Leader(_) =>
  }

  lemma {:induction false} ElectionKeepsTable(st: Election.LeState, inputs: seq<Election.Input>, tmo: bool)
    ensures var t' := Election.Cycle(st, inputs, tmo).t;
            t'.order == st.t.order && t'.rows.Keys == st.t.rows.Keys
    decreases |inputs|
  {
    if inputs == [] {
      ActivityKeepsTable(st, None, tmo);
    } else {
      ActivityKeepsTable(st, Some(inputs[0].msg), inputs[0].tmo);
      ElectionKeepsTable(Election.Activity(st, Some(inputs[0].msg), inputs[0].tmo), inputs[1..], tmo);
    }
  }

  /** The role callbacks of a cycle, in any number: if one of them is "left", a request that was waiting is
      answered "aborted", once; otherwise nobody is told anything. If there is any, nothing is pending. */
  lemma {:induction false} NotifyActs(lr: LrState, events: seq<Election.RoleEvent>)
    ensures var lr' := Notify(lr, events);
            var aborts := Election.Left in events && lr.cb.Some?;
            && lr'.fired == lr.fired + (if aborts then [Completion(lr.cb.value, lr.ongoingReq, Aborted)] else [])
            && (lr'.cb.None? <==> lr.cb.None? || aborts)
            && lr'.out == lr.out && lr'.ongoingReq == lr.ongoingReq
            && (events != [] ==> NothingPending(lr'.t))
    decreases |events|
  {
    if events != [] {
      var lr1 := if events[0].Entered? then BecameLeader(lr) else NoLongerLeader(lr);
      NotifyActs(lr1, events[1..]);
      if |events| > 1 {
        assert NothingPending(Notify(lr, events).t);
      } else {
        assert Notify(lr, events) == lr1;
      }
    }
  }

  /** A request waiting when the node leaves the leader role is answered "aborted" in that cycle, with its
      own token and id. */
  lemma LeavingCycleAborts(n: NodeState, w: Waiting)
    requires n.lr.cb.Some?
    requires var events := Election.Cycle(n.le, w.elections, w.tmo).events;
             |n.le.events| <= |events| && Election.Left in events[|n.le.events|..]
    ensures Completion(n.lr.cb.value, n.lr.ongoingReq, Aborted) in Cycle(n, w).lr.fired
  {
    var (le, lr) := Elected(n, w);
    NotifyActs(n.lr.(t := le.t), le.events[|n.le.events|..]);
    ReplicateRecords(lr, le.phase, w);
    var told := Completion(n.lr.cb.value, n.lr.ongoingReq, Aborted);
    assert lr.fired[|n.lr.fired|] == told;
    assert Replicate(lr, le.phase, w).fired[|n.lr.fired|] == told;
  }

  lemma {:induction false} LeaderAllRecords(lr: LrState, msgs: seq<LrMsg>)
    ensures lr.fired <= LeaderAll(lr, msgs).fired && lr.out <= LeaderAll(lr, msgs).out
    decreases |msgs|
  {
    if msgs != [] {
      LeaderAllRecords(LeaderReceives(lr, msgs[0]), msgs[1..]);
    }
  }

  lemma {:induction false} FollowerAllRecords(lr: LrState, msgs: seq<LrMsg>)
    ensures FollowerAll(lr, msgs).fired == lr.fired && lr.out <= FollowerAll(lr, msgs).out
    decreases |msgs|
  {
    if msgs != [] {
      FollowerAllRecords(FollowerReceives(lr, msgs[0]), msgs[1..]);
    }
  }

  lemma ReplicateRecords(lr: LrState, phase: Election.Phase, w: Waiting)
    ensures var lr' := Replicate(lr, phase, w);
            lr.fired <= lr'.fired && lr.out <= lr'.out
  {
    match phase
    case Leader(_) => LeaderAllRecords(TakeRequest(lr, w.client), w.msgs);
    case Follower => FollowerAllRecords(FollowerBegin(lr), w.msgs);
    case Electing(_, _) =>
  }

  /** A request is there, none is held, and no member has told of a number above the log's last. */
  ghost predicate MayTake(lr: LrState, t: Table, client: Option<ClientMessage>) {
    && client.Some? && lr.ongoing.None? && (lr.ongoingReq.requestSeq == 0 || lr.ongoingReq.clientId == 0)
    && forall id :: id in t.rows ==> t.rows[id].op <= LatestOp(lr.log)
  }

  /** A node takes a client's request exactly when it may, under the next number, in its view. Otherwise
      nothing changes. */
  lemma TakesExactly(lr: LrState, client: Option<ClientMessage>)
    requires ValidTable(lr.t) && lr.me in lr.t.rows
    ensures var mine := lr.t.rows[lr.me];
            if MayTake(lr, lr.t, client) then
              && TakeRequest(lr, client).accepted == lr.accepted + 1
              && TakeRequest(lr, client).out == lr.out + [Prepare(mine.op + 1, mine.view, lr.me, client.value)]
              && Pending(TakeRequest(lr, client), mine.view, mine.op + 1)
              && TakeRequest(lr, client).cb == Some(lr.accepted)
            else TakeRequest(lr, client) == lr
  {
    HasLatestMeaning(lr);
    if client.Some? && lr.ongoing.None? {
      AcceptedIsPending(lr, client.value);
    }
  }

  lemma LeaderAcceptsExactly(lr: LrState, client: Option<ClientMessage>, msgs: seq<LrMsg>)
    requires ValidTable(lr.t) && lr.me in lr.t.rows
    ensures var lr', mine := LeaderAll(TakeRequest(lr, client), msgs), lr.t.rows[lr.me];
            if MayTake(lr, lr.t, client) then
              && lr'.accepted == lr.accepted + 1
              && SentSince(lr.out, lr'.out, Prepare(mine.op + 1, mine.view, lr.me, client.value))
            else lr'.accepted == lr.accepted
  {
    var lr1 := TakeRequest(lr, client);
    TakesExactly(lr, client);
    LeaderAllKeeps(lr1, msgs);
    LeaderAllRecords(lr1, msgs);
    if |lr1.out| > |lr.out| {
      assert LeaderAll(lr1, msgs).out[|lr.out|..][0] == lr1.out[|lr.out|];
    }
  }

  lemma ReplicateAcceptsExactly(lr: LrState, phase: Election.Phase, w: Waiting)
    requires ValidTable(lr.t) && lr.me in lr.t.rows
    ensures var lr', mine := Replicate(lr, phase, w), lr.t.rows[lr.me];
            if phase.Leader? && MayTake(lr, lr.t, w.client) then
              && lr'.accepted == lr.accepted + 1
              && SentSince(lr.out, lr'.out, Prepare(mine.op + 1, mine.view, lr.me, w.client.value))
            else lr'.accepted == lr.accepted
  {
    if phase.Leader? {
      LeaderAcceptsExactly(lr, w.client, w.msgs);
    } else {
      ReplicateKeeps(lr, phase, w);
    }
  }

  /** What the election part of a cycle leaves of the replication's state. */
  lemma ElectedKeeps(n: NodeState, w: Waiting)
    requires Linked(n) && ValidTable(n.le.t) && n.le.me in n.le.t.rows
    ensures var (le, lr) := Elected(n, w);
            && le == Election.Cycle(n.le, w.elections, w.tmo)
            && lr.log == n.lr.log && lr.me == n.lr.me && lr.accepted == n.lr.accepted && lr.out == n.lr.out
            && lr.ongoing == n.lr.ongoing && lr.ongoingReq == n.lr.ongoingReq
            && ValidTable(lr.t) && lr.t.rows.Keys == le.t.rows.Keys == n.le.t.rows.Keys
            && forall id :: id in le.t.rows ==> lr.t.rows[id].op == le.t.rows[id].op
  {
    var (le, lr) := Elected(n, w);
    CycleRecords(n.le, w.elections, w.tmo);
    ElectionKeepsTable(n.le, w.elections, w.tmo);
    var events := le.events[|n.le.events|..];
    NotifyKeeps(n.lr.(t := le.t), events);
    NotifyActs(n.lr.(t := le.t), events);
  }

  /** A cycle accepts a request exactly when it ends with the node in the leader role and the node may take
      one, judged by what the election has left in the table; its Prepare is sent. */
  lemma CycleAcceptsExactly(n: NodeState, w: Waiting)
    requires Linked(n) && ValidTable(n.le.t) && n.le.me in n.le.t.rows
    ensures var le, n' := Election.Cycle(n.le, w.elections, w.tmo), Cycle(n, w);
            if le.phase.Leader? && MayTake(n.lr, le.t, w.client) then
              && n'.lr.accepted == n.lr.accepted + 1
              && exists view, op :: SentSince(n.lr.out, n'.lr.out, Prepare(op, view, n.lr.me, w.client.value))
            else n'.lr.accepted == n.lr.accepted
  {
    var (le, lr) := Elected(n, w);
    ElectedKeeps(n, w);
    ReplicateAcceptsExactly(lr, le.phase, w);
    assert MayTake(lr, lr.t, w.client) <==> MayTake(n.lr, le.t, w.client);
  }

  /** Messages are handled one after the other, in the order they came. */
  lemma {:induction false} InOrder(lr: LrState, msgs: seq<LrMsg>, m: LrMsg)
    ensures LeaderAll(lr, msgs + [m]) == LeaderReceives(LeaderAll(lr, msgs), m)
    ensures FollowerAll(lr, msgs + [m]) == FollowerReceives(FollowerAll(lr, msgs), m)
    decreases |msgs|
  {
    if msgs == [] {
      assert msgs + [m] == [m];
      assert LeaderAll(lr, [m]) == LeaderAll(LeaderReceives(lr, m), []);
      assert FollowerAll(lr, [m]) == FollowerAll(FollowerReceives(lr, m), []);
    } else {
      assert (msgs + [m])[1..] == msgs[1..] + [m];
      InOrder(LeaderReceives(lr, msgs[0]), msgs[1..], m);
      InOrder(FollowerReceives(lr, msgs[0]), msgs[1..], m);
    }
  }

  /** A cycle that ends with the node a leader and a request pending handles every message: the request is
      completed in it exactly when n/2+1 members have answered by its end. */
  lemma LeaderCycleCompletes(n: NodeState, w: Waiting, view: nat, op: nat)
    requires Election.Cycle(n.le, w.elections, w.tmo).phase.Leader? && Pending(Elected(n, w).1, view, op)
    ensures var lr, lr' := Elected(n, w).1, Cycle(n, w).lr;
            if |OkSet(lr.t) + Answering(lr.t, w.msgs, view, op)| >= |lr.t.rows| / 2 + 1
            then Completes(lr, lr', view, op) else StillPending(lr, lr', view, op)
  {
    CompletesExactly(Elected(n, w).1, view, op, w.msgs);
  }

  /** A cycle that ends with the node a follower has handled every message, committed what gossip allows
      and published its commit point. */
  lemma FollowerCycle(n: NodeState, w: Waiting)
    requires Linked(n) && ValidTable(n.le.t) && n.le.me in n.le.t.rows && Delivered(n.lr.log, n.trace)
    requires Election.Cycle(n.le, w.elections, w.tmo).phase.Follower?
    ensures var lr1 := FollowerAll(FollowerBegin(Elected(n, w).1), w.msgs);
            var n' := Cycle(n, w);
            && CommitPointTold(lr1.t, |lr1.log|, HighestCommitted(lr1.log), HighestCommitted(n'.lr.log))
            && n.lr.me in n'.lr.t.rows && n'.lr.t.rows[n.lr.me].committedOp == HighestCommitted(n'.lr.log)
            && |n'.lr.log| == |lr1.log| && n'.lr.out == lr1.out
  {
    var (le, lr) := Elected(n, w);
    ElectedKeeps(n, w);
    FollowerAllKeeps(FollowerBegin(lr), w.msgs);
    MessagesDeliver(FollowerBegin(lr), w.msgs, n.trace);
    var lr1 := FollowerAll(FollowerBegin(lr), w.msgs);
    assert ValidTable(lr1.t);
    FollowerEndExactly(lr1, w.syncDue);
    MarkKeepsShape(FollowerEnd(lr1, w.syncDue).log, false);
  }
}
