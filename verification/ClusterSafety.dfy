/** Agreement and durability in every run of Cluster.dfy. */
module ClusterSafety {
  import opened LogModel
  import opened LogTheory
  import opened Membership
  import opened Quorum
  import opened Replication
  import opened SyncReassembly
  import opened Cluster

  // ----- the invariant -----

  ghost function Holders(s: State, k: nat): set<int> {
    set i | i in s.nodes && |s.nodes[i].lr.log| >= k
  }

  /** Number k has been proposed and a quorum of members has it in its log (or k is 0). */
  ghost predicate Backed(s: State, k: nat) {
    k <= |s.proposals| && (k == 0 || |Holders(s, k)| >= QuorumSize(|s.nodes|))
  }

  ghost predicate EntryOk(c: Setup, s: State, e: Entry, i: nat) {
    && e.op == i + 1 && e.view == c.view
    && i < |s.proposals| && e.payload == s.proposals[i]
    && (e.committed ==> Backed(s, i + 1))
  }

  ghost predicate LogOk(c: Setup, s: State, log: seq<Entry>) {
    |log| <= |s.proposals| && forall i :: 0 <= i < |log| ==> EntryOk(c, s, log[i], i)
  }

  ghost predicate SyncOk(c: Setup, s: State, m: SyncMsg) {
    m.SyncEntry? && EntryOk(c, s, m.entry, m.index)
  }

  ghost predicate CollectedOk(c: Setup, s: State, v: seq<SyncMsg>) {
    forall j :: 0 <= j < |v| ==> SyncOk(c, s, v[j]) && v[j].index == j
  }

  ghost predicate TableOk(s: State, t: Table) {
    && t.rows.Keys == s.nodes.Keys
    && forall id :: id in t.rows ==> Backed(s, t.rows[id].committedOp)
  }

  /** The call was made for a number a quorum holds, with the payload proposed under it. */
  ghost predicate CallOk(s: State, u: Upcall) {
    1 <= u.op <= |s.proposals| && u.msg == s.proposals[u.op - 1] && Backed(s, u.op)
  }

  ghost predicate CallsOk(s: State, trace: seq<Upcall>) {
    forall k :: 0 <= k < |trace| ==> CallOk(s, trace[k])
  }

  ghost predicate NodeOk(c: Setup, s: State, i: int, nd: Node) {
    && nd.lr.me == i && LogOk(c, s, nd.lr.log) && TableOk(s, nd.lr.t)
    && CollectedOk(c, s, nd.rcvd) && CallsOk(s, nd.trace)
  }

  ghost predicate MsgOk(c: Setup, s: State, m: LrMsg) {
    && m.view == c.view && 1 <= m.op <= |s.proposals|
    && match m
       case Prepare(op, _, _, payload) => payload == s.proposals[op - 1]
       case PrepareOK(op, _, src, _) => src in Holders(s, op)
       case Commit(op, _, _) => Backed(s, op)
  }

  ghost predicate OutOk(c: Setup, s: State, out: seq<LrMsg>) {
    forall k :: 0 <= k < |out| ==> MsgOk(c, s, out[k])
  }

  ghost predicate LeaderRowOk(c: Setup, s: State, id: int, row: Member) {
    && (row.pendingOp != INVALID_REQ_ID ==> row.pendingOp == |s.proposals| && row.pendingView == c.view)
    && (row.okRcvd ==> s.proposals != [] && id in Holders(s, |s.proposals|))
  }

  /** An answer names a proposed request, and "committed" one that a quorum holds. */
  ghost predicate AnswerOk(s: State, a: Completion) {
    && a.token < |s.proposals| && a.req == IdOf(s.proposals[a.token])
    && (a.status.Committed? ==> Backed(s, a.token + 1))
  }

  /** The callback waiting is that of the latest proposal, and all calls made were in order. */
  ghost predicate AnswersOk(s: State, lr: LrState) {
    && lr.accepted == |s.proposals|
    && (lr.cb.Some? ==>
          && s.proposals != [] && lr.cb.value == |s.proposals| - 1
          && lr.ongoingReq == IdOf(s.proposals[|s.proposals| - 1]))
    && forall k :: 0 <= k < |lr.fired| ==> AnswerOk(s, lr.fired[k])
  }

  /** The leader numbers its proposals consecutively, and everything before the one it is waiting for
      is backed by a quorum. */
  ghost predicate LeaderOk(c: Setup, s: State, lr: LrState) {
    && c.leader in lr.t.rows && MyOp(lr) == |s.proposals| && MyView(lr) == c.view
    && (s.proposals != [] ==> Backed(s, |s.proposals| - 1))
    && (lr.ongoing == None ==> Backed(s, |s.proposals|))
    && (forall id {:trigger LeaderRowOk(c, s, id, lr.t.rows[id])} ::
          id in lr.t.rows ==> LeaderRowOk(c, s, id, lr.t.rows[id]))
    && AnswersOk(s, lr)
  }

  ghost predicate NodesOk(c: Setup, s: State) {
    forall i {:trigger NodeOk(c, s, i, s.nodes[i])} {:trigger OutOk(c, s, s.nodes[i].lr.out)} ::
      i in s.nodes ==> NodeOk(c, s, i, s.nodes[i]) && OutOk(c, s, s.nodes[i].lr.out)
  }

  ghost predicate SyncsOk(c: Setup, s: State, syncs: set<SyncMsg>) {
    forall m :: m in syncs ==> SyncOk(c, s, m)
  }

  ghost predicate HeartbeatsOk(s: State, hbs: set<Heartbeat>) {
    forall hb :: hb in hbs ==> Backed(s, hb.committedOp)
  }

  ghost predicate Inv(c: Setup, s: State) {
    && c.leader in s.nodes
    && NodesOk(c, s)
    && SyncsOk(c, s, s.syncs)
    && HeartbeatsOk(s, s.heartbeats)
    && LeaderOk(c, s, s.nodes[c.leader].lr)
  }

  // ----- everything in it survives growth -----

  /** Same members, longer logs, more proposals. */
  ghost predicate Grows(s: State, s': State) {
    && s'.nodes.Keys == s.nodes.Keys
    && s.proposals <= s'.proposals
    && forall i :: i in s.nodes ==> |s.nodes[i].lr.log| <= |s'.nodes[i].lr.log|
  }

  lemma BackedGrows(s: State, s': State, k: nat)
    requires Grows(s, s') && Backed(s, k)
    ensures Backed(s', k)
  {
    assert |s'.nodes.Keys| == |s.nodes.Keys|;
    forall i | i in Holders(s, k) ensures i in Holders(s', k) {
    }
    SubsetSize(Holders(s, k), Holders(s', k));
  }

  lemma BackedBelow(s: State, k: nat, j: nat)
    requires Backed(s, k) && j <= k
    ensures Backed(s, j)
  {
    if j > 0 {
      SubsetSize(Holders(s, k), Holders(s, j));
    }
  }

  lemma EntryOkGrows(c: Setup, s: State, s': State, e: Entry, i: nat)
    requires Grows(s, s') && EntryOk(c, s, e, i)
    ensures EntryOk(c, s', e, i)
  {
    if e.committed {
      BackedGrows(s, s', i + 1);
    }
  }

  lemma LogOkGrows(c: Setup, s: State, s': State, log: seq<Entry>)
    requires Grows(s, s') && LogOk(c, s, log)
    ensures LogOk(c, s', log)
  {
    forall i | 0 <= i < |log| ensures EntryOk(c, s', log[i], i) {
      EntryOkGrows(c, s, s', log[i], i);
    }
  }

  lemma CollectedOkGrows(c: Setup, s: State, s': State, v: seq<SyncMsg>)
    requires Grows(s, s') && CollectedOk(c, s, v)
    ensures CollectedOk(c, s', v)
  {
    forall j | 0 <= j < |v| ensures SyncOk(c, s', v[j]) && v[j].index == j {
      EntryOkGrows(c, s, s', v[j].entry, v[j].index);
    }
  }

  lemma TableOkGrows(s: State, s': State, t: Table)
    requires Grows(s, s') && TableOk(s, t)
    ensures TableOk(s', t)
  {
    forall id | id in t.rows ensures Backed(s', t.rows[id].committedOp) {
      BackedGrows(s, s', t.rows[id].committedOp);
    }
  }

  lemma CallsOkGrows(s: State, s': State, trace: seq<Upcall>)
    requires Grows(s, s') && CallsOk(s, trace)
    ensures CallsOk(s', trace)
  {
    forall k | 0 <= k < |trace| ensures CallOk(s', trace[k]) {
      BackedGrows(s, s', trace[k].op);
    }
  }

  lemma AnswersGrow(s: State, s': State, fired: seq<Completion>)
    requires Grows(s, s') && forall k :: 0 <= k < |fired| ==> AnswerOk(s, fired[k])
    ensures forall k :: 0 <= k < |fired| ==> AnswerOk(s', fired[k])
  {
    forall k | 0 <= k < |fired| ensures AnswerOk(s', fired[k]) {
      assert AnswerOk(s, fired[k]);
      if fired[k].status.Committed? {
        BackedGrows(s, s', fired[k].token + 1);
      }
    }
  }

  lemma NodeOkGrows(c: Setup, s: State, s': State, i: int, nd: Node)
    requires Grows(s, s') && NodeOk(c, s, i, nd)
    ensures NodeOk(c, s', i, nd)
  {
    LogOkGrows(c, s, s', nd.lr.log);
    CollectedOkGrows(c, s, s', nd.rcvd);
    TableOkGrows(s, s', nd.lr.t);
    CallsOkGrows(s, s', nd.trace);
  }

  lemma MsgOkGrows(c: Setup, s: State, s': State, m: LrMsg)
    requires Grows(s, s') && MsgOk(c, s, m)
    ensures MsgOk(c, s', m)
  {
    if m.Commit? {
      BackedGrows(s, s', m.op);
    }
  }

  lemma OutOkGrows(c: Setup, s: State, s': State, out: seq<LrMsg>)
    requires Grows(s, s') && OutOk(c, s, out)
    ensures OutOk(c, s', out)
  {
    forall k | 0 <= k < |out| ensures MsgOk(c, s', out[k]) {
      MsgOkGrows(c, s, s', out[k]);
    }
  }

  lemma LeaderOkGrows(c: Setup, s: State, s': State, lr: LrState)
    requires Grows(s, s') && s'.proposals == s.proposals && LeaderOk(c, s, lr)
    ensures LeaderOk(c, s', lr)
  {
    if s.proposals != [] {
      BackedGrows(s, s', |s.proposals| - 1);
    }
    if lr.ongoing == None {
      BackedGrows(s, s', |s.proposals|);
    }
    forall id | id in lr.t.rows ensures LeaderRowOk(c, s', id, lr.t.rows[id]) {
      assert LeaderRowOk(c, s, id, lr.t.rows[id]);
    }
    AnswersGrow(s, s', lr.fired);
  }

  lemma SyncsOkGrows(c: Setup, s: State, s': State, syncs: set<SyncMsg>)
    requires Grows(s, s') && SyncsOk(c, s, syncs)
    ensures SyncsOk(c, s', syncs)
  {
    forall m | m in syncs ensures SyncOk(c, s', m) {
      EntryOkGrows(c, s, s', m.entry, m.index);
    }
  }

  lemma HeartbeatsOkGrows(s: State, s': State, hbs: set<Heartbeat>)
    requires Grows(s, s') && HeartbeatsOk(s, hbs)
    ensures HeartbeatsOk(s', hbs)
  {
    forall hb | hb in hbs ensures Backed(s', hb.committedOp) {
      BackedGrows(s, s', hb.committedOp);
    }
  }

  lemma NodesOkGrows(c: Setup, s: State, s': State, i: int)
    requires Grows(s, s') && NodesOk(c, s)
    requires forall j :: j in s.nodes && j != i ==> s'.nodes[j] == s.nodes[j]
    requires i in s'.nodes ==> NodeOk(c, s', i, s'.nodes[i]) && OutOk(c, s', s'.nodes[i].lr.out)
    ensures NodesOk(c, s')
  {
    forall j | j in s'.nodes ensures NodeOk(c, s', j, s'.nodes[j]) && OutOk(c, s', s'.nodes[j].lr.out) {
      if j != i {
        NodeOkGrows(c, s, s', j, s.nodes[j]);
        OutOkGrows(c, s, s', s.nodes[j].lr.out);
      }
    }
  }

  /** What a step at one node has to show; the rest of the invariant comes by growth. */
  lemma StepAtNode(c: Setup, s: State, s': State, i: int)
    requires Inv(c, s) && i in s.nodes && Grows(s, s')
    requires s'.nodes == s.nodes[i := s'.nodes[i]] && s'.syncs == s.syncs && s'.heartbeats == s.heartbeats
    requires NodeOk(c, s', i, s'.nodes[i]) && OutOk(c, s', s'.nodes[i].lr.out)
    requires if i == c.leader then LeaderOk(c, s', s'.nodes[i].lr) else s'.proposals == s.proposals
    ensures Inv(c, s')
  {
    NodesOkGrows(c, s, s', i);
    SyncsOkGrows(c, s, s', s.syncs);
    HeartbeatsOkGrows(s, s', s.heartbeats);
    if i != c.leader {
      LeaderOkGrows(c, s, s', s.nodes[c.leader].lr);
    }
  }

  lemma SetRowOk(s: State, t: Table, id: int, row: Member)
    requires TableOk(s, t) && Backed(s, row.committedOp)
    ensures TableOk(s, SetRow(t, id, row))
  {
  }

  // ----- steps on the log -----

  lemma LogOkNumbered(c: Setup, s: State, log: seq<Entry>)
    requires LogOk(c, s, log)
    ensures WellNumbered(log)
  {
  }

  lemma LogAfterPrepare(c: Setup, s: State, log: seq<Entry>, m: LrMsg)
    requires LogOk(c, s, log) && m.Prepare? && MsgOk(c, s, m)
    ensures var (log', ok) := AddEntry(log, m.op, m.view, m.payload);
            && LogOk(c, s, log') && |log| <= |log'|
            && (ok ==> m.op <= |log'|)
  {
    LogOkNumbered(c, s, log);
    PrepareOutcome(log, m.op, m.view, m.payload);
    if log != [] {
      assert EntryOk(c, s, log[0], 0) && EntryOk(c, s, log[|log| - 1], |log| - 1);
    }
  }

  lemma LogAfterCommit(c: Setup, s: State, log: seq<Entry>, op: nat, view: nat)
    requires LogOk(c, s, log) && Backed(s, op)
    ensures LogOk(c, s, CommitEntry(log, op, view).0) && |CommitEntry(log, op, view).0| == |log|
  {
    LogOkNumbered(c, s, log);
    FindInShaped(log, op);
    var log' := CommitEntry(log, op, view).0;
    forall i | 0 <= i < |log'| ensures EntryOk(c, s, log'[i], i) {
      assert EntryOk(c, s, log[i], i);
    }
  }

  lemma LogAfterCommitUpTo(c: Setup, s: State, log: seq<Entry>, k: nat)
    requires LogOk(c, s, log) && Backed(s, k)
    ensures LogOk(c, s, CommitUpTo(log, k)) && Backed(s, HighestCommitted(CommitUpTo(log, k)))
  {
    var log' := CommitUpTo(log, k);
    forall i | 0 <= i < |log'| ensures EntryOk(c, s, log'[i], i) {
      assert EntryOk(c, s, log[i], i);
      if log[i].op <= k {
        BackedBelow(s, k, i + 1);
      }
    }
    var h := HighestCommitted(log');
    if h > 0 {
      var i :| 0 <= i < |log'| && log'[i].committed && log'[i].op == h;
      assert EntryOk(c, s, log'[i], i);
    }
  }

  lemma LogAfterMerge(c: Setup, s: State, log: seq<Entry>, v: seq<SyncMsg>)
    requires LogOk(c, s, log) && CollectedOk(c, s, v)
    ensures LogOk(c, s, Merge(log, EntriesOf(v))) && |log| <= |Merge(log, EntriesOf(v))|
  {
    var batch := EntriesOf(v);
    LogOkNumbered(c, s, log);
    forall j | 0 <= j < |batch| ensures EntryOk(c, s, batch[j], j) {
      assert SyncOk(c, s, v[j]);
    }
    assert WellNumbered(batch);
    MergeAppends(log, batch);
    var log' := Merge(log, batch);
    forall i | 0 <= i < |log'| ensures EntryOk(c, s, log'[i], i) {
      if i < |log| {
        assert EntryOk(c, s, log[i], i);
      } else {
        assert EntryOk(c, s, batch[i], i);
      }
    }
    assert |batch| > 0 ==> EntryOk(c, s, batch[|batch| - 1], |batch| - 1);
  }

  lemma LargestCommittedBacked(s: State, t: Table)
    requires TableOk(s, t)
    ensures Backed(s, LargestCommitted(t))
  {
  }

  // ----- one lemma per step -----

  /** What a Prepare changes at the node that gets it. */
  lemma PrepareEffect(lr: LrState, m: LrMsg)
    requires m.Prepare?
    ensures var lr' := OnPrepare(lr, m.op, m.view, m.src, m.payload);
            && (lr'.log == lr.log || lr'.log == AddEntry(lr.log, m.op, m.view, m.payload).0)
            && lr' == lr.(log := lr'.log, out := lr'.out, syncTriggered := lr'.syncTriggered)
            && (lr'.out == lr.out
                || (lr'.out == lr.out + [PrepareOK(m.op, m.view, lr.me, m.src)]
                    && (lr'.log, true) == AddEntry(lr.log, m.op, m.view, m.payload)))
  {
  }

  lemma CommitEffect(lr: LrState, op: nat, view: nat)
    ensures var lr' := OnCommit(lr, op, view);
            && (lr'.log == lr.log || lr'.log == CommitEntry(lr.log, op, view).0)
            && lr' == lr.(log := lr'.log, syncTriggered := lr'.syncTriggered)
  {
  }

  lemma LogGrowsAt(s: State, i: int, lr': LrState)
    requires i in s.nodes && |s.nodes[i].lr.log| <= |lr'.log|
    ensures Grows(s, SetLr(s, i, lr'))
  {
  }

  lemma PrepareStep(c: Setup, s: State, i: int, m: LrMsg)
    requires Inv(c, s) && i in s.nodes && m.Prepare? && MsgOk(c, s, m)
    ensures var s' := SetLr(s, i, OnPrepare(s.nodes[i].lr, m.op, m.view, m.src, m.payload));
            Inv(c, s') && Grows(s, s')
  {
    var nd := s.nodes[i];
    var lr' := OnPrepare(nd.lr, m.op, m.view, m.src, m.payload);
    var s' := SetLr(s, i, lr');
    assert NodeOk(c, s, i, nd);
    PrepareEffect(nd.lr, m);
    LogAfterPrepare(c, s, nd.lr.log, m);
    LogGrowsAt(s, i, lr');
    NodeOkGrows(c, s, s', i, nd.(lr := lr'));
    OutOkGrows(c, s, s', nd.lr.out);
    if lr'.out != nd.lr.out {
      OutOkSend(c, s', nd.lr.out, PrepareOK(m.op, m.view, nd.lr.me, m.src));
    }
    if i == c.leader {
      LeaderOkGrows(c, s, s', lr');
    }
    StepAtNode(c, s, s', i);
  }

  lemma CommitStep(c: Setup, s: State, i: int, m: LrMsg)
    requires Inv(c, s) && i in s.nodes && m.Commit? && MsgOk(c, s, m)
    ensures var s' := SetLr(s, i, OnCommit(s.nodes[i].lr, m.op, m.view));
            Inv(c, s') && Grows(s, s')
  {
    var nd := s.nodes[i];
    var lr' := OnCommit(nd.lr, m.op, m.view);
    assert NodeOk(c, s, i, nd);
    CommitEffect(nd.lr, m.op, m.view);
    LogAfterCommit(c, s, nd.lr.log, m.op, m.view);
    NodeReplaced(c, s, i, nd.(lr := lr'));
  }

  lemma MarkedRow(c: Setup, s: State, t: Table, m: LrMsg, id: int)
    requires m.PrepareOK? && MsgOk(c, s, m) && id in t.rows
    requires LeaderRowOk(c, s, id, t.rows[id])
    ensures var t' := MarkOk(t, m.src, m.view, m.op);
            && t'.rows.Keys == t.rows.Keys
            && LeaderRowOk(c, s, id, t'.rows[id])
            && t'.rows[id].committedOp == t.rows[id].committedOp
            && t'.rows[id].op == t.rows[id].op && t'.rows[id].view == t.rows[id].view
  {
  }

  /** A majority of marks is a quorum of holders of the latest proposal. */
  lemma MajorityBacks(c: Setup, s: State, t: Table)
    requires t.rows.Keys == s.nodes.Keys
    requires forall id :: id in t.rows ==> LeaderRowOk(c, s, id, t.rows[id])
    requires OkMajority(t)
    ensures Backed(s, |s.proposals|)
  {
    assert |t.rows.Keys| == |s.nodes.Keys|;
    var marked, holders := OkSet(t), Holders(s, |s.proposals|);
    forall id | id in marked ensures id in holders {
      assert LeaderRowOk(c, s, id, t.rows[id]);
    }
    SubsetSize(marked, holders);
  }

  lemma MarkedTable(c: Setup, s: State, lr: LrState, m: LrMsg)
    requires m.PrepareOK? && MsgOk(c, s, m)
    requires lr.me == c.leader && LeaderOk(c, s, lr) && TableOk(s, lr.t)
    ensures var t' := MarkOk(lr.t, m.src, m.view, m.op);
            && TableOk(s, t')
            && Row(t', c.leader).op == |s.proposals| && Row(t', c.leader).view == c.view
            && (forall id :: id in t'.rows ==> LeaderRowOk(c, s, id, t'.rows[id]))
  {
    var t' := MarkOk(lr.t, m.src, m.view, m.op);
    forall id | id in t'.rows ensures LeaderRowOk(c, s, id, t'.rows[id]) && Backed(s, t'.rows[id].committedOp) {
      MarkedRow(c, s, lr.t, m, id);
    }
    MarkedRow(c, s, lr.t, m, c.leader);
  }

  /** The handler's effect, case by case. */
  lemma PrepareOkEffect(lr: LrState, op: nat, view: nat, src: int)
    ensures var lr' := OnPrepareOk(lr, op, view, src);
            && lr'.t == MarkOk(lr.t, src, view, op) && lr'.log == lr.log && lr'.me == lr.me
            && lr'.accepted == lr.accepted
            && (if OkMajority(lr'.t) then
                  && lr'.out == lr.out + [Commit(op, view, lr.me)] && lr'.ongoing == None && lr'.cb == None
                  && lr'.fired == lr.fired + (if lr.cb.None? then []
                                              else [Completion(lr.cb.value, lr.ongoingReq, Committed)])
                else lr' == lr.(t := lr'.t))
  {
  }

  lemma OutOkSend(c: Setup, s: State, out: seq<LrMsg>, m: LrMsg)
    requires OutOk(c, s, out) && MsgOk(c, s, m)
    ensures OutOk(c, s, out + [m])
  {
  }

  lemma AfterPrepareOk(c: Setup, s: State, lr: LrState, m: LrMsg)
    requires m.PrepareOK? && MsgOk(c, s, m)
    requires lr.me == c.leader && LeaderOk(c, s, lr) && TableOk(s, lr.t) && OutOk(c, s, lr.out)
    ensures var lr' := OnPrepareOk(lr, m.op, m.view, m.src);
            LeaderOk(c, s, lr') && TableOk(s, lr'.t) && OutOk(c, s, lr'.out)
  {
    var lr' := OnPrepareOk(lr, m.op, m.view, m.src);
    PrepareOkEffect(lr, m.op, m.view, m.src);
    MarkedTable(c, s, lr, m);
    if OkMajority(lr'.t) {
      MajorityBacks(c, s, lr'.t);
      BackedBelow(s, |s.proposals|, m.op);
      OutOkSend(c, s, lr.out, Commit(m.op, m.view, lr.me));
      AnsweredOk(s, lr, lr');
    }
  }

  /** A majority answers the request that is waiting, if any, and a quorum holds it. */
  lemma AnsweredOk(s: State, lr: LrState, lr': LrState)
    requires AnswersOk(s, lr) && Backed(s, |s.proposals|) && lr'.accepted == lr.accepted && lr'.cb == None
    requires lr'.fired == lr.fired + if lr.cb.None? then [] else [Completion(lr.cb.value, lr.ongoingReq, Committed)]
    ensures AnswersOk(s, lr')
  {
  }

  lemma PrepareOkStep(c: Setup, s: State, m: LrMsg)
    requires Inv(c, s) && m.PrepareOK? && MsgOk(c, s, m)
    ensures var s' := SetLr(s, c.leader, OnPrepareOk(s.nodes[c.leader].lr, m.op, m.view, m.src));
            Inv(c, s') && Grows(s, s')
  {
    var i := c.leader;
    var nd := s.nodes[i];
    var lr' := OnPrepareOk(nd.lr, m.op, m.view, m.src);
    var s' := SetLr(s, i, lr');
    assert NodeOk(c, s, i, nd);
    AfterPrepareOk(c, s, nd.lr, m);
    PrepareOkEffect(nd.lr, m.op, m.view, m.src);
    LogGrowsAt(s, i, lr');
    NodeOkGrows(c, s, s', i, nd.(lr := lr'));
    OutOkGrows(c, s, s', lr'.out);
    LeaderOkGrows(c, s, s', lr');
    StepAtNode(c, s, s', i);
  }

  /** A leader ignores the Prepare and Commit of others; everything else is handled. */
  lemma DeliveryEffect(c: Setup, s: State, to: int, from: int, k: nat)
    requires Enabled(c, s, Deliver(to, from, k)) && (to == c.leader ==> s.nodes[to].lr.me == to)
    ensures var m, lr := s.nodes[from].lr.out[k], s.nodes[to].lr;
            After(c, s, Deliver(to, from, k)) ==
            if m.PrepareOK? then (if to == c.leader then SetLr(s, to, OnPrepareOk(lr, m.op, m.view, m.src)) else s)
            else if to == c.leader && m.src != to then s
            else if m.Prepare? then SetLr(s, to, OnPrepare(lr, m.op, m.view, m.src, m.payload))
            else SetLr(s, to, OnCommit(lr, m.op, m.view))
  {
  }

  lemma DeliverStep(c: Setup, s: State, to: int, from: int, k: nat)
    requires Inv(c, s) && Enabled(c, s, Deliver(to, from, k))
    ensures Inv(c, After(c, s, Deliver(to, from, k))) && Grows(s, After(c, s, Deliver(to, from, k)))
  {
    var m := s.nodes[from].lr.out[k];
    assert MsgOk(c, s, m) by {
      assert OutOk(c, s, s.nodes[from].lr.out);
    }
    assert s.nodes[to].lr.me == to by {
      assert NodeOk(c, s, to, s.nodes[to]);
    }
    DeliveryEffect(c, s, to, from, k);
    if m.PrepareOK? {
      PrepareOkStep(c, s, m);
    } else if m.Prepare? {
      PrepareStep(c, s, to, m);
    } else {
      CommitStep(c, s, to, m);
    }
    assert Grows(s, s);
  }

  lemma ProposedTable(st: LrState, req: ClientMessage)
    requires st.ongoing == None && st.me in st.t.rows
    ensures var lr' := Propose(st, req).0;
            && MyOp(lr') == MyOp(st) + 1 && MyView(lr') == MyView(st)
            && lr'.t.rows.Keys == st.t.rows.Keys
            && (forall id :: id in st.t.rows ==>
                  && lr'.t.rows[id].committedOp == st.t.rows[id].committedOp
                  && lr'.t.rows[id].pendingOp == MyOp(st) + 1
                  && lr'.t.rows[id].pendingView == MyView(st)
                  && !lr'.t.rows[id].okRcvd)
            && lr'.out == st.out + [Prepare(MyOp(st) + 1, MyView(st), st.me, req)]
  {
  }

  /** The leader after a proposal: the one before it is backed, and nothing has answered this one. */
  lemma ProposedLeaderOk(c: Setup, s: State, s': State, req: ClientMessage)
    requires c.leader in s.nodes && s.nodes[c.leader].lr.me == c.leader
    requires LeaderOk(c, s, s.nodes[c.leader].lr) && s.nodes[c.leader].lr.ongoing.None?
    requires Grows(s, s') && s'.proposals == s.proposals + [req]
    ensures LeaderOk(c, s', Propose(s.nodes[c.leader].lr, req).0)
  {
    var lr := s.nodes[c.leader].lr;
    ProposedTable(lr, req);
    BackedGrows(s, s', |s.proposals|);
    AnswersGrow(s, s', lr.fired);
  }

  lemma ProposeKeeps(c: Setup, s: State, req: ClientMessage)
    requires Inv(c, s)
    ensures var s' := After(c, s, ProposeStep(req));
            Inv(c, s') && Grows(s, s')
  {
    var i := c.leader;
    var nd := s.nodes[i];
    assert NodeOk(c, s, i, nd);
    if nd.lr.ongoing.Some? {
      assert SetLr(s, i, nd.lr) == s;
    } else {
      var lr' := Propose(nd.lr, req).0;
      var s' := After(c, s, ProposeStep(req));
      ProposedTable(nd.lr, req);
      assert Grows(s, s');
      ProposedLeaderOk(c, s, s', req);
      NodeOkGrows(c, s, s', i, nd);
      OutOkGrows(c, s, s', nd.lr.out);
      OutOkSend(c, s', nd.lr.out, Prepare(MyOp(nd.lr) + 1, MyView(nd.lr), i, req));
      ProposedNodeOk(c, s', nd, lr');
      StepAtNode(c, s, s', i);
    }
  }

  /** Only the pending marks and the own number in the table differ. */
  lemma ProposedNodeOk(c: Setup, s: State, nd: Node, lr': LrState)
    requires NodeOk(c, s, c.leader, nd) && lr'.me == nd.lr.me && lr'.log == nd.lr.log
    requires lr'.t.rows.Keys == nd.lr.t.rows.Keys
    requires forall id :: id in nd.lr.t.rows ==> lr'.t.rows[id].committedOp == nd.lr.t.rows[id].committedOp
    ensures NodeOk(c, s, c.leader, nd.(lr := lr'))
  {
  }

  lemma StartStep(c: Setup, s: State, i: int)
    requires Inv(c, s) && i in s.nodes && i != c.leader
    ensures Inv(c, After(c, s, FollowerStart(i))) && Grows(s, After(c, s, FollowerStart(i)))
  {
    var nd := s.nodes[i];
    assert NodeOk(c, s, i, nd);
    SetRowOk(s, nd.lr.t, i, Row(nd.lr.t, i).(op := LatestOp(nd.lr.log)));
    NodeReplaced(c, s, i, nd.(lr := FollowerBegin(nd.lr)));
  }

  lemma FollowerEndOk(c: Setup, s: State, lr: LrState, syncDue: bool)
    requires LogOk(c, s, lr.log) && TableOk(s, lr.t)
    ensures var lr' := FollowerEnd(lr, syncDue);
            LogOk(c, s, lr'.log) && TableOk(s, lr'.t) && |lr'.log| == |lr.log| && lr'.out == lr.out && lr'.me == lr.me
  {
    var k := LargestCommitted(lr.t);
    LargestCommittedBacked(s, lr.t);
    LogAfterCommitUpTo(c, s, lr.log, k);
    var log' := CommitUpTo(lr.log, k);
    SetRowOk(s, lr.t, lr.me, Row(lr.t, lr.me).(committedOp := HighestCommitted(log')));
  }

  lemma FinishStep(c: Setup, s: State, i: int, syncDue: bool)
    requires Inv(c, s) && i in s.nodes && i != c.leader
    ensures Inv(c, After(c, s, FollowerFinish(i, syncDue))) && Grows(s, After(c, s, FollowerFinish(i, syncDue)))
  {
    var nd := s.nodes[i];
    assert NodeOk(c, s, i, nd);
    FollowerEndOk(c, s, nd.lr, syncDue);
    NodeReplaced(c, s, i, nd.(lr := FollowerEnd(nd.lr, syncDue)));
  }

  /** A step that proposes nothing, sends nothing and leaves the node in order. */
  lemma NodeReplaced(c: Setup, s: State, i: int, nd': Node)
    requires Inv(c, s) && i in s.nodes
    requires NodeOk(c, s, i, nd') && nd'.lr.out == s.nodes[i].lr.out
    requires |s.nodes[i].lr.log| <= |nd'.lr.log|
    requires i == c.leader ==> LeaderOk(c, s, nd'.lr)
    ensures Inv(c, s.(nodes := s.nodes[i := nd'])) && Grows(s, s.(nodes := s.nodes[i := nd']))
  {
    var s' := s.(nodes := s.nodes[i := nd']);
    assert Grows(s, s');
    NodeOkGrows(c, s, s', i, nd');
    OutOkGrows(c, s, s', nd'.lr.out);
    if i == c.leader {
      LeaderOkGrows(c, s, s', nd'.lr);
    }
    StepAtNode(c, s, s', i);
  }

  lemma HeardFromTable(s: State, i: int, t: Table, hb: Heartbeat)
    requires TableOk(s, t) && Backed(s, hb.committedOp) && hb.sender != i
    ensures var t' := HeardFrom(t, hb);
            && TableOk(s, t') && Row(t', i) == Row(t, i)
            && forall id :: id in t.rows ==>
                 && t'.rows[id].pendingOp == t.rows[id].pendingOp
                 && t'.rows[id].pendingView == t.rows[id].pendingView
                 && t'.rows[id].okRcvd == t.rows[id].okRcvd
  {
  }

  lemma HeardMyselfTable(s: State, i: int, t: Table, hb: Heartbeat)
    requires TableOk(s, t)
    ensures var t' := HeardMyself(t, i, hb);
            && TableOk(s, t')
            && Row(t', i).op == Row(t, i).op
            && forall id :: id in t.rows ==>
                 && t'.rows[id].pendingOp == t.rows[id].pendingOp
                 && t'.rows[id].pendingView == t.rows[id].pendingView
                 && t'.rows[id].okRcvd == t.rows[id].okRcvd
  {
    if i in t.rows {
      SetRowOk(s, t, i, Connect(Row(t, i), hb.sender));
    }
  }

  /** Hearing another member changes no own number, no pending mark, and stores a backed number. */
  lemma HeardTable(s: State, i: int, t: Table, hb: Heartbeat)
    requires TableOk(s, t) && Backed(s, hb.committedOp) && hb.sender != i
    ensures var t' := ReceiveHeartbeat(t, i, hb);
            && TableOk(s, t')
            && Row(t', i).op == Row(t, i).op
            && forall id :: id in t.rows ==>
                 && t'.rows[id].pendingOp == t.rows[id].pendingOp
                 && t'.rows[id].pendingView == t.rows[id].pendingView
                 && t'.rows[id].okRcvd == t.rows[id].okRcvd
  {
    HeardFromTable(s, i, t, hb);
    HeardMyselfTable(s, i, HeardFrom(t, hb), hb);
  }

  lemma HeardLeader(c: Setup, s: State, lr: LrState, hb: Heartbeat)
    requires LeaderOk(c, s, lr) && lr.me == c.leader && TableOk(s, lr.t)
    requires Backed(s, hb.committedOp) && hb.sender != c.leader
    requires Row(ReceiveHeartbeat(lr.t, lr.me, hb), lr.me).view == c.view
    ensures LeaderOk(c, s, lr.(t := ReceiveHeartbeat(lr.t, lr.me, hb)))
  {
    HeardTable(s, lr.me, lr.t, hb);
    var t' := ReceiveHeartbeat(lr.t, lr.me, hb);
    forall id | id in t'.rows ensures LeaderRowOk(c, s, id, t'.rows[id]) {
      assert LeaderRowOk(c, s, id, lr.t.rows[id]);
    }
  }

  lemma HearStep(c: Setup, s: State, i: int, hb: Heartbeat)
    requires Inv(c, s) && Enabled(c, s, HearHeartbeat(i, hb))
    ensures Inv(c, After(c, s, HearHeartbeat(i, hb))) && Grows(s, After(c, s, HearHeartbeat(i, hb)))
  {
    var nd := s.nodes[i];
    assert NodeOk(c, s, i, nd);
    HeardTable(s, i, nd.lr.t, hb);
    if i == c.leader {
      HeardLeader(c, s, nd.lr, hb);
    }
    NodeReplaced(c, s, i, nd.(lr := HeardBy(nd, hb)));
  }

  lemma SendStep(c: Setup, s: State, i: int)
    requires Inv(c, s) && i in s.nodes
    ensures Inv(c, After(c, s, SendHeartbeat(i))) && Grows(s, After(c, s, SendHeartbeat(i)))
  {
    var s' := After(c, s, SendHeartbeat(i));
    assert NodeOk(c, s, i, s.nodes[i]);
    assert Backed(s, MakeHeartbeat(s.nodes[i].lr.t, i).committedOp);
    SameNodes(c, s, s');
  }

  lemma ServeStep(c: Setup, s: State, i: int)
    requires Inv(c, s) && i in s.nodes
    ensures Inv(c, After(c, s, ServeSync(i))) && Grows(s, After(c, s, ServeSync(i)))
  {
    var log := s.nodes[i].lr.log;
    assert NodeOk(c, s, i, s.nodes[i]);
    forall m | m in Snapshot(i, log) ensures SyncOk(c, s, m) {
      var k :| 0 <= k < |log| && Snapshot(i, log)[k] == m;
      assert EntryOk(c, s, log[k], k);
    }
    SameNodes(c, s, After(c, s, ServeSync(i)));
  }

  lemma SameNodes(c: Setup, s: State, s': State)
    requires Inv(c, s) && s'.nodes == s.nodes && s'.proposals == s.proposals
    requires SyncsOk(c, s, s'.syncs) && HeartbeatsOk(s, s'.heartbeats)
    ensures Inv(c, s') && Grows(s, s')
  {
    assert Grows(s, s');
    NodeOkGrows(c, s, s', c.leader, s.nodes[c.leader]);
    OutOkGrows(c, s, s', s.nodes[c.leader].lr.out);
    NodesOkGrows(c, s, s', c.leader);
    SyncsOkGrows(c, s, s', s'.syncs);
    HeartbeatsOkGrows(s, s', s'.heartbeats);
    LeaderOkGrows(c, s, s', s.nodes[c.leader].lr);
  }

  lemma ArriveStep(c: Setup, s: State, i: int, msg: SyncMsg)
    requires Inv(c, s) && Enabled(c, s, SyncArrives(i, msg))
    ensures Inv(c, After(c, s, SyncArrives(i, msg))) && Grows(s, After(c, s, SyncArrives(i, msg)))
  {
    var nd := s.nodes[i];
    assert NodeOk(c, s, i, nd);
    var p := Incoming(nd.rcvd, msg);
    assert CollectedOk(c, s, p.rcvd);
    if p.complete {
      LogAfterMerge(c, s, nd.lr.log, p.rcvd);
    }
    NodeReplaced(c, s, i, CollectOne(nd, msg));
  }

  lemma CallsAfterUpcalls(c: Setup, s: State, log: seq<Entry>, trace: seq<Upcall>)
    requires LogOk(c, s, log) && CallsOk(s, trace)
    ensures LogOk(c, s, MarkUpcalls(log, false)) && CallsOk(s, trace + UpcallsDue(log, false))
  {
    var log', due := MarkUpcalls(log, false), UpcallsDue(log, false);
    forall k | 0 <= k < |log'| ensures EntryOk(c, s, log'[k], k) {
      assert EntryOk(c, s, log[k], k);
    }
    LogOkNumbered(c, s, log);
    DueOnce(log, |log|);
    forall k | 0 <= k < |due| ensures CallOk(s, due[k]) {
      assert EntryOk(c, s, log[due[k].op - 1], due[k].op - 1);
    }
  }

  lemma UpcallStep(c: Setup, s: State, i: int)
    requires Inv(c, s) && i in s.nodes
    ensures Inv(c, After(c, s, MakeUpcalls(i))) && Grows(s, After(c, s, MakeUpcalls(i)))
  {
    var nd := s.nodes[i];
    assert NodeOk(c, s, i, nd);
    CallsAfterUpcalls(c, s, nd.lr.log, nd.trace);
    NodeReplaced(c, s, i, Upcalls(nd));
  }

  /** Every step keeps the invariant, shortens no log and forgets no proposal. */
  lemma StepKeepsInv(c: Setup, s: State, step: Step)
    requires Inv(c, s) && Enabled(c, s, step)
    ensures Inv(c, After(c, s, step)) && Grows(s, After(c, s, step))
  {
    match step
    case ProposeStep(req) => ProposeKeeps(c, s, req);
    case Deliver(to, from, k) => DeliverStep(c, s, to, from, k);
    case FollowerStart(i) => StartStep(c, s, i);
    case FollowerFinish(i, syncDue) => FinishStep(c, s, i, syncDue);
    case SendHeartbeat(i) => SendStep(c, s, i);
    case HearHeartbeat(i, hb) => HearStep(c, s, i, hb);
    case ServeSync(i) => ServeStep(c, s, i);
    case SyncArrives(i, msg) => ArriveStep(c, s, i, msg);
    case SyncGivenUp(i) =>
      assert NodeOk(c, s, i, s.nodes[i]);
      NodeReplaced(c, s, i, s.nodes[i].(rcvd := []));
    case MakeUpcalls(i) => UpcallStep(c, s, i);
  }

  // ----- every run -----

  lemma InitNodeOk(c: Setup, s: State, i: int, nd: Node)
    requires s.proposals == [] && InitNode(c, s.nodes.Keys, i, nd)
    ensures NodeOk(c, s, i, nd) && OutOk(c, s, nd.lr.out)
    ensures i == c.leader && i in s.nodes ==> LeaderOk(c, s, nd.lr)
  {
    assert Backed(s, 0);
  }

  lemma InitNodesOk(c: Setup, s: State)
    requires Init(c, s)
    ensures NodesOk(c, s)
  {
    forall i | i in s.nodes ensures NodeOk(c, s, i, s.nodes[i]) && OutOk(c, s, s.nodes[i].lr.out) {
      InitNodeOk(c, s, i, s.nodes[i]);
    }
  }

  lemma InitInv(c: Setup, s: State)
    requires Init(c, s)
    ensures Inv(c, s)
  {
    InitNodesOk(c, s);
    InitNodeOk(c, s, c.leader, s.nodes[c.leader]);
  }

  ghost predicate Keeps(c: Setup, run: seq<State>, k: nat) {
    k + 1 < |run| && (Inv(c, run[k]) ==> Inv(c, run[k + 1]) && Grows(run[k], run[k + 1]))
  }

  lemma RunKeeps(c: Setup, run: seq<State>, k: nat)
    requires IsRun(c, run) && k + 1 < |run|
    ensures Keeps(c, run, k)
  {
    if Inv(c, run[k]) {
      assert StepAt(c, run, k);
      var step :| Enabled(c, run[k], step) && run[k + 1] == After(c, run[k], step);
      StepKeepsInv(c, run[k], step);
    }
  }

  lemma {:induction false} KeptAlong(c: Setup, run: seq<State>, k: nat)
    requires k < |run| && Inv(c, run[0]) && forall m: nat :: m < k ==> Keeps(c, run, m)
    ensures Inv(c, run[k])
  {
    if k > 0 {
      KeptAlong(c, run, k - 1);
      assert Keeps(c, run, k - 1);
    }
  }

  lemma RunInv(c: Setup, run: seq<State>, k: nat)
    requires IsRun(c, run) && k < |run|
    ensures Inv(c, run[k])
  {
    InitInv(c, run[0]);
    forall m: nat | m < k ensures Keeps(c, run, m) {
      RunKeeps(c, run, m);
    }
    KeptAlong(c, run, k);
  }

  lemma NodeInRun(c: Setup, run: seq<State>, k: nat, i: int)
    requires IsRun(c, run) && k < |run| && i in run[k].nodes
    ensures NodeOk(c, run[k], i, run[k].nodes[i])
  {
    RunInv(c, run, k);
  }

  lemma AnswerInRun(c: Setup, run: seq<State>, k: nat, a: nat)
    requires IsRun(c, run) && k < |run| && c.leader in run[k].nodes && a < |run[k].nodes[c.leader].lr.fired|
    ensures var done := run[k].nodes[c.leader].lr.fired[a];
            && done.token < |run[k].proposals| && done.req == IdOf(run[k].proposals[done.token])
            && (done.status.Committed? ==> Backed(run[k], done.token + 1))
  {
    RunInv(c, run, k);
    assert AnswerOk(run[k], run[k].nodes[c.leader].lr.fired[a]);
  }

  lemma GrowsOn(s: State, s': State, s'': State)
    requires Grows(s, s') && Grows(s', s'')
    ensures Grows(s, s'')
  {
  }

  lemma RunStepGrows(c: Setup, run: seq<State>, k: nat)
    requires IsRun(c, run) && k < |run| - 1
    ensures Grows(run[k], run[k + 1])
  {
    RunInv(c, run, k);
    RunKeeps(c, run, k);
  }

  lemma {:induction false} GrowsAlong(run: seq<State>, k: nat, l: nat)
    requires k <= l < |run|
    requires forall m {:trigger run[m]} :: k <= m < l ==> Grows(run[m], run[m + 1])
    ensures Grows(run[k], run[l])
  {
    if k < l {
      GrowsAlong(run, k, l - 1);
      assert Grows(run[l - 1], run[l - 1 + 1]);
      GrowsOn(run[k], run[l - 1], run[l]);
    }
  }

  lemma RunGrows(c: Setup, run: seq<State>, k: nat, l: nat)
    requires IsRun(c, run) && k <= l < |run|
    ensures Grows(run[k], run[l])
  {
    forall m {:trigger run[m]} | k <= m < l ensures Grows(run[m], run[m + 1]) {
      RunStepGrows(c, run, m);
    }
    GrowsAlong(run, k, l);
  }

  ghost predicate Has(s: State, i: int, op: nat) {
    i in s.nodes && 1 <= op <= |s.nodes[i].lr.log|
  }

  function EntryAt(s: State, i: int, op: nat): Entry
    requires i in s.nodes && 1 <= op <= |s.nodes[i].lr.log|
  {
    s.nodes[i].lr.log[op - 1]
  }

  /** Every node's log is, at every moment, a prefix of what the leader has proposed. */
  lemma LogsFollowProposals(c: Setup, run: seq<State>, k: nat, i: int, op: nat)
    requires IsRun(c, run) && k < |run| && Has(run[k], i, op)
    ensures op <= |run[k].proposals|
    ensures var e := EntryAt(run[k], i, op); e.op == op && e.view == c.view && e.payload == run[k].proposals[op - 1]
  {
    NodeInRun(c, run, k, i);
    assert EntryOk(c, run[k], run[k].nodes[i].lr.log[op - 1], op - 1);
  }

  /** Agreement: entries with the same number are the same entry, at any two nodes and any two
      moments of a run; in particular no two nodes ever commit different payloads at one number. */
  lemma Agreement(c: Setup, run: seq<State>, k: nat, i: int, l: nat, j: int, op: nat)
    requires IsRun(c, run) && k < |run| && l < |run|
    requires Has(run[k], i, op) && Has(run[l], j, op)
    ensures Same(EntryAt(run[k], i, op), EntryAt(run[l], j, op))
  {
    LogsFollowProposals(c, run, k, i, op);
    LogsFollowProposals(c, run, l, j, op);
    if k <= l {
      RunGrows(c, run, k, l);
    } else {
      RunGrows(c, run, l, k);
    }
  }

  /** Durability: once any node has marked an entry committed, a quorum of members holds that very
      entry, then and at every later moment. */
  lemma Durability(c: Setup, run: seq<State>, k: nat, l: nat, i: int, op: nat)
    requires IsRun(c, run) && k <= l < |run|
    requires Has(run[k], i, op) && EntryAt(run[k], i, op).committed
    ensures |set j | j in run[l].nodes && Has(run[l], j, op)
                     && Same(EntryAt(run[l], j, op), EntryAt(run[k], i, op))| >= QuorumSize(|run[l].nodes|)
  {
    NodeInRun(c, run, k, i);
    assert EntryOk(c, run[k], run[k].nodes[i].lr.log[op - 1], op - 1);
    RunGrows(c, run, k, l);
    BackedGrows(run[k], run[l], op);
    var holding := set j | j in run[l].nodes && Has(run[l], j, op)
                           && Same(EntryAt(run[l], j, op), EntryAt(run[k], i, op));
    forall j | j in Holders(run[l], op) ensures j in holding {
      Agreement(c, run, l, j, k, i, op);
    }
    SubsetSize(Holders(run[l], op), holding);
  }

  /** A quorum of members holds message `m` under number `op`. */
  ghost predicate HeldByQuorum(s: State, op: nat, m: ClientMessage) {
    |set j | j in s.nodes && Has(s, j, op) && EntryAt(s, j, op).payload == m| >= QuorumSize(|s.nodes|)
  }

  lemma BackedLater(c: Setup, run: seq<State>, k: nat, l: nat, t: nat)
    requires IsRun(c, run) && k <= l < |run| && t < |run[k].proposals| && Backed(run[k], t + 1)
    ensures Backed(run[l], t + 1) && t < |run[l].proposals| && run[l].proposals[t] == run[k].proposals[t]
  {
    RunGrows(c, run, k, l);
    BackedGrows(run[k], run[l], t + 1);
  }

  lemma BackedIsHeld(c: Setup, run: seq<State>, l: nat, t: nat, m: ClientMessage)
    requires IsRun(c, run) && l < |run| && t < |run[l].proposals| && run[l].proposals[t] == m
    requires Backed(run[l], t + 1)
    ensures HeldByQuorum(run[l], t + 1, m)
  {
    var holding := set j | j in run[l].nodes && Has(run[l], j, t + 1) && EntryAt(run[l], j, t + 1).payload == m;
    forall j | j in Holders(run[l], t + 1) ensures j in holding {
      LogsFollowProposals(c, run, l, j, t + 1);
    }
    SubsetSize(Holders(run[l], t + 1), holding);
  }

  /** What an answer is worth: once the leader has told a client "committed", a quorum of members holds
      the client's message under its number, then and at every later moment, although no entry may
      have been marked committed yet. */
  lemma AnsweredIsDurable(c: Setup, run: seq<State>, k: nat, l: nat, a: nat, token: nat)
    requires IsRun(c, run) && k <= l < |run| && c.leader in run[k].nodes
    requires a < |run[k].nodes[c.leader].lr.fired|
    requires var done := run[k].nodes[c.leader].lr.fired[a]; done.status == Committed && done.token == token
    ensures token < |run[k].proposals|
    ensures run[k].nodes[c.leader].lr.fired[a].req == IdOf(run[k].proposals[token])
    ensures HeldByQuorum(run[l], token + 1, run[k].proposals[token])
  {
    AnswerInRun(c, run, k, a);
    BackedLater(c, run, k, l, token);
    BackedIsHeld(c, run, l, token, run[k].proposals[token]);
  }

  lemma CallInRun(c: Setup, run: seq<State>, k: nat, i: int, p: nat)
    requires IsRun(c, run) && k < |run| && i in run[k].nodes && p < |run[k].nodes[i].trace|
    ensures var u := run[k].nodes[i].trace[p];
            1 <= u.op <= |run[k].proposals| && u.msg == run[k].proposals[u.op - 1]
  {
    NodeInRun(c, run, k, i);
    assert CallOk(run[k], run[k].nodes[i].trace[p]);
  }

  /** State machine safety: every upcall for a number, at any node and any moment, carries the payload
      proposed under it, so that no two nodes ever apply different messages for one number. */
  lemma UpcallsAgree(c: Setup, run: seq<State>, k: nat, i: int, p: nat, l: nat, j: int, q: nat)
    requires IsRun(c, run) && k < |run| && l < |run| && i in run[k].nodes && j in run[l].nodes
    requires p < |run[k].nodes[i].trace| && q < |run[l].nodes[j].trace|
    requires run[k].nodes[i].trace[p].op == run[l].nodes[j].trace[q].op
    ensures run[k].nodes[i].trace[p] == run[l].nodes[j].trace[q]
  {
    CallInRun(c, run, k, i, p);
    CallInRun(c, run, l, j, q);
    if k <= l {
      RunGrows(c, run, k, l);
    } else {
      RunGrows(c, run, l, k);
    }
  }
}
