/** Ordered delivery across the cluster: in runs whose finished syncs keep the committed prefix, every
    node's calls follow the leader's proposals in order, so any two nodes' calls agree as far as both go. */
module ClusterDelivery {
  import opened LogModel
  import opened LogTheory
  import opened Membership
  import opened NodeCycle
  import opened Replication
  import opened SyncReassembly
  import opened Cluster
  import opened ClusterSafety

  /** A sync that this message completes brings a committed prefix that the local log may merge. */
  ghost predicate MergeAllowed(s: State, step: Step) {
    step.SyncArrives? && step.i in s.nodes && step.msg.SyncEntry? && AllEntries(s.nodes[step.i].rcvd) ==>
      var nd := s.nodes[step.i];
      var p := Incoming(nd.rcvd, step.msg);
      p.complete ==> Shaped(EntriesOf(p.rcvd)) && MergeGuard(nd.lr.log, EntriesOf(p.rcvd))
  }

  ghost predicate GuardedStepAt(c: Setup, run: seq<State>, k: nat) {
    && k + 1 < |run|
    && exists step :: Enabled(c, run[k], step) && MergeAllowed(run[k], step) && run[k + 1] == After(c, run[k], step)
  }

  ghost predicate IsGuardedRun(c: Setup, run: seq<State>) {
    run != [] && Init(c, run[0]) && forall k: nat :: k + 1 < |run| ==> GuardedStepAt(c, run, k)
  }

  lemma GuardedIsRun(c: Setup, run: seq<State>)
    requires IsGuardedRun(c, run)
    ensures IsRun(c, run)
  {
    forall k: nat | k + 1 < |run| ensures StepAt(c, run, k) {
      assert GuardedStepAt(c, run, k);
    }
  }

  ghost predicate NodeDelivered(nd: Node) { Delivered(nd.lr.log, nd.trace) }

  ghost predicate AllNodesDelivered(s: State) {
    forall i {:trigger NodeDelivered(s.nodes[i])} :: i in s.nodes ==> NodeDelivered(s.nodes[i])
  }

  /** The node a step changes, and what becomes of it. */
  function ActsAt(c: Setup, step: Step): int {
    match step
    case ProposeStep(_) => c.leader
    case Deliver(to, _, _) => to
    case FollowerStart(i) => i
    case FollowerFinish(i, _) => i
    case SendHeartbeat(i) => i
    case HearHeartbeat(i, _) => i
    case ServeSync(i) => i
    case SyncArrives(i, _) => i
    case SyncGivenUp(i) => i
    case MakeUpcalls(i) => i
  }

  lemma OthersUnchanged(c: Setup, s: State, step: Step)
    requires Enabled(c, s, step)
    ensures After(c, s, step).nodes.Keys == s.nodes.Keys && ActsAt(c, step) in s.nodes
    ensures forall j :: j in s.nodes && j != ActsAt(c, step) ==> After(c, s, step).nodes[j] == s.nodes[j]
  {
  }

  lemma ArrivalDelivers(nd: Node, msg: SyncMsg)
    requires NodeDelivered(nd) && AllEntries(nd.rcvd) && msg.SyncEntry?
    requires var p := Incoming(nd.rcvd, msg);
             p.complete ==> Shaped(EntriesOf(p.rcvd)) && MergeGuard(nd.lr.log, EntriesOf(p.rcvd))
    ensures NodeDelivered(CollectOne(nd, msg))
  {
    var p := Incoming(nd.rcvd, msg);
    if p.complete {
      StepDelivers(LogState(nd.lr.log, nd.trace), OpMerge(EntriesOf(p.rcvd)));
    }
  }

  lemma FinishDelivers(nd: Node, syncDue: bool)
    requires NodeDelivered(nd)
    ensures NodeDelivered(nd.(lr := FollowerEnd(nd.lr, syncDue)))
  {
    StepDelivers(LogState(nd.lr.log, nd.trace), OpCommitUpTo(LargestCommitted(nd.lr.t)));
  }

  lemma UpcallsDeliver(nd: Node)
    requires NodeDelivered(nd)
    ensures NodeDelivered(Upcalls(nd)) && nd.trace <= Upcalls(nd).trace
    ensures AllDelivered(Upcalls(nd).lr.log, Upcalls(nd).trace)
  {
    UpcallsCatchUp(LogState(nd.lr.log, nd.trace));
    assert Apply(LogState(nd.lr.log, nd.trace), OpUpcalls(false)) == LogState(Upcalls(nd).lr.log, Upcalls(nd).trace);
  }

  lemma ActorDelivers(c: Setup, s: State, step: Step)
    requires Enabled(c, s, step) && MergeAllowed(s, step) && ActsAt(c, step) in s.nodes
    requires NodeDelivered(s.nodes[ActsAt(c, step)])
    ensures ActsAt(c, step) in After(c, s, step).nodes && NodeDelivered(After(c, s, step).nodes[ActsAt(c, step)])
  {
    var nd := s.nodes[ActsAt(c, step)];
    match step
    case Deliver(to, from, k) => MessageDelivers(nd.lr, s.nodes[from].lr.out[k], nd.trace);
    case FollowerFinish(i, syncDue) => FinishDelivers(nd, syncDue);
    case SyncArrives(i, msg) => ArrivalDelivers(nd, msg);
    case MakeUpcalls(i) => UpcallsDeliver(nd);
    case _ =>
  }

  ghost predicate KeepsDelivered(run: seq<State>, k: nat) {
    k + 1 < |run| && (AllNodesDelivered(run[k]) ==> AllNodesDelivered(run[k + 1]))
  }

  lemma RunKeepsDelivered(c: Setup, run: seq<State>, k: nat)
    requires IsGuardedRun(c, run) && k + 1 < |run|
    ensures KeepsDelivered(run, k)
  {
    if AllNodesDelivered(run[k]) {
      assert GuardedStepAt(c, run, k);
      var step :| Enabled(c, run[k], step) && MergeAllowed(run[k], step) && run[k + 1] == After(c, run[k], step);
      OthersUnchanged(c, run[k], step);
      assert NodeDelivered(run[k].nodes[ActsAt(c, step)]);
      ActorDelivers(c, run[k], step);
      var s' := run[k + 1];
      forall j {:trigger NodeDelivered(s'.nodes[j])} | j in s'.nodes ensures NodeDelivered(s'.nodes[j]) {
        assert NodeDelivered(run[k].nodes[j]);
      }
    }
  }

  lemma {:induction false} DeliveredAlong(run: seq<State>, k: nat)
    requires k < |run| && AllNodesDelivered(run[0]) && forall m: nat :: m < k ==> KeepsDelivered(run, m)
    ensures AllNodesDelivered(run[k])
  {
    if k > 0 {
      DeliveredAlong(run, k - 1);
      assert KeepsDelivered(run, k - 1);
    }
  }

  lemma FreshDelivered(nd: Node)
    requires nd.lr.log == [] && nd.trace == []
    ensures NodeDelivered(nd)
  {
    CommitPointUnique(nd.lr.log, 0);
  }

  lemma InitDelivered(c: Setup, s: State)
    requires Init(c, s)
    ensures AllNodesDelivered(s)
  {
    forall i {:trigger NodeDelivered(s.nodes[i])} | i in s.nodes ensures NodeDelivered(s.nodes[i]) {
      assert InitNode(c, s.nodes.Keys, i, s.nodes[i]);
      FreshDelivered(s.nodes[i]);
    }
  }

  /** In guarded runs every node's calls are, at every moment, for numbers 1, 2, and so on. */
  lemma RunDelivered(c: Setup, run: seq<State>, k: nat, i: int)
    requires IsGuardedRun(c, run) && k < |run| && i in run[k].nodes
    ensures Delivered(run[k].nodes[i].lr.log, run[k].nodes[i].trace)
  {
    InitDelivered(c, run[0]);
    forall m: nat | m < k ensures KeepsDelivered(run, m) {
      RunKeepsDelivered(c, run, m);
    }
    DeliveredAlong(run, k);
    assert NodeDelivered(run[k].nodes[i]);
  }

  lemma CallFollowsProposals(c: Setup, run: seq<State>, k: nat, i: int, p: nat)
    requires IsGuardedRun(c, run) && k < |run| && i in run[k].nodes && p < |run[k].nodes[i].trace|
    ensures p < |run[k].proposals| && run[k].nodes[i].trace[p] == Upcall(p + 1, run[k].proposals[p])
  {
    RunDelivered(c, run, k, i);
    GuardedIsRun(c, run);
    CallInRun(c, run, k, i, p);
  }

  /** The calls are the proposals, in order, as far as they go. */
  lemma TraceFollowsProposals(c: Setup, run: seq<State>, k: nat, i: int)
    requires IsGuardedRun(c, run) && k < |run| && i in run[k].nodes
    ensures var trace := run[k].nodes[i].trace;
            && |trace| <= |run[k].proposals|
            && forall p :: 0 <= p < |trace| ==> trace[p] == Upcall(p + 1, run[k].proposals[p])
  {
    var trace := run[k].nodes[i].trace;
    forall p: nat | p < |trace|
      ensures p < |run[k].proposals| && trace[p] == Upcall(p + 1, run[k].proposals[p])
    {
      CallFollowsProposals(c, run, k, i, p);
    }
    if trace != [] {
      CallFollowsProposals(c, run, k, i, |trace| - 1);
    }
  }

  /** Two nodes' calls, at any two moments of a guarded run, agree as far as both go: one sequence is a
      prefix of the other. */
  lemma TracesComparable(c: Setup, run: seq<State>, k: nat, i: int, l: nat, j: int)
    requires IsGuardedRun(c, run) && k <= l < |run| && i in run[k].nodes && j in run[l].nodes
    ensures var a, b := run[k].nodes[i].trace, run[l].nodes[j].trace; a <= b || b <= a
  {
    TraceFollowsProposals(c, run, k, i);
    TraceFollowsProposals(c, run, l, j);
    GuardedIsRun(c, run);
    RunGrows(c, run, k, l);
  }
}
