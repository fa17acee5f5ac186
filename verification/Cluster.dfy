/** All nodes together in the setting the replication code decides: one leader in one view. The
    network may lose, repeat and reorder everything: a message, once in its sender's `out`, can be
    delivered any number of times to anyone, or never. */
module Cluster {
  import opened LogModel
  import opened Membership
  import opened Replication
  import opened SyncReassembly

  datatype Setup = Setup(leader: int, view: nat)

  /** `rcvd` is what the node's sync manager has collected so far, `trace` the calls of its upcall
      callback. */
  datatype Node = Node(lr: LrState, rcvd: seq<SyncMsg>, trace: seq<Upcall>)

  /** `proposals` is the history of the requests the leader has proposed. */
  datatype State = State(nodes: map<int, Node>, heartbeats: set<Heartbeat>, syncs: set<SyncMsg>,
                         proposals: seq<ClientMessage>)

  datatype Step =
    | ProposeStep(req: ClientMessage)
    | Deliver(to: int, from: int, k: nat)
    | FollowerStart(i: int)
    | FollowerFinish(i: int, syncDue: bool)
    | SendHeartbeat(i: int)
    | HearHeartbeat(i: int, hb: Heartbeat)
    | ServeSync(i: int)
    | SyncArrives(i: int, msg: SyncMsg)
    | SyncGivenUp(i: int)
    | MakeUpcalls(i: int)

  function SetLr(s: State, i: int, lr: LrState): State
    requires i in s.nodes
  {
    s.(nodes := s.nodes[i := s.nodes[i].(lr := lr)])
  }

  ghost predicate AllEntries(v: seq<SyncMsg>) { forall i :: 0 <= i < |v| ==> v[i].SyncEntry? }

  /** What a sync manager does with one entry message: give up, merge, or keep collecting. */
  ghost function CollectOne(nd: Node, msg: SyncMsg): Node
    requires AllEntries(nd.rcvd) && msg.SyncEntry?
  {
    var p := Incoming(nd.rcvd, msg);
    if p.abort then nd.(rcvd := [])
    else if p.complete then nd.(lr := nd.lr.(log := Merge(nd.lr.log, EntriesOf(p.rcvd))), rcvd := [])
    else nd.(rcvd := p.rcvd)
  }

  function Upcalls(nd: Node): Node {
    nd.(lr := nd.lr.(log := MarkUpcalls(nd.lr.log, false)), trace := nd.trace + UpcallsDue(nd.lr.log, false))
  }

  function HeardBy(nd: Node, hb: Heartbeat): LrState {
    nd.lr.(t := ReceiveHeartbeat(nd.lr.t, nd.lr.me, hb))
  }

  ghost predicate Enabled(c: Setup, s: State, step: Step) {
    match step
    case ProposeStep(req) => c.leader in s.nodes
    case Deliver(to, from, k) => to in s.nodes && from in s.nodes && k < |s.nodes[from].lr.out|
    case FollowerStart(i) => i in s.nodes && i != c.leader
    case FollowerFinish(i, _) => i in s.nodes && i != c.leader
    case SendHeartbeat(i) => i in s.nodes
    case HearHeartbeat(i, hb) =>
      // nobody hears itself, and the leader stays in its view
      && i in s.nodes && hb in s.heartbeats && hb.sender != i
      && (i == c.leader ==> MyView(HeardBy(s.nodes[i], hb)) == c.view)
    case ServeSync(i) => i in s.nodes
    case SyncArrives(i, msg) => i in s.nodes && msg in s.syncs && msg.SyncEntry? && AllEntries(s.nodes[i].rcvd)
    case SyncGivenUp(i) => i in s.nodes
    case MakeUpcalls(i) => i in s.nodes
  }

  ghost function After(c: Setup, s: State, step: Step): State
    requires Enabled(c, s, step)
  {
    match step
    case ProposeStep(req) =>
      var (lr', ok) := Propose(s.nodes[c.leader].lr, req);
      SetLr(s, c.leader, lr').(proposals := if ok then s.proposals + [req] else s.proposals)
    case Deliver(to, from, k) =>
      var m := s.nodes[from].lr.out[k];
      SetLr(s, to, if to == c.leader then LeaderReceives(s.nodes[to].lr, m) else FollowerReceives(s.nodes[to].lr, m))
    case FollowerStart(i) => SetLr(s, i, FollowerBegin(s.nodes[i].lr))
    case FollowerFinish(i, syncDue) => SetLr(s, i, FollowerEnd(s.nodes[i].lr, syncDue))
    case SendHeartbeat(i) => s.(heartbeats := s.heartbeats + {MakeHeartbeat(s.nodes[i].lr.t, i)})
    case HearHeartbeat(i, hb) => SetLr(s, i, HeardBy(s.nodes[i], hb))
    case ServeSync(i) => s.(syncs := s.syncs + set m | m in Snapshot(i, s.nodes[i].lr.log))
    case SyncArrives(i, msg) => s.(nodes := s.nodes[i := CollectOne(s.nodes[i], msg)])
    case SyncGivenUp(i) => s.(nodes := s.nodes[i := s.nodes[i].(rcvd := [])])
    case MakeUpcalls(i) => s.(nodes := s.nodes[i := Upcalls(s.nodes[i])])
  }

  ghost predicate Next(c: Setup, s: State, s': State) {
    exists step :: Enabled(c, s, step) && s' == After(c, s, step)
  }

  ghost predicate InitNode(c: Setup, ids: set<int>, i: int, nd: Node) {
    && nd.lr.me == i && nd.lr.t.rows.Keys == ids
    && nd.lr.log == [] && nd.lr.ongoing == None && nd.lr.out == [] && nd.rcvd == [] && nd.trace == []
    && nd.lr.cb == None && nd.lr.accepted == 0 && nd.lr.fired == []
    && (forall id :: id in ids ==>
          var row := nd.lr.t.rows[id];
          row.committedOp == 0 && row.pendingOp == INVALID_REQ_ID && !row.okRcvd)
    && (i == c.leader ==> MyOp(nd.lr) == 0 && MyView(nd.lr) == c.view)
  }

  ghost predicate StepAt(c: Setup, run: seq<State>, k: nat) { k + 1 < |run| && Next(c, run[k], run[k + 1]) }

  /** Empty logs, nothing sent, nothing pending, and the leader among the nodes. */
  ghost predicate Init(c: Setup, s: State) {
    && c.leader in s.nodes
    && s.heartbeats == {} && s.syncs == {} && s.proposals == []
    && forall i {:trigger InitNode(c, s.nodes.Keys, i, s.nodes[i])} ::
         i in s.nodes ==> InitNode(c, s.nodes.Keys, i, s.nodes[i])
  }

  ghost predicate IsRun(c: Setup, run: seq<State>) {
    && run != [] && Init(c, run[0])
    && forall k: nat :: k + 1 < |run| ==> StepAt(c, run, k)
  }
}
