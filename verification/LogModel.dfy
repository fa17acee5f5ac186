/** The replicated log as a value: entries, messages, and one function per operation of
    src/ccm/lr/ReplicatedLog.cpp. The class in ReplicatedLogClass.dfy is proved against these
    functions; LogTheory.dfy proves what they keep over whole runs. */
module LogModel {

  datatype Option<+T> = None | Some(value: T)

  datatype ClientMessage = ClientMessage(requestSeq: nat, clientId: nat, data: seq<nat>)

  datatype Entry = Entry(op: nat, view: nat, payload: ClientMessage, committed: bool, upcallDone: bool)

  /** The three kinds of log replication message. */
  datatype LrMsg =
    | Prepare(op: nat, view: nat, src: int, payload: ClientMessage)
    | PrepareOK(op: nat, view: nat, src: int, dst: int)
    | Commit(op: nat, view: nat, src: int)

  /** One call of the upcall callback. The callback receives only `msg`; `op` records which entry
      the call was made for. */
  datatype Upcall = Upcall(op: nat, msg: ClientMessage)

  /** Index of the first entry with number `op`, or the length of the log when there is none. */
  function FindEntry(log: seq<Entry>, op: nat): (i: nat)
    ensures i <= |log|
    ensures i < |log| ==> log[i].op == op
    ensures forall j :: 0 <= j < i ==> log[j].op != op
  {
    FindFrom(log, op, 0)
  }

  function FindFrom(log: seq<Entry>, op: nat, from: nat): (i: nat)
    requires from <= |log|
    ensures from <= i <= |log|
    ensures i < |log| ==> log[i].op == op
    ensures forall j :: from <= j < i ==> log[j].op != op
    decreases |log| - from
  {
    if from == |log| || log[from].op == op then from else FindFrom(log, op, from + 1)
  }

  predicate PreviousInLog(log: seq<Entry>, op: nat, view: nat) {
    op == 1 || (log != [] && op == log[|log| - 1].op + 1 && view >= log[|log| - 1].view)
  }

  predicate AlreadyIn(log: seq<Entry>, op: nat, view: nat) {
    var i := FindEntry(log, op);
    i < |log| && log[i].view == view
  }

  /** Every entry before the first one numbered `op` or more is committed. */
  predicate PreviousCommitted(log: seq<Entry>, op: nat) {
    PreviousCommittedFrom(log, op, 0)
  }

  predicate PreviousCommittedFrom(log: seq<Entry>, op: nat, from: nat)
    requires from <= |log|
    decreases |log| - from
  {
    from == |log| || log[from].op >= op || (log[from].committed && PreviousCommittedFrom(log, op, from + 1))
  }

  function NewEntry(op: nat, view: nat, payload: ClientMessage): Entry {
    Entry(op, view, payload, false, false)
  }

  function AddOrOverwrite(log: seq<Entry>, op: nat, view: nat, payload: ClientMessage): (seq<Entry>, bool) {
    var i := FindEntry(log, op);
    if i < |log| then
      if log[i].view < view then
        if !log[i].committed then (log[i := NewEntry(op, view, payload)], true) else (log, true)
      else (log, false)
    else (log + [NewEntry(op, view, payload)], true)
  }

  /** The log after a Prepare is offered to it, and whether it may be acknowledged. */
  function AddEntry(log: seq<Entry>, op: nat, view: nat, payload: ClientMessage): (seq<Entry>, bool) {
    if !PreviousInLog(log, op, view) then (log, false)
    else if AlreadyIn(log, op, view) then (log, true)
    else AddOrOverwrite(log, op, view, payload)
  }

  function CommitAt(log: seq<Entry>, i: nat): seq<Entry>
    requires i < |log|
  {
    log[i := log[i].(committed := true)]
  }

  function CommitEntry(log: seq<Entry>, op: nat, view: nat): (seq<Entry>, bool) {
    if AlreadyIn(log, op, view) && PreviousCommitted(log, op) then (CommitAt(log, FindEntry(log, op)), true)
    else (log, false)
  }

  function CommitUpTo(log: seq<Entry>, k: nat): (r: seq<Entry>)
    ensures |r| == |log|
    ensures forall i :: 0 <= i < |log| ==>
              r[i] == (if log[i].op <= k then log[i].(committed := true) else log[i])
  {
    seq(|log|, i requires 0 <= i < |log| => if log[i].op <= k then log[i].(committed := true) else log[i])
  }

  /** The largest number of a committed entry, 0 when none is committed. */
  function HighestCommitted(log: seq<Entry>): (h: nat)
    ensures forall i :: 0 <= i < |log| && log[i].committed ==> log[i].op <= h
    ensures h > 0 ==> exists i :: 0 <= i < |log| && log[i].committed && log[i].op == h
  {
    HighestCommittedTo(log, |log|)
  }

  function HighestCommittedTo(log: seq<Entry>, n: nat): (h: nat)
    requires n <= |log|
    ensures forall i :: 0 <= i < n && log[i].committed ==> log[i].op <= h
    ensures h > 0 ==> exists i :: 0 <= i < n && log[i].committed && log[i].op == h
  {
    if n == 0 then 0
    else
      var h := HighestCommittedTo(log, n - 1);
      if log[n - 1].op > h && log[n - 1].committed then log[n - 1].op else h
  }

  function LatestOp(log: seq<Entry>): nat {
    if log == [] then 0 else log[|log| - 1].op
  }

  predicate NeedsUpcall(e: Entry, force: bool) {
    e.committed && (!e.upcallDone || force)
  }

  /** The calls PerformUpcalls makes, in log order. */
  function UpcallsDue(log: seq<Entry>, force: bool): seq<Upcall> {
    UpcallsDueTo(log, |log|, force)
  }

  function UpcallsDueTo(log: seq<Entry>, n: nat, force: bool): seq<Upcall>
    requires n <= |log|
  {
    if n == 0 then []
    else
      UpcallsDueTo(log, n - 1, force) +
      (if NeedsUpcall(log[n - 1], force) then [Upcall(log[n - 1].op, log[n - 1].payload)] else [])
  }

  function MarkUpcalls(log: seq<Entry>, force: bool): (r: seq<Entry>)
    ensures |r| == |log|
    ensures forall i :: 0 <= i < |log| ==>
              r[i] == (if NeedsUpcall(log[i], force) then log[i].(upcallDone := true) else log[i])
  {
    seq(|log|, i requires 0 <= i < |log| =>
      if NeedsUpcall(log[i], force) then log[i].(upcallDone := true) else log[i])
  }

  /** A synchronised entry keeps everything but its upcall mark. */
  function Received(e: Entry): Entry {
    e.(upcallDone := false)
  }

  function MergeOne(log: seq<Entry>, e: Entry): seq<Entry> {
    if FindEntry(log, e.op) == |log| then log + [Received(e)] else log
  }

  /** The log after the entries of `batch` were offered to it in order (PopulateFromVector). */
  function Merge(log: seq<Entry>, batch: seq<Entry>): seq<Entry> {
    MergeTo(log, batch, |batch|)
  }

  function MergeTo(log: seq<Entry>, batch: seq<Entry>, n: nat): seq<Entry>
    requires n <= |batch|
  {
    if n == 0 then log else MergeOne(MergeTo(log, batch, n - 1), batch[n - 1])
  }

  // ----- messages of a log synchronisation -----

  /** A request for a log, or entry number `index` of the `total` entries of the sender's log. */
  datatype SyncMsg =
    | RequestLog(requester: int)
    | SyncEntry(sender: int, total: nat, index: nat, entry: Entry)

  /** The messages a node answers a request with: its log as it is at that moment. */
  function Snapshot(me: int, log: seq<Entry>): (s: seq<SyncMsg>)
    ensures |s| == |log|
    ensures forall i :: 0 <= i < |log| ==> s[i] == SyncEntry(me, |log|, i, log[i])
  {
    seq(|log|, i requires 0 <= i < |log| => SyncEntry(me, |log|, i, log[i]))
  }

  /** The entries carried by a vector of entry messages. */
  function EntriesOf(v: seq<SyncMsg>): (b: seq<Entry>)
    requires forall i :: 0 <= i < |v| ==> v[i].SyncEntry?
    ensures |b| == |v|
    ensures forall i :: 0 <= i < |v| ==> b[i] == v[i].entry
  {
    seq(|v|, i requires 0 <= i < |v| => v[i].entry)
  }

  // ----- the state of one log and the operations that change it -----

  datatype LogState = LogState(entries: seq<Entry>, trace: seq<Upcall>)

  datatype LogOp =
    | OpPrepare(op: nat, view: nat, payload: ClientMessage)
    | OpCommit(op: nat, view: nat)
    | OpCommitUpTo(k: nat)
    | OpMerge(batch: seq<Entry>)
    | OpUpcalls(force: bool)

  function Apply(st: LogState, o: LogOp): LogState {
    match o
    case OpPrepare(op, view, payload) => st.(entries := AddEntry(st.entries, op, view, payload).0)
    case OpCommit(op, view) => st.(entries := CommitEntry(st.entries, op, view).0)
    case OpCommitUpTo(k) => st.(entries := CommitUpTo(st.entries, k))
    case OpMerge(batch) => st.(entries := Merge(st.entries, batch))
    case OpUpcalls(force) =>
      LogState(MarkUpcalls(st.entries, force), st.trace + UpcallsDue(st.entries, force))
  }

  function Run(st: LogState, ops: seq<LogOp>): LogState
    decreases |ops|
  {
    if ops == [] then st else Run(Apply(st, ops[0]), ops[1..])
  }
}
