/** What the log operations keep, for every log and over every run of operations. */
module LogTheory {
  import opened LogModel

  // ----- shape: numbers 1..n, committed prefix, commit point -----

  ghost predicate WellNumbered(log: seq<Entry>) {
    forall i :: 0 <= i < |log| ==> log[i].op == i + 1
  }

  /** Exactly the first c entries are committed. */
  ghost predicate CommittedTo(log: seq<Entry>, c: nat) {
    c <= |log| && forall i :: 0 <= i < |log| ==> (log[i].committed <==> i < c)
  }

  /** The committed entries are those up to the highest committed number. */
  ghost predicate CommittedIsPrefix(log: seq<Entry>) {
    CommittedTo(log, HighestCommitted(log))
  }

  ghost predicate Shaped(log: seq<Entry>) {
    WellNumbered(log) && CommittedIsPrefix(log)
  }

  function Min(a: nat, b: nat): nat { if a <= b then a else b }

  function Max(a: nat, b: nat): nat { if a <= b then b else a }

  lemma CommitPointUnique(log: seq<Entry>, c: nat)
    requires WellNumbered(log) && CommittedTo(log, c)
    ensures CommittedIsPrefix(log) && HighestCommitted(log) == c
  {
    var h := HighestCommitted(log);
    if h > 0 {
      var i :| 0 <= i < |log| && log[i].committed && log[i].op == h;
    }
    if c > 0 {
      assert log[c - 1].committed;
    }
  }

  /** The same thing said without the commit point: nothing uncommitted precedes a committed entry. */
  lemma PrefixMeaning(log: seq<Entry>)
    requires WellNumbered(log)
    ensures CommittedIsPrefix(log) <==> forall i, j :: 0 <= i < j < |log| && log[j].committed ==> log[i].committed
  {
  }

  lemma FindInShaped(log: seq<Entry>, op: nat)
    requires WellNumbered(log)
    ensures FindEntry(log, op) == if 1 <= op <= |log| then op - 1 else |log|
  {
    var i := FindEntry(log, op);
    if 1 <= op <= |log| {
      assert log[op - 1].op == op;
    }
  }

  /** The only three things an offered Prepare can do to a log numbered 1..n: nothing, append
      entry n+1, or replace an uncommitted first entry by one of a higher view. */
  ghost predicate Appends(log: seq<Entry>, op: nat, view: nat) {
    op == |log| + 1 && (log == [] || view >= log[|log| - 1].view)
  }

  ghost predicate ReplacesFirst(log: seq<Entry>, op: nat, view: nat) {
    op == 1 && log != [] && !log[0].committed && log[0].view < view
  }

  lemma PrepareOutcome(log: seq<Entry>, op: nat, view: nat, payload: ClientMessage)
    requires WellNumbered(log)
    ensures var log' := AddEntry(log, op, view, payload).0;
            && (Appends(log, op, view) ==> log' == log + [NewEntry(op, view, payload)])
            && (ReplacesFirst(log, op, view) ==> log' == log[0 := NewEntry(op, view, payload)])
            && (!Appends(log, op, view) && !ReplacesFirst(log, op, view) ==> log' == log)
    ensures AddEntry(log, op, view, payload).1 <==>
            (Appends(log, op, view) || ReplacesFirst(log, op, view)
             || (op == 1 && log != [] && (log[0].view == view || (log[0].committed && log[0].view < view))))
  {
  }

  lemma {:induction false} PreviousCommittedMeaning(log: seq<Entry>, op: nat, from: nat)
    requires WellNumbered(log) && from <= |log|
    ensures PreviousCommittedFrom(log, op, from) <==>
            forall i :: from <= i < |log| && log[i].op < op ==> log[i].committed
    decreases |log| - from
  {
    if from < |log| {
      PreviousCommittedMeaning(log, op, from + 1);
    }
  }

  /** A Commit moves the commit point from c to max(c, op), and only when entry `op` has that view
      and every earlier entry is committed. */
  lemma CommitOutcome(log: seq<Entry>, op: nat, view: nat)
    requires Shaped(log)
    ensures var (log', ok) := CommitEntry(log, op, view);
            && |log'| == |log| && Shaped(log')
            && (ok <==> 1 <= op <= |log| && op <= HighestCommitted(log) + 1 && log[op - 1].view == view)
            && HighestCommitted(log') == (if ok then Max(HighestCommitted(log), op) else HighestCommitted(log))
  {
    FindInShaped(log, op);
    PreviousCommittedMeaning(log, op, 0);
    var (log', ok) := CommitEntry(log, op, view);
    var c := HighestCommitted(log);
    if 1 <= op <= |log| && op > c + 1 {
      assert !log[c].committed && log[c].op < op;
    }
    CommitPointUnique(log', if ok then Max(c, op) else c);
  }

  /** CommittAllEarlierEntries(k) moves the commit point from c to max(c, min(k, n)). */
  lemma CommitUpToOutcome(log: seq<Entry>, k: nat)
    requires Shaped(log)
    ensures Shaped(CommitUpTo(log, k))
    ensures HighestCommitted(CommitUpTo(log, k)) == Max(HighestCommitted(log), Min(k, |log|))
  {
    CommitPointUnique(CommitUpTo(log, k), Max(HighestCommitted(log), Min(k, |log|)));
  }

  lemma MarkKeepsShape(log: seq<Entry>, force: bool)
    requires WellNumbered(log)
    ensures WellNumbered(MarkUpcalls(log, force))
    ensures Shaped(log) ==>
              Shaped(MarkUpcalls(log, force)) && HighestCommitted(MarkUpcalls(log, force)) == HighestCommitted(log)
  {
  }

  // ----- merging a synchronised log -----

  /** `r` is `log` followed by the entries n+1.. of the first m in `batch`, upcall marks cleared. */
  ghost predicate IsMerge(r: seq<Entry>, log: seq<Entry>, batch: seq<Entry>, m: nat)
    requires m <= |batch|
  {
    && |r| == Max(|log|, m)
    && (forall i :: 0 <= i < |log| ==> r[i] == log[i])
    && (forall i :: |log| <= i < |r| ==> r[i] == Received(batch[i]))
  }

  lemma MergeOneOutcome(log: seq<Entry>, e: Entry)
    requires WellNumbered(log) && 1 <= e.op <= |log| + 1
    ensures MergeOne(log, e) == if e.op <= |log| then log else log + [Received(e)]
  {
    FindInShaped(log, e.op);
  }

  lemma {:induction false} MergeToAppends(log: seq<Entry>, batch: seq<Entry>, m: nat)
    requires WellNumbered(log) && WellNumbered(batch) && m <= |batch|
    ensures IsMerge(MergeTo(log, batch, m), log, batch, m)
    ensures WellNumbered(MergeTo(log, batch, m))
  {
    if m > 0 {
      MergeToAppends(log, batch, m - 1);
      MergeOneOutcome(MergeTo(log, batch, m - 1), batch[m - 1]);
    }
  }

  /** Merging appends the part of the batch beyond the local log and changes nothing else. */
  lemma MergeAppends(log: seq<Entry>, batch: seq<Entry>)
    requires WellNumbered(log) && WellNumbered(batch)
    ensures IsMerge(Merge(log, batch), log, batch, |batch|)
    ensures WellNumbered(Merge(log, batch))
  {
    MergeToAppends(log, batch, |batch|);
  }

  /** A caller can check this before merging: the batch commits nothing the log lacks, or the log
      has committed everything it holds. */
  ghost predicate MergeGuard(log: seq<Entry>, batch: seq<Entry>) {
    HighestCommitted(batch) <= |log| || HighestCommitted(log) == |log|
  }

  /** Merging two shaped logs keeps every local entry, gives numbers 1..max(n, m), and leaves a
      committed prefix exactly under the guard. */
  lemma MergeOutcome(log: seq<Entry>, batch: seq<Entry>)
    requires Shaped(log) && Shaped(batch)
    ensures var log' := Merge(log, batch);
            && WellNumbered(log') && |log'| == Max(|log|, |batch|) && log <= log'
            && (CommittedIsPrefix(log') <==> MergeGuard(log, batch))
            && (MergeGuard(log, batch) ==>
                  HighestCommitted(log') == Max(HighestCommitted(log),
                    if HighestCommitted(batch) <= |log| then HighestCommitted(log) else HighestCommitted(batch)))
  {
    MergeAppends(log, batch);
    var log' := Merge(log, batch);
    var n, c, r := |log|, HighestCommitted(log), HighestCommitted(batch);
    if MergeGuard(log, batch) {
      CommitPointUnique(log', if r <= n then c else Max(c, r));
    } else {
      assert log'[r - 1] == Received(batch[r - 1]) && log'[r - 1].committed;
      assert log'[c] == log[c] && !log'[c].committed;
    }
  }

  /** Whatever was merged, one CommittAllEarlierEntries(GetHighestCommittedOpNumber()) makes the
      committed entries a prefix again, without moving the highest committed number. */
  lemma RepairAfterMerge(log: seq<Entry>)
    requires WellNumbered(log)
    ensures Shaped(CommitUpTo(log, HighestCommitted(log)))
    ensures HighestCommitted(CommitUpTo(log, HighestCommitted(log))) == HighestCommitted(log)
  {
  }

  // ----- runs: shape, history, views -----

  ghost predicate GuardedMerge(log: seq<Entry>, o: LogOp) {
    o.OpMerge? ==> Shaped(o.batch) && MergeGuard(log, o.batch)
  }

  lemma StepKeepsNumbers(st: LogState, o: LogOp)
    requires WellNumbered(st.entries)
    requires o.OpMerge? ==> WellNumbered(o.batch)
    ensures WellNumbered(Apply(st, o).entries) && |st.entries| <= |Apply(st, o).entries|
  {
    match o
    case OpPrepare(op, view, payload) => PrepareOutcome(st.entries, op, view, payload);
    case OpCommit(op, view) => FindInShaped(st.entries, op);
    case OpCommitUpTo(k) =>
    case OpMerge(batch) => MergeAppends(st.entries, batch);
    case OpUpcalls(force) =>
  }

  lemma PrepareKeepsShape(log: seq<Entry>, op: nat, view: nat, payload: ClientMessage)
    requires Shaped(log)
    ensures var log' := AddEntry(log, op, view, payload).0;
            Shaped(log') && HighestCommitted(log') == HighestCommitted(log)
  {
    PrepareOutcome(log, op, view, payload);
    CommitPointUnique(AddEntry(log, op, view, payload).0, HighestCommitted(log));
  }

  lemma StepKeepsShape(st: LogState, o: LogOp)
    requires Shaped(st.entries)
    requires GuardedMerge(st.entries, o)
    ensures Shaped(Apply(st, o).entries)
    ensures HighestCommitted(st.entries) <= HighestCommitted(Apply(st, o).entries)
  {
    match o
    case OpPrepare(op, view, payload) => PrepareKeepsShape(st.entries, op, view, payload);
    case OpCommit(op, view) => CommitOutcome(st.entries, op, view);
    case OpCommitUpTo(k) => CommitUpToOutcome(st.entries, k);
    case OpMerge(batch) => MergeOutcome(st.entries, batch);
    case OpUpcalls(force) => MarkKeepsShape(st.entries, force);
  }

  ghost predicate RunAll(st: LogState, ops: seq<LogOp>, guard: (seq<Entry>, LogOp) -> bool)
    decreases |ops|
  {
    ops == [] || (guard(st.entries, ops[0]) && RunAll(Apply(st, ops[0]), ops[1..], guard))
  }

  /** Every run whose merges pass the guard ends in a shaped log. */
  lemma {:induction false} RunKeepsShape(st: LogState, ops: seq<LogOp>)
    requires Shaped(st.entries)
    requires RunAll(st, ops, GuardedMerge)
    ensures Shaped(Run(st, ops).entries)
    ensures HighestCommitted(st.entries) <= HighestCommitted(Run(st, ops).entries)
    decreases |ops|
  {
    if ops != [] {
      StepKeepsShape(st, ops[0]);
      RunKeepsShape(Apply(st, ops[0]), ops[1..]);
    }
  }

  ghost predicate Same(e: Entry, f: Entry) {
    e.op == f.op && e.view == f.view && e.payload == f.payload
  }

  /** `later` keeps the history of `log`: entries from number 2 on and committed entries are the
      same for ever, committed stays committed, and an uncommitted first entry is only ever replaced
      by one of a higher view. */
  ghost predicate Extends(log: seq<Entry>, later: seq<Entry>) {
    && |log| <= |later|
    && (forall i :: 0 <= i < |log| && (i >= 1 || log[i].committed) ==> Same(log[i], later[i]))
    && (forall i :: 0 <= i < |log| && log[i].committed ==> later[i].committed)
    && (log != [] ==> Same(log[0], later[0]) || (!log[0].committed && log[0].view < later[0].view))
  }

  lemma StepExtends(st: LogState, o: LogOp)
    requires WellNumbered(st.entries)
    requires o.OpMerge? ==> WellNumbered(o.batch)
    ensures Extends(st.entries, Apply(st, o).entries)
  {
    StepKeepsNumbers(st, o);
    match o
    case OpPrepare(op, view, payload) => PrepareOutcome(st.entries, op, view, payload);
    case OpCommit(op, view) =>
    case OpCommitUpTo(k) =>
    case OpMerge(batch) => MergeAppends(st.entries, batch);
    case OpUpcalls(force) =>
  }

  ghost predicate NumberedMerge(log: seq<Entry>, o: LogOp) {
    o.OpMerge? ==> WellNumbered(o.batch)
  }

  /** Append-only history, over every run and with no guard on merges but numbering. */
  lemma {:induction false} RunExtends(st: LogState, ops: seq<LogOp>)
    requires WellNumbered(st.entries)
    requires RunAll(st, ops, NumberedMerge)
    ensures WellNumbered(Run(st, ops).entries)
    ensures Extends(st.entries, Run(st, ops).entries)
    decreases |ops|
  {
    if ops != [] {
      StepKeepsNumbers(st, ops[0]);
      StepExtends(st, ops[0]);
      RunExtends(Apply(st, ops[0]), ops[1..]);
    }
  }

  ghost predicate ViewsAscend(log: seq<Entry>) {
    forall i, j :: 0 <= i < j < |log| ==> log[i].view <= log[j].view
  }

  /** A caller can check this before the operation: it does not replace the first entry by one whose
      view exceeds the second entry's, and a merged tail does not start below the last local view. */
  ghost predicate ViewGuard(log: seq<Entry>, o: LogOp) {
    && NumberedMerge(log, o)
    && (o.OpPrepare? && ReplacesFirst(log, o.op, o.view) ==> |log| == 1 || o.view <= log[1].view)
    && (o.OpMerge? ==> ViewsAscend(o.batch)
                       && (log == [] || |o.batch| <= |log| || log[|log| - 1].view <= o.batch[|log|].view))
  }

  /** Views stay in order across one operation exactly under the guard. */
  lemma StepViewsExactly(st: LogState, o: LogOp)
    requires WellNumbered(st.entries) && ViewsAscend(st.entries)
    requires o.OpMerge? ==> WellNumbered(o.batch) && ViewsAscend(o.batch)
    ensures ViewsAscend(Apply(st, o).entries) <==> ViewGuard(st.entries, o)
  {
    var log := st.entries;
    match o
    case OpPrepare(op, view, payload) =>
      PrepareOutcome(log, op, view, payload);
      var log' := Apply(st, o).entries;
      if !ViewGuard(log, o) {
        assert log'[0].view > log'[1].view;
      }
    case OpCommit(op, view) =>
    case OpCommitUpTo(k) =>
    case OpMerge(batch) =>
      MergeAppends(log, batch);
      var log' := Merge(log, batch);
      if !ViewGuard(log, o) {
        assert log'[|log| - 1].view > log'[|log|].view;
      }
    case OpUpcalls(force) =>
  }

  lemma {:induction false} RunKeepsViews(st: LogState, ops: seq<LogOp>)
    requires WellNumbered(st.entries) && ViewsAscend(st.entries)
    requires RunAll(st, ops, ViewGuard)
    ensures ViewsAscend(Run(st, ops).entries)
    decreases |ops|
  {
    if ops != [] {
      StepKeepsNumbers(st, ops[0]);
      StepViewsExactly(st, ops[0]);
      RunKeepsViews(Apply(st, ops[0]), ops[1..]);
    }
  }

  // ----- upcalls -----

  /** With commit point c, the callback has been called for entries 1..u in order, once each, u is
      at most c, and the upcall marks are exactly on those entries. */
  ghost predicate DeliveredTo(log: seq<Entry>, trace: seq<Upcall>, c: nat) {
    && WellNumbered(log) && CommittedTo(log, c)
    && |trace| <= c
    && (forall i :: 0 <= i < |trace| ==> trace[i] == Upcall(i + 1, log[i].payload))
    && (forall i :: 0 <= i < |log| ==> (log[i].upcallDone <==> i < |trace|))
  }

  ghost predicate DeliveredInOrder(st: LogState) {
    DeliveredTo(st.entries, st.trace, HighestCommitted(st.entries))
  }

  lemma DeliveredIntro(st: LogState, c: nat)
    requires DeliveredTo(st.entries, st.trace, c)
    ensures DeliveredInOrder(st) && HighestCommitted(st.entries) == c
  {
    CommitPointUnique(st.entries, c);
  }

  /** When exactly the entries lo+1..hi need a call, those calls are made, in order. */
  lemma {:induction false} DueInOrder(log: seq<Entry>, n: nat, lo: nat, hi: nat)
    requires WellNumbered(log)
    requires lo <= hi <= |log| && n <= |log|
    requires forall i :: 0 <= i < |log| ==> (NeedsUpcall(log[i], false) <==> lo <= i < hi)
    ensures var due := UpcallsDueTo(log, n, false);
            && |due| == (if n <= lo then 0 else Min(n, hi) - lo)
            && (forall i :: 0 <= i < |due| ==> due[i] == Upcall(lo + i + 1, log[lo + i].payload))
  {
    if n > 0 {
      DueInOrder(log, n - 1, lo, hi);
    }
  }

  lemma MarksCatchUp(log: seq<Entry>, u: nat, c: nat)
    requires WellNumbered(log) && CommittedTo(log, c) && u <= c
    requires forall i :: 0 <= i < |log| ==> (log[i].upcallDone <==> i < u)
    ensures var log' := MarkUpcalls(log, false);
            && WellNumbered(log') && CommittedTo(log', c)
            && forall i :: 0 <= i < |log| ==> log'[i].payload == log[i].payload && (log'[i].upcallDone <==> i < c)
  {
  }

  lemma CallsCatchUp(log: seq<Entry>, log': seq<Entry>, trace: seq<Upcall>, due: seq<Upcall>, c: nat)
    requires DeliveredTo(log, trace, c) && |trace| + |due| == c && |log'| == |log|
    requires forall i :: 0 <= i < |due| ==> due[i] == Upcall(|trace| + i + 1, log[|trace| + i].payload)
    requires WellNumbered(log') && CommittedTo(log', c)
    requires forall i :: 0 <= i < |log| ==> log'[i].payload == log[i].payload && (log'[i].upcallDone <==> i < c)
    ensures DeliveredTo(log', trace + due, c)
  {
  }

  lemma DueCatchesUp(log: seq<Entry>, trace: seq<Upcall>, c: nat)
    requires DeliveredTo(log, trace, c)
    ensures var due := UpcallsDue(log, false);
            && |trace| + |due| == c
            && forall i :: 0 <= i < |due| ==> due[i] == Upcall(|trace| + i + 1, log[|trace| + i].payload)
  {
    DueInOrder(log, |log|, |trace|, c);
  }

  lemma CatchUp(log: seq<Entry>, trace: seq<Upcall>, c: nat)
    requires DeliveredTo(log, trace, c)
    ensures DeliveredTo(MarkUpcalls(log, false), trace + UpcallsDue(log, false), c)
    ensures |trace + UpcallsDue(log, false)| == c
  {
    MarksCatchUp(log, |trace|, c);
    DueCatchesUp(log, trace, c);
    CallsCatchUp(log, MarkUpcalls(log, false), trace, UpcallsDue(log, false), c);
  }

  /** PerformUpcalls(false) calls exactly for the committed entries not yet delivered. */
  lemma UpcallsCatchUp(st: LogState)
    requires DeliveredInOrder(st)
    ensures var st' := Apply(st, OpUpcalls(false));
            && DeliveredInOrder(st')
            && |st'.trace| == HighestCommitted(st'.entries) == HighestCommitted(st.entries)
            && st.trace <= st'.trace
  {
    var c := HighestCommitted(st.entries);
    CatchUp(st.entries, st.trace, c);
    DeliveredIntro(Apply(st, OpUpcalls(false)), c);
  }

  ghost predicate InOrderGuard(log: seq<Entry>, o: LogOp) {
    GuardedMerge(log, o) && o != OpUpcalls(true)
  }

  /** Delivery survives any change that only adds entries, commits, and replaces an uncommitted first
      entry: what has been delivered is committed, hence untouched. */
  lemma DeliveredSurvives(log: seq<Entry>, log': seq<Entry>, trace: seq<Upcall>, c: nat, c': nat)
    requires DeliveredTo(log, trace, c) && c <= c'
    requires WellNumbered(log') && CommittedTo(log', c') && |log| <= |log'|
    requires forall i :: 0 <= i < |log| && log[i].committed ==>
                           log'[i].payload == log[i].payload && log'[i].upcallDone == log[i].upcallDone
    requires forall i :: 0 <= i < |log'| && (i >= |log| || !log[i].committed) ==> !log'[i].upcallDone
    ensures DeliveredTo(log', trace, c')
  {
  }

  lemma MarksAfterStep(st: LogState, o: LogOp)
    requires DeliveredInOrder(st) && GuardedMerge(st.entries, o) && !o.OpUpcalls?
    ensures var log, log' := st.entries, Apply(st, o).entries;
            && |log| <= |log'|
            && (forall i :: 0 <= i < |log| && log[i].committed ==>
                  log'[i].payload == log[i].payload && log'[i].upcallDone == log[i].upcallDone)
            && (forall i :: 0 <= i < |log'| && (i >= |log| || !log[i].committed) ==> !log'[i].upcallDone)
  {
    match o
    case OpPrepare(op, view, payload) => PrepareOutcome(st.entries, op, view, payload);
    case OpCommit(op, view) => FindInShaped(st.entries, op);
    case OpCommitUpTo(k) =>
    case OpMerge(batch) => MergeAppends(st.entries, batch);
  }

  lemma StepDelivers(st: LogState, o: LogOp)
    requires DeliveredInOrder(st) && InOrderGuard(st.entries, o)
    ensures DeliveredInOrder(Apply(st, o)) && st.trace <= Apply(st, o).trace
  {
    if o.OpUpcalls? {
      UpcallsCatchUp(st);
    } else {
      var st' := Apply(st, o);
      StepKeepsShape(st, o);
      MarksAfterStep(st, o);
      DeliveredSurvives(st.entries, st'.entries, st.trace,
                        HighestCommitted(st.entries), HighestCommitted(st'.entries));
    }
  }

  /** Over every run whose merges pass the guard and that never forces upcalls, delivery is in order
      and once each, a prefix of the committed entries. */
  lemma {:induction false} RunDelivers(st: LogState, ops: seq<LogOp>)
    requires DeliveredInOrder(st)
    requires RunAll(st, ops, InOrderGuard)
    ensures DeliveredInOrder(Run(st, ops)) && st.trace <= Run(st, ops).trace
    decreases |ops|
  {
    if ops != [] {
      StepDelivers(st, ops[0]);
      RunDelivers(Apply(st, ops[0]), ops[1..]);
    }
  }

  ghost predicate TraceInOrder(trace: seq<Upcall>) {
    forall i :: 0 <= i < |trace| ==> trace[i].op == i + 1
  }

  lemma {:induction false} DueWithGap(log: seq<Entry>, k: nat, u: nat, c: nat, n: nat, r: nat)
    requires u <= c < n < r <= |log| && k <= |log| && WellNumbered(log)
    requires forall i :: 0 <= i < |log| ==> (NeedsUpcall(log[i], false) <==> u <= i < c || n <= i < r)
    ensures var due := UpcallsDueTo(log, k, false);
            && |due| == (if k <= u then 0 else if k <= c then k - u
                         else if k <= n then c - u else c - u + Min(k, r) - n)
            && (k > n ==> due[c - u].op == n + 1)
  {
    if k > 0 {
      DueWithGap(log, k - 1, u, c, n, r);
    }
  }

  /** After a merge outside the guard the calls due are those still missing and, past uncommitted
      entries, those of the committed part that came with the batch. */
  lemma UnguardedMergeNeeds(st: LogState, batch: seq<Entry>)
    requires DeliveredInOrder(st) && Shaped(batch) && !MergeGuard(st.entries, batch)
    ensures var log := Merge(st.entries, batch);
            var u, c, n, r := |st.trace|, HighestCommitted(st.entries), |st.entries|, HighestCommitted(batch);
            && WellNumbered(log) && u <= c < n < r <= |log|
            && forall i :: 0 <= i < |log| ==> (NeedsUpcall(log[i], false) <==> u <= i < c || n <= i < r)
  {
    MergeAppends(st.entries, batch);
  }

  lemma UnguardedMergeSkips(st: LogState, batch: seq<Entry>)
    requires DeliveredInOrder(st) && Shaped(batch) && !MergeGuard(st.entries, batch)
    ensures !TraceInOrder(Apply(Apply(st, OpMerge(batch)), OpUpcalls(false)).trace)
  {
    var log, due := Merge(st.entries, batch), UpcallsDue(Merge(st.entries, batch), false);
    var u, c := |st.trace|, HighestCommitted(st.entries);
    UnguardedMergeNeeds(st, batch);
    DueWithGap(log, |log|, u, c, |st.entries|, HighestCommitted(batch));
    assert (st.trace + due)[c] == due[c - u];
  }

  /** The guard is exact: PerformUpcalls after a merge keeps the order of calls if and only if the
      merge passed it. */
  lemma MergeThenUpcallsExactly(st: LogState, batch: seq<Entry>)
    requires DeliveredInOrder(st) && Shaped(batch)
    ensures TraceInOrder(Apply(Apply(st, OpMerge(batch)), OpUpcalls(false)).trace)
            <==> MergeGuard(st.entries, batch)
  {
    if MergeGuard(st.entries, batch) {
      StepDelivers(st, OpMerge(batch));
      UpcallsCatchUp(Apply(st, OpMerge(batch)));
    } else {
      UnguardedMergeSkips(st, batch);
    }
  }

  /** A log of two entries, nothing committed, that is sent a fully committed log of three. */
  lemma UnguardedMergeExample(p: ClientMessage)
    ensures var e := (op: nat, c: bool) => Entry(op, 1, p, c, false);
            var st := LogState([e(1, false), e(2, false)], []);
            var batch := [e(1, true), e(2, true), e(3, true)];
            && DeliveredInOrder(st) && Shaped(batch)
            && !TraceInOrder(Apply(Apply(st, OpMerge(batch)), OpUpcalls(false)).trace)
  {
    var e := (op: nat, c: bool) => Entry(op, 1, p, c, false);
    var st := LogState([e(1, false), e(2, false)], []);
    var batch := [e(1, true), e(2, true), e(3, true)];
    CommitPointUnique(st.entries, 0);
    CommitPointUnique(batch, 3);
    UnguardedMergeSkips(st, batch);
  }

  /** The same from the empty log a node starts with: at every point of such a run the next
      PerformUpcalls(false) leaves exactly the committed payloads delivered, in op order. */
  lemma DeliveryFromEmpty(ops: seq<LogOp>)
    requires RunAll(LogState([], []), ops, InOrderGuard)
    ensures var st := Run(LogState([], []), ops);
            var st' := Apply(st, OpUpcalls(false));
            && Shaped(st.entries)
            && st.trace <= st'.trace
            && |st'.trace| == HighestCommitted(st.entries) <= |st.entries|
            && forall i :: 0 <= i < |st'.trace| ==> st'.trace[i] == Upcall(i + 1, st.entries[i].payload)
  {
    RunDelivers(LogState([], []), ops);
    UpcallsCatchUp(Run(LogState([], []), ops));
  }

  // ----- at most once, with no guard on merges -----

  /** Entry `op` is among the calls. */
  ghost predicate Called(trace: seq<Upcall>, op: nat) {
    exists t :: 0 <= t < |trace| && trace[t].op == op
  }

  ghost predicate NoRepeats(trace: seq<Upcall>) {
    forall i, j :: 0 <= i < j < |trace| ==> trace[i].op != trace[j].op
  }

  /** Call `u` was made for the payload of an entry of the log. */
  ghost predicate CallMatches(log: seq<Entry>, u: Upcall) {
    1 <= u.op <= |log| && log[u.op - 1].upcallDone && log[u.op - 1].payload == u.msg
  }

  /** The marks say exactly which entries the callback was called for, and no entry was called for
      twice. */
  ghost predicate DeliveredOnce(st: LogState) {
    && WellNumbered(st.entries)
    && NoRepeats(st.trace)
    && (forall t :: 0 <= t < |st.trace| ==> CallMatches(st.entries, st.trace[t]))
    && (forall i :: 0 <= i < |st.entries| && st.entries[i].upcallDone ==>
          st.entries[i].committed && Called(st.trace, i + 1))
  }

  lemma {:induction false} DueOnce(log: seq<Entry>, n: nat)
    requires WellNumbered(log) && n <= |log|
    ensures var due := UpcallsDueTo(log, n, false);
            && NoRepeats(due)
            && (forall t :: 0 <= t < |due| ==>
                  && 1 <= due[t].op <= n
                  && NeedsUpcall(log[due[t].op - 1], false)
                  && due[t].msg == log[due[t].op - 1].payload)
  {
    if n > 0 {
      DueOnce(log, n - 1);
    }
  }

  lemma {:induction false} DueComplete(log: seq<Entry>, n: nat, i: nat)
    requires WellNumbered(log) && i < n <= |log| && NeedsUpcall(log[i], false)
    ensures Called(UpcallsDueTo(log, n, false), i + 1)
  {
    var due := UpcallsDueTo(log, n, false);
    if i == n - 1 {
      assert due[|due| - 1].op == i + 1;
    } else {
      DueComplete(log, n - 1, i);
      var before := UpcallsDueTo(log, n - 1, false);
      var t :| 0 <= t < |before| && before[t].op == i + 1;
      assert due[t].op == i + 1;
    }
  }

  lemma CalledAppend(a: seq<Upcall>, b: seq<Upcall>, op: nat)
    ensures Called(a + b, op) <==> Called(a, op) || Called(b, op)
  {
    if Called(a, op) {
      var t :| 0 <= t < |a| && a[t].op == op;
      assert (a + b)[t].op == op;
    }
    if Called(b, op) {
      var t :| 0 <= t < |b| && b[t].op == op;
      assert (a + b)[|a| + t].op == op;
    }
  }

  lemma NoRepeatsAppend(a: seq<Upcall>, b: seq<Upcall>)
    requires NoRepeats(a) && NoRepeats(b)
    requires forall i, j :: 0 <= i < |a| && 0 <= j < |b| ==> a[i].op != b[j].op
    ensures NoRepeats(a + b)
  {
  }

  lemma CallsMatchAfterUpcalls(log: seq<Entry>, trace: seq<Upcall>)
    requires WellNumbered(log)
    requires forall t :: 0 <= t < |trace| ==> CallMatches(log, trace[t])
    ensures var trace' := trace + UpcallsDue(log, false);
            forall t :: 0 <= t < |trace'| ==> CallMatches(MarkUpcalls(log, false), trace'[t])
  {
    DueOnce(log, |log|);
    var due := UpcallsDue(log, false);
    forall t | 0 <= t < |trace + due| ensures CallMatches(MarkUpcalls(log, false), (trace + due)[t]) {
      if t >= |trace| {
        assert (trace + due)[t] == due[t - |trace|];
      }
    }
  }

  /** After PerformUpcalls(false) the delivered entries are exactly the committed ones. */
  lemma UpcallsDeliverOnce(st: LogState)
    requires DeliveredOnce(st)
    ensures DeliveredOnce(Apply(st, OpUpcalls(false)))
    ensures var st' := Apply(st, OpUpcalls(false));
            forall i :: 0 <= i < |st'.entries| ==> (st'.entries[i].upcallDone <==> st'.entries[i].committed)
  {
    var log, due := st.entries, UpcallsDue(st.entries, false);
    var st' := Apply(st, OpUpcalls(false));
    CallsMatchAfterUpcalls(log, st.trace);
    assert NoRepeats(st'.trace) by {
      DueOnce(log, |log|);
      forall i, j | 0 <= i < |st.trace| && 0 <= j < |due| ensures st.trace[i].op != due[j].op {
        assert CallMatches(log, st.trace[i]);
      }
      NoRepeatsAppend(st.trace, due);
    }
    forall i | 0 <= i < |log| && st'.entries[i].upcallDone
      ensures st'.entries[i].committed && Called(st'.trace, i + 1)
    {
      CalledAppend(st.trace, due, i + 1);
      if !log[i].upcallDone {
        DueComplete(log, |log|, i);
      }
    }
  }

  ghost predicate OnceGuard(log: seq<Entry>, o: LogOp) {
    NumberedMerge(log, o) && o != OpUpcalls(true)
  }

  lemma MarksKept(st: LogState, o: LogOp)
    requires DeliveredOnce(st) && NumberedMerge(st.entries, o) && !o.OpUpcalls?
    ensures var log, log' := st.entries, Apply(st, o).entries;
            && |log| <= |log'|
            && (forall i :: 0 <= i < |log| && log[i].upcallDone ==>
                  log'[i].upcallDone && log'[i].payload == log[i].payload)
            && (forall i :: 0 <= i < |log'| && log'[i].upcallDone ==>
                  i < |log| && log[i].upcallDone && log'[i].committed)
  {
    match o
    case OpPrepare(op, view, payload) => PrepareOutcome(st.entries, op, view, payload);
    case OpCommit(op, view) => FindInShaped(st.entries, op);
    case OpCommitUpTo(k) =>
    case OpMerge(batch) => MergeAppends(st.entries, batch);
  }

  lemma StepDeliversOnce(st: LogState, o: LogOp)
    requires DeliveredOnce(st) && OnceGuard(st.entries, o)
    ensures DeliveredOnce(Apply(st, o))
  {
    if o.OpUpcalls? {
      UpcallsDeliverOnce(st);
    } else {
      StepKeepsNumbers(st, o);
      MarksKept(st, o);
      forall t | 0 <= t < |st.trace| ensures CallMatches(Apply(st, o).entries, st.trace[t]) {
        assert CallMatches(st.entries, st.trace[t]);
      }
    }
  }

  /** No entry is delivered twice, whatever is merged; and after PerformUpcalls every committed entry
      has been delivered. */
  lemma {:induction false} RunDeliversOnce(st: LogState, ops: seq<LogOp>)
    requires DeliveredOnce(st)
    requires RunAll(st, ops, OnceGuard)
    ensures DeliveredOnce(Run(st, ops))
    decreases |ops|
  {
    if ops != [] {
      StepDeliversOnce(st, ops[0]);
      RunDeliversOnce(Apply(st, ops[0]), ops[1..]);
    }
  }
}
