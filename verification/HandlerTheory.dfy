/** What the handlers of src/ccm/lr/LR.cpp answer, said of the log, for every log numbered 1..n. */
module HandlerTheory {
  import opened LogModel
  import opened LogTheory
  import opened Membership
  import opened Replication

  /** The number a follower publishes at the start of its cycle is that of its last entry. */
  lemma FollowerPublishes(st: LrState)
    requires WellNumbered(st.log) && st.me in st.t.rows
    ensures LatestOp(st.log) == |st.log|
    ensures FollowerBegin(st) == st.(t := st.t.(rows := st.t.rows[st.me := st.t.rows[st.me].(op := |st.log|)]))
  {
  }

  /** A Prepare for number 1 that is acknowledged although the first entry stays. */
  ghost predicate RepeatsFirst(log: seq<Entry>, op: nat, view: nat) {
    op == 1 && log != [] && (log[0].view == view || (log[0].committed && log[0].view < view))
  }

  /** A Prepare not below the own view is acknowledged exactly when it extends the log, replaces an
      uncommitted first entry, or repeats number 1; it asks for a sync exactly when it is neither
      number 1 nor the next one. So a repeated Prepare of a number above 1 is not acknowledged again. The
      log gets the entry exactly in the first two cases. */
  lemma PrepareAnsweredExactly(st: LrState, op: nat, view: nat, src: int, payload: ClientMessage)
    requires WellNumbered(st.log)
    ensures var st' := OnPrepare(st, op, view, src, payload);
            && st'.out == st.out + (if MyView(st) <= view
                                       && (Appends(st.log, op, view) || ReplacesFirst(st.log, op, view)
                                           || RepeatsFirst(st.log, op, view))
                                    then [PrepareOK(op, view, st.me, src)] else [])
            && (st'.syncTriggered <==>
                st.syncTriggered || (MyView(st) <= view && op != 1 && !Appends(st.log, op, view)))
            && st'.log == (if MyView(st) > view then st.log
                           else if Appends(st.log, op, view) then st.log + [Entry(op, view, payload, false, false)]
                           else if ReplacesFirst(st.log, op, view) then
                             st.log[0 := Entry(op, view, payload, false, false)]
                           else st.log)
  {
    PrepareOutcome(st.log, op, view, payload);
  }

  /** An acknowledged number and view are in the log exactly when the Prepare did not meet a
      committed first entry of a lower view: that one is acknowledged without being stored. */
  lemma AcknowledgedIsHeldExactly(log: seq<Entry>, op: nat, view: nat, payload: ClientMessage)
    requires WellNumbered(log) && AddEntry(log, op, view, payload).1
    ensures AlreadyIn(AddEntry(log, op, view, payload).0, op, view) <==>
            !(op == 1 && log != [] && log[0].committed && log[0].view < view)
  {
    PrepareOutcome(log, op, view, payload);
    var log' := AddEntry(log, op, view, payload).0;
    assert WellNumbered(log');
    FindInShaped(log', op);
  }

  /** A Commit not below the own view moves the commit point exactly when the entry is held in that
      view and is at most the next uncommitted one, and asks for a sync exactly when it is not held. */
  lemma CommitHandledExactly(st: LrState, op: nat, view: nat)
    requires Shaped(st.log)
    ensures var st' := OnCommit(st, op, view);
            var held := 1 <= op <= |st.log| && st.log[op - 1].view == view;
            var c := HighestCommitted(st.log);
            && Shaped(st'.log) && |st'.log| == |st.log|
            && HighestCommitted(st'.log) == (if MyView(st) <= view && held && op <= c + 1 then Max(c, op) else c)
            && (st'.syncTriggered <==> st.syncTriggered || (MyView(st) <= view && !held))
  {
    CommitOutcome(st.log, op, view);
    FindInShaped(st.log, op);
  }

  /** A leader stores only its own Prepare, a follower anybody's: the log grows by the entry exactly when it
      is the next one, in a view not below the last entry's and the own. */
  lemma WhoseEntryIsStored(st: LrState, op: nat, view: nat, src: int, payload: ClientMessage)
    requires WellNumbered(st.log)
    ensures var m, next := Prepare(op, view, src, payload), Entry(op, view, payload, false, false);
            var stored := MyView(st) <= view && op == |st.log| + 1
                          && (st.log == [] || st.log[|st.log| - 1].view <= view);
            && (LeaderReceives(st, m).log == st.log + [next] <==> src == st.me && stored)
            && (src != st.me ==> LeaderReceives(st, m) == st)
            && (FollowerReceives(st, m).log == st.log + [next] <==> stored)
  {
    PrepareOutcome(st.log, op, view, payload);
    assert |st.log + [Entry(op, view, payload, false, false)]| == |st.log| + 1;
  }

  /** A leader commits only on its own Commit, a follower on anybody's: the commit point moves exactly when the
      entry is the next uncommitted one, held in that view, and the view is not below the own. A follower
      discards a PrepareOK. */
  lemma WhoseCommitCounts(st: LrState, op: nat, view: nat, src: int, dst: int)
    requires Shaped(st.log)
    ensures var c, m := HighestCommitted(st.log), Commit(op, view, src);
            var moves := MyView(st) <= view && op == c + 1 <= |st.log| && st.log[c].view == view;
            && HighestCommitted(LeaderReceives(st, m).log) == (if moves && src == st.me then c + 1 else c)
            && (src != st.me ==> LeaderReceives(st, m) == st)
            && HighestCommitted(FollowerReceives(st, m).log) == (if moves then c + 1 else c)
            && FollowerReceives(st, PrepareOK(op, view, src, dst)) == st
  {
    CommitHandledExactly(st, op, view);
  }

  /** From commit point `was`, the point is the largest of it and what members have told of, as far as n
      entries reach. */
  ghost predicate CommitPointTold(t: Table, n: nat, was: nat, c: nat) {
    && was <= c && (forall id :: id in t.rows ==> Min(t.rows[id].committedOp, n) <= c)
    && (c == was || exists id :: id in t.rows && Min(t.rows[id].committedOp, n) == c)
  }

  lemma LargestIsTold(t: Table, n: nat, was: nat)
    requires ValidTable(t)
    ensures CommitPointTold(t, n, was, Max(was, Min(LargestCommitted(t), n)))
  {
    LargestMeaning(t, (r: Member) => r.committedOp);
  }

  /** A follower's cycle ends with the commit point at what gossip allows, published as its own, and
      a sync asked for exactly when the delay is over and some member has told of a larger number. */
  lemma FollowerEndExactly(st: LrState, syncDue: bool)
    requires Shaped(st.log) && ValidTable(st.t) && st.me in st.t.rows
    ensures var st' := FollowerEnd(st, syncDue);
            var c := HighestCommitted(st'.log);
            && Shaped(st'.log)
            && CommitPointTold(st.t, |st.log|, HighestCommitted(st.log), c)
            && st'.t.rows[st.me].committedOp == c
            && (st'.syncTriggered <==>
                st.syncTriggered || (syncDue && exists id :: id in st.t.rows && st.t.rows[id].op > c))
  {
    CommitUpToOutcome(st.log, LargestCommitted(st.t));
    LargestIsTold(st.t, |st.log|, HighestCommitted(st.log));
    var c := HighestCommitted(CommitUpTo(st.log, LargestCommitted(st.t)));
    var t' := SetCommittedOp(st.t, st.me, c);
    LargestMeaning(t', (r: Member) => r.op);
    assert forall id :: id in st.t.rows ==> t'.rows[id].op == st.t.rows[id].op;
  }

  /** A leader takes requests only when no member has told of a number it does not hold. */
  lemma HasLatestMeaning(st: LrState)
    requires ValidTable(st.t)
    ensures HasLatestEntries(st) <==> forall id :: id in st.t.rows ==> st.t.rows[id].op <= LatestOp(st.log)
  {
  }
}
