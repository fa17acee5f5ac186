/** What becomes of a request: it is completed exactly when enough members have answered it, and aborted
    exactly when the node leaves the role with it waiting. */
module RequestProgress {
  import opened LogModel
  import opened Membership
  import opened Quorum
  import opened Replication

  /** Request (view, op) is held, every member is asked for it, and fewer than n/2+1 have answered. */
  ghost predicate Pending(st: LrState, view: nat, op: nat) {
    && st.ongoing.Some? && |OkSet(st.t)| < |st.t.rows| / 2 + 1
    && forall id :: id in st.t.rows ==> st.t.rows[id].pendingView == view && st.t.rows[id].pendingOp == op
  }

  /** The members among the senders of PrepareOKs for exactly this view and number. A view or number of 0
      is nobody's. */
  function Answering(t: Table, msgs: seq<LrMsg>, view: nat, op: nat): set<int> {
    set m | m in msgs && m.PrepareOK? && m.view == view != 0 && m.op == op != 0 && m.src in t.rows :: m.src
  }

  /** A valid answer of a member, to what is pending at that member, marks it; it completes the request
      exactly when n/2+1 members are then marked, and otherwise does nothing else. */
  lemma AnswerActsExactly(st: LrState, op: nat, view: nat, src: int)
    requires src in st.t.rows && view != 0 && op != 0
    requires view == st.t.rows[src].pendingView && op == st.t.rows[src].pendingOp
    ensures var answered := (set id | id in st.t.rows && st.t.rows[id].okRcvd) + {src};
            var st' := OnPrepareOk(st, op, view, src);
            && OkSet(st'.t) == answered
            && if |answered| >= |st.t.rows| / 2 + 1 then
                 && st'.ongoing.None? && st'.cb.None? && st'.ongoingReq == RequestId(0, 0)
                 && st'.out == st.out + [Commit(op, view, st.me)]
                 && st'.fired
                    == st.fired + if st.cb.Some? then [Completion(st.cb.value, st.ongoingReq, Committed)] else []
               else st' == st.(t := st'.t)
  {
    var t' := MarkOk(st.t, src, view, op);
    assert t'.rows.Keys == st.t.rows.Keys;
    assert |t'.rows| == |t'.rows.Keys| && |st.t.rows| == |st.t.rows.Keys|;
    assert OkSet(t') == (set id | id in st.t.rows && st.t.rows[id].okRcvd) + {src};
  }

  /** Every other PrepareOK marks nobody. */
  lemma StrayAnswer(st: LrState, op: nat, view: nat, src: int)
    requires src !in st.t.rows || view == 0 || op == 0
             || view != st.t.rows[src].pendingView || op != st.t.rows[src].pendingOp
    ensures MarkOk(st.t, src, view, op) == st.t
  {
    if src in st.t.rows {
      assert st.t.rows[src := st.t.rows[src]] == st.t.rows;
    }
  }

  /** `m` was sent in between. */
  ghost predicate SentSince(out: seq<LrMsg>, out': seq<LrMsg>, m: LrMsg) { out <= out' && m in out'[|out|..] }

  lemma SentWithin(out: seq<LrMsg>, from: seq<LrMsg>, to: seq<LrMsg>, out': seq<LrMsg>, m: LrMsg)
    requires out <= from && SentSince(from, to, m) && to <= out'
    ensures SentSince(out, out', m)
  {
    var k :| 0 <= k < |to| - |from| && to[|from|..][k] == m;
    assert out'[|out|..][|from| - |out| + k] == m;
  }

  /** The request is completed: its slot and id are free, its Commit sent, a waiting callback told. */
  ghost predicate Completes(st: LrState, st': LrState, view: nat, op: nat) {
    && st'.ongoing.None? && st'.cb.None? && st'.ongoingReq == RequestId(0, 0)
    && SentSince(st.out, st'.out, Commit(op, view, st.me))
    && st'.fired == st.fired + if st.cb.Some? then [Completion(st.cb.value, st.ongoingReq, Committed)] else []
  }

  /** It is not, and nobody was told anything. */
  ghost predicate StillPending(st: LrState, st': LrState, view: nat, op: nat) {
    && Pending(st', view, op) && st.out <= st'.out
    && st'.fired == st.fired && st'.cb == st.cb && st'.ongoingReq == st.ongoingReq
  }

  lemma PendingAnswer(st: LrState, view: nat, op: nat, src: int)
    requires Pending(st, view, op) && src in st.t.rows && view != 0 && op != 0
    ensures var st' := OnPrepareOk(st, op, view, src);
            && OkSet(st'.t) == OkSet(st.t) + {src}
            && if |OkSet(st.t) + {src}| >= |st.t.rows| / 2 + 1 then Completes(st, st', view, op)
               else StillPending(st, st', view, op)
  {
    AnswerActsExactly(st, op, view, src);
    assert OkSet(st.t) == set id | id in st.t.rows && st.t.rows[id].okRcvd;
    var st' := OnPrepareOk(st, op, view, src);
    assert st'.t.rows.Keys == st.t.rows.Keys;
    assert |st'.t.rows| == |st'.t.rows.Keys| && |st.t.rows| == |st.t.rows.Keys|;
  }

  lemma PendingOther(st: LrState, view: nat, op: nat, m: LrMsg)
    requires Pending(st, view, op)
    requires m.PrepareOK? ==> m.src !in st.t.rows || m.view == 0 || m.op == 0 || m.view != view || m.op != op
    ensures var st' := LeaderReceives(st, m);
            st'.t == st.t && StillPending(st, st', view, op)
  {
    if m.PrepareOK? {
      StrayAnswer(st, m.op, m.view, m.src);
      assert !OkMajority(st.t);
    }
  }

  /** One message at a leader with a pending request. */
  lemma PendingStep(st: LrState, view: nat, op: nat, m: LrMsg)
    requires Pending(st, view, op)
    ensures var st' := LeaderReceives(st, m);
            var answered := OkSet(st.t) + Answering(st.t, [m], view, op);
            && st'.t.rows.Keys == st.t.rows.Keys && OkSet(st'.t) == answered && st'.me == st.me
            && if |answered| >= |st.t.rows| / 2 + 1 then Completes(st, st', view, op)
               else StillPending(st, st', view, op)
  {
    if m.PrepareOK? && m.src in st.t.rows && m.view == view != 0 && m.op == op != 0 {
      assert Answering(st.t, [m], view, op) == {m.src};
      PendingAnswer(st, view, op, m.src);
    } else {
      assert Answering(st.t, [m], view, op) == {};
      assert OkSet(st.t) + {} == OkSet(st.t);
      PendingOther(st, view, op, m);
    }
  }

  /** A completed request stays completed and is answered no more. */
  lemma {:induction false} CompletedStays(st: LrState, msgs: seq<LrMsg>)
    requires st.ongoing.None? && st.cb.None?
    ensures var st' := LeaderAll(st, msgs);
            && st'.ongoing.None? && st'.cb.None? && st'.fired == st.fired && st.out <= st'.out
            && (st.ongoingReq == NO_REQUEST ==> st'.ongoingReq == NO_REQUEST)
    decreases |msgs|
  {
    if msgs != [] {
      CompletedStays(LeaderReceives(st, msgs[0]), msgs[1..]);
    }
  }

  lemma AnsweringParts(t: Table, t': Table, msgs: seq<LrMsg>, view: nat, op: nat)
    requires msgs != [] && t'.rows.Keys == t.rows.Keys
    ensures Answering(t, msgs, view, op) == Answering(t, [msgs[0]], view, op) + Answering(t', msgs[1..], view, op)
  {
    var a, b := Answering(t, [msgs[0]], view, op), Answering(t', msgs[1..], view, op);
    forall id | id in Answering(t, msgs, view, op) ensures id in a + b {
      var m :| m in msgs && m.PrepareOK? && m.view == view != 0 && m.op == op != 0 && m.src == id;
      assert m == msgs[0] || m in msgs[1..];
      assert m == msgs[0] ==> m in [msgs[0]];
    }
  }

  /** Whatever messages a leader gets, in whatever order and however often: the request is completed, its
      Commit sent and a waiting callback told "committed" once, exactly when n/2+1 distinct members have
      answered it; until then nobody is told anything. */
  lemma {:induction false} CompletesExactly(st: LrState, view: nat, op: nat, msgs: seq<LrMsg>)
    requires Pending(st, view, op)
    ensures if |OkSet(st.t) + Answering(st.t, msgs, view, op)| >= |st.t.rows| / 2 + 1
            then Completes(st, LeaderAll(st, msgs), view, op)
            else StillPending(st, LeaderAll(st, msgs), view, op)
    decreases |msgs|
  {
    if msgs == [] {
      assert OkSet(st.t) + Answering(st.t, msgs, view, op) == OkSet(st.t);
    } else {
      var st1, rest := LeaderReceives(st, msgs[0]), msgs[1..];
      PendingStep(st, view, op, msgs[0]);
      AnsweringParts(st.t, st1.t, msgs, view, op);
      var later := OkSet(st1.t) + Answering(st1.t, rest, view, op);
      assert OkSet(st.t) + Answering(st.t, msgs, view, op) == later;
      assert |st1.t.rows.Keys| == |st.t.rows.Keys|;
      if |OkSet(st1.t)| >= |st.t.rows| / 2 + 1 {
        CompletedStays(st1, rest);
        SubsetSize(OkSet(st1.t), later);
        SentWithin(st.out, st.out, st1.out, LeaderAll(st1, rest).out, Commit(op, view, st.me));
      } else {
        CompletesExactly(st1, view, op, rest);
        if |later| >= |st.t.rows| / 2 + 1 {
          var out' := LeaderAll(st1, rest).out;
          SentWithin(st.out, st1.out, out', out', Commit(op, view, st.me));
        }
      }
    }
  }

  /** An accepted request is pending under the next number in the own view, its Prepare sent, its callback
      waiting. */
  lemma AcceptedIsPending(st: LrState, req: ClientMessage)
    requires st.ongoing.None? && st.me in st.t.rows
    ensures var (st', ok) := Propose(st, req);
            var view, op := st.t.rows[st.me].view, st.t.rows[st.me].op + 1;
            && ok && Pending(st', view, op) && OkSet(st'.t) == {}
            && st'.cb == Some(st.accepted) && st'.accepted == st.accepted + 1 && st'.ongoingReq == IdOf(req)
            && st'.out == st.out + [Prepare(op, view, st.me, req)] && st'.fired == st.fired
            && st'.t.rows.Keys == st.t.rows.Keys
  {
    var st' := Propose(st, req).0;
    assert forall id :: id in st'.t.rows ==> !st'.t.rows[id].okRcvd;
    assert OkSet(st'.t) == {};
  }

  /** From acceptance to completion: the client is told "committed" exactly when n/2+1 distinct members
      have answered PrepareOK for the request's view and number. A request accepted in view 0 is never
      completed. */
  lemma RequestCompletesExactly(st: LrState, req: ClientMessage, msgs: seq<LrMsg>)
    requires st.ongoing.None? && st.me in st.t.rows
    ensures var view, op := st.t.rows[st.me].view, st.t.rows[st.me].op + 1;
            var st' := LeaderAll(Propose(st, req).0, msgs);
            var told := Completion(st.accepted, IdOf(req), Committed);
            && (st'.fired == st.fired + [told] <==> |Answering(st.t, msgs, view, op)| >= |st.t.rows| / 2 + 1)
            && (st'.ongoing.None? <==> |Answering(st.t, msgs, view, op)| >= |st.t.rows| / 2 + 1)
            && (view == 0 ==> st'.ongoing.Some? && st'.fired == st.fired)
  {
    var view, op := st.t.rows[st.me].view, st.t.rows[st.me].op + 1;
    var st1 := Propose(st, req).0;
    AcceptedIsPending(st, req);
    CompletesExactly(st1, view, op, msgs);
    assert |st1.t.rows.Keys| == |st.t.rows.Keys|;
    assert OkSet(st1.t) + Answering(st1.t, msgs, view, op) == Answering(st.t, msgs, view, op);
    if view == 0 {
      assert Answering(st.t, msgs, view, op) == {};
    }
  }

  ghost predicate NothingPending(t: Table) {
    forall id :: id in t.rows ==> t.rows[id].pendingView == 0 && t.rows[id].pendingOp == 0 && !t.rows[id].okRcvd
  }

  /** Leaving the role answers a waiting request "aborted" with its own token and id, and nothing else; the
      request keeps its slot. */
  lemma LeavingAborts(st: LrState)
    ensures var st' := NoLongerLeader(st);
            && st'.fired == st.fired + (if st.cb.Some? then [Completion(st.cb.value, st.ongoingReq, Aborted)] else [])
            && st'.cb.None? && NothingPending(st'.t)
            && st' == st.(t := st'.t, cb := None, fired := st'.fired)
            && forall id :: id in st.t.rows ==>
                 id in st'.t.rows && st'.t.rows[id] == st.t.rows[id].(pendingView := 0, pendingOp := 0, okRcvd := false)
  {
  }

  /** Entering it forgets what was pending and changes nothing else. */
  lemma EnteringClears(st: LrState)
    ensures var st' := BecameLeader(st);
            && NothingPending(st'.t) && st' == st.(t := st'.t)
            && forall id :: id in st.t.rows ==>
                 id in st'.t.rows && st'.t.rows[id] == st.t.rows[id].(pendingView := 0, pendingOp := 0, okRcvd := false)
  {
  }
}
