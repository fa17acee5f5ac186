/** Putting a synchronised log together from single messages (src/ccm/lr/SyncManager.cpp:140-240). */
module SyncReassembly {
  import opened LogModel
  import opened ReplicatedLogClass

  /** What HandleIncomingSyncMsg leaves behind. */
  datatype Progress = Progress(rcvd: seq<SyncMsg>, complete: bool, abort: bool)

  function NextIndex(rcvd: seq<SyncMsg>): nat
    requires forall i :: 0 <= i < |rcvd| ==> rcvd[i].SyncEntry?
  {
    if rcvd == [] then 0 else rcvd[|rcvd| - 1].index + 1
  }

  function Incoming(rcvd: seq<SyncMsg>, msg: SyncMsg): (p: Progress)
    requires forall i :: 0 <= i < |rcvd| ==> rcvd[i].SyncEntry?
    requires msg.SyncEntry?
    ensures forall i :: 0 <= i < |p.rcvd| ==> p.rcvd[i].SyncEntry?
  {
    if msg.index != NextIndex(rcvd) then Progress(rcvd, false, true)
    else if msg.index >= msg.total then Progress(rcvd, false, true)
    else Progress(rcvd + [msg], |rcvd| + 1 == msg.total, false)
  }

  /** One attempt to receive: a message, or nothing and whether the wait is over by then. */
  datatype Reception = Got(msg: SyncMsg) | Nothing(waitOver: bool)

  datatype Outcome = Completed(v: seq<SyncMsg>) | AbortedSync | TimedOut

  /** The waiting loop; when the receptions run out, the wait is over. */
  function Collect(rcvd: seq<SyncMsg>, receptions: seq<Reception>): (o: Outcome)
    requires forall i :: 0 <= i < |rcvd| ==> rcvd[i].SyncEntry?
    ensures o.Completed? ==> forall i :: 0 <= i < |o.v| ==> o.v[i].SyncEntry?
    decreases |receptions|
  {
    if receptions == [] then TimedOut
    else
      match receptions[0]
      case Nothing(waitOver) => if waitOver then TimedOut else Collect(rcvd, receptions[1..])
      case Got(RequestLog(_)) => Collect(rcvd, receptions[1..])
      case Got(SyncEntry(sender, total, index, entry)) =>
        var p := Incoming(rcvd, receptions[0].msg);
        if p.abort then AbortedSync
        else if p.complete then Completed(p.rcvd)
        else Collect(p.rcvd, receptions[1..])
  }

  /** The entry messages received before the wait is over. */
  function HeardEntries(receptions: seq<Reception>): (heard: seq<SyncMsg>)
    ensures forall i :: 0 <= i < |heard| ==> heard[i].SyncEntry?
    decreases |receptions|
  {
    if receptions == [] || receptions[0] == Nothing(true) then []
    else if receptions[0].Got? && receptions[0].msg.SyncEntry? then
      [receptions[0].msg] + HeardEntries(receptions[1..])
    else HeardEntries(receptions[1..])
  }

  ghost predicate DrawnFrom(receptions: seq<Reception>, s: seq<SyncMsg>) {
    forall i :: 0 <= i < |receptions| && receptions[i].Got? && receptions[i].msg.SyncEntry? ==> receptions[i].msg in s
  }

  /** From a state that has collected the first k messages of a snapshot, what comes of the rest of
      the deliveries is decided by comparing them with the rest of the snapshot. */
  lemma {:induction false} CollectExactly(me: int, log: seq<Entry>, k: nat, receptions: seq<Reception>)
    requires k < |log|
    requires DrawnFrom(receptions, Snapshot(me, log))
    ensures var s := Snapshot(me, log);
            var o, rest, heard := Collect(s[..k], receptions), s[k..], HeardEntries(receptions);
            && (o.Completed? <==> rest <= heard)
            && (o.Completed? ==> o.v == s)
            && (o.AbortedSync? <==> !(rest <= heard) && !(heard <= rest))
            && (o.TimedOut? <==> heard < rest)
    decreases |receptions|
  {
    var s := Snapshot(me, log);
    if receptions == [] || receptions[0] == Nothing(true) {
    } else if receptions[0].Got? && receptions[0].msg.SyncEntry? {
      var m := receptions[0].msg;
      var rest, heard := s[k..], HeardEntries(receptions);
      assert m in s && heard[0] == m && heard[1..] == HeardEntries(receptions[1..]);
      if m.index == k {
        assert m == s[k] == rest[0];
        assert s[..k] + [m] == s[..k + 1] && s[k + 1..] == rest[1..];
        assert rest <= heard <==> rest[1..] <= heard[1..];
        assert heard <= rest <==> heard[1..] <= rest[1..];
        if k + 1 == |log| {
          assert s[..k + 1] == s && rest[1..] == [];
        } else {
          CollectExactly(me, log, k + 1, receptions[1..]);
        }
      } else {
        assert rest[0].index == k && heard[0] != rest[0];
      }
    } else {
      CollectExactly(me, log, k, receptions[1..]);
    }
  }

  /** However messages of one snapshot are dropped, repeated or reordered: the receiver completes
      exactly when it hears the whole snapshot in order first, and then holds exactly the snapshot;
      it aborts exactly when it hears something out of sequence before that. */
  lemma ReassemblyExact(me: int, log: seq<Entry>, receptions: seq<Reception>)
    requires DrawnFrom(receptions, Snapshot(me, log))
    ensures var s := Snapshot(me, log);
            var o, heard := Collect([], receptions), HeardEntries(receptions);
            && (o.Completed? <==> log != [] && s <= heard)
            && (o.Completed? ==> o.v == s && EntriesOf(o.v) == log)
            && (o.AbortedSync? <==> !(s <= heard) && !(heard <= s))
  {
    var s := Snapshot(me, log);
    if log == [] {
      NothingToHear(receptions);
    } else {
      assert s[..0] == [] && s[0..] == s;
      CollectExactly(me, log, 0, receptions);
    }
  }

  lemma {:induction false} NothingToHear(receptions: seq<Reception>)
    requires DrawnFrom(receptions, [])
    ensures HeardEntries(receptions) == [] && Collect([], receptions).TimedOut?
    decreases |receptions|
  {
    if receptions != [] {
      NothingToHear(receptions[1..]);
    }
  }

  /** Message n of those heard is numbered n and within the total it carries. */
  predicate Expected(heard: seq<SyncMsg>, n: nat)
    requires n < |heard| && heard[n].SyncEntry?
  {
    heard[n].index == n < heard[n].total
  }

  ghost predicate InSequence(v: seq<SyncMsg>) {
    forall i :: 0 <= i < |v| ==> v[i].SyncEntry? && Expected(v, i) && v[i].total != i + 1
  }

  lemma {:induction false} CollectDecides(rcvd: seq<SyncMsg>, receptions: seq<Reception>, n: nat)
    requires |rcvd| <= n <= |rcvd + HeardEntries(receptions)| && InSequence((rcvd + HeardEntries(receptions))[..n])
    requires forall i :: 0 <= i < |rcvd| ==> rcvd[i].SyncEntry?
    ensures var heard, o := rcvd + HeardEntries(receptions), Collect(rcvd, receptions);
            && (n == |heard| ==> o == TimedOut)
            && (n < |heard| && !Expected(heard, n) ==> o == AbortedSync)
            && (n < |heard| && Expected(heard, n) && heard[n].total == n + 1 ==> o == Completed(heard[..n + 1]))
    decreases |receptions|
  {
    var heard := rcvd + HeardEntries(receptions);
    assert forall i :: 0 <= i < |rcvd| ==> heard[..n][i] == rcvd[i];
    if receptions == [] || receptions[0] == Nothing(true) {
    } else if receptions[0].Got? && receptions[0].msg.SyncEntry? {
      var m, k := receptions[0].msg, |rcvd|;
      assert heard == (rcvd + [m]) + HeardEntries(receptions[1..]) && heard[k] == m;
      assert k > 0 ==> heard[..n][k - 1] == rcvd[k - 1] && Expected(heard[..n], k - 1);
      assert NextIndex(rcvd) == k;
      if n > k {
        assert heard[..n][k] == m && Expected(heard[..n], k);
        CollectDecides(rcvd + [m], receptions[1..], n);
      } else {
        assert heard[..n + 1] == rcvd + [m];
      }
    } else {
      CollectDecides(rcvd, receptions[1..], n);
    }
  }

  /** Whatever entry messages come, from one log or from several: the first of them, number n, that is not
      numbered n within its own total, or is the last of that total, decides. In the first case the sync is
      aborted, in the second it is completed with the messages up to that one. While there is none it waits
      until the time is over. */
  lemma FirstDecidingMessage(receptions: seq<Reception>, n: nat)
    requires n <= |HeardEntries(receptions)| && InSequence(HeardEntries(receptions)[..n])
    ensures var heard, o := HeardEntries(receptions), Collect([], receptions);
            && (n == |heard| ==> o == TimedOut)
            && (n < |heard| && !Expected(heard, n) ==> o == AbortedSync)
            && (n < |heard| && Expected(heard, n) && heard[n].total == n + 1 ==>
                  o == Completed(heard[..n + 1]))
  {
    assert [] + HeardEntries(receptions) == HeardEntries(receptions);
    CollectDecides([], receptions, n);
  }

  class SyncManager {
    const myId: int
    const repLog: ReplicatedLog

    constructor (myId: int, repLog: ReplicatedLog)
      ensures this.myId == myId && this.repLog == repLog
    {
      this.myId, this.repLog := myId, repLog;
    }

    method ServeIncomingSyncRequests() returns (sent: seq<SyncMsg>)
      ensures sent == Snapshot(myId, repLog.entries)
    {
      sent := repLog.GetLogEntriesAsSyncMsgVector(myId);
    }

    method HandleIncomingSyncMsg(rcvd: seq<SyncMsg>, msg: SyncMsg)
      returns (rcvd': seq<SyncMsg>, complete: bool, abort: bool)
      requires forall i :: 0 <= i < |rcvd| ==> rcvd[i].SyncEntry?
      requires msg.SyncEntry?
      ensures Progress(rcvd', complete, abort) == Incoming(rcvd, msg)
      ensures !(complete && abort)
    {
      rcvd', complete, abort := rcvd, false, false;
      var expected := 0;
      if |rcvd| > 0 {
        expected := rcvd[|rcvd| - 1].index + 1;
      }
      if msg.index != expected {
        abort := true;
        return;
      }
      if msg.index >= msg.total {
        abort := true;
        return;
      }
      rcvd' := rcvd + [msg];
      if |rcvd'| == msg.total {
        complete := true;
      }
    }

    /** On completion the collected entries are merged into the log; otherwise the log is untouched. */
    method WaitForAndProcessIncomingLogEntries(receptions: seq<Reception>) returns (o: Outcome)
      modifies repLog
      ensures o == Collect([], receptions)
      ensures repLog.State() == if o.Completed? then Apply(old(repLog.State()), OpMerge(EntriesOf(o.v)))
                                else old(repLog.State())
    {
      var rcvd: seq<SyncMsg> := [];
      var i := 0;
      o := TimedOut;
      while i < |receptions|
        invariant 0 <= i <= |receptions|
        invariant forall j :: 0 <= j < |rcvd| ==> rcvd[j].SyncEntry?
        invariant Collect(rcvd, receptions[i..]) == Collect([], receptions)
        invariant repLog.State() == old(repLog.State())
        invariant o == TimedOut
      {
        assert receptions[i..][1..] == receptions[i + 1..];
        match receptions[i] {
          case Got(RequestLog(_)) =>
          case Got(SyncEntry(_, _, _, _)) =>
            var complete, abort;
            rcvd, complete, abort := HandleIncomingSyncMsg(rcvd, receptions[i].msg);
            if abort {
              return AbortedSync;
            } else if complete {
              repLog.PopulateFromVector(EntriesOf(rcvd));
              return Completed(rcvd);
            }
          case Nothing(waitOver) =>
            if waitOver {
              return TimedOut;
            }
        }
        i := i + 1;
      }
    }
  }
}
