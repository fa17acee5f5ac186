/** src/ccm/lr/ReplicatedLog.cpp as a class: the vector of entries is a field that the methods
    reassign, and every loop of the source is a loop here. */
module ReplicatedLogClass {
  import opened LogModel

  class ReplicatedLog {
    var entries: seq<Entry>
    var calls: seq<Upcall> // the calls made on the upcall callback so far

    ghost function State(): LogState
      reads this
    {
      LogState(entries, calls)
    }

    constructor ()
      ensures State() == LogState([], [])
    {
      entries, calls := [], [];
    }

    method GetEntryWithOpNumber(op: nat) returns (i: nat)
      ensures i == FindEntry(entries, op)
    {
      i := 0;
      while i < |entries|
        invariant 0 <= i <= |entries|
        invariant FindEntry(entries, op) == FindFrom(entries, op, i)
      {
        if entries[i].op == op {
          return;
        }
        i := i + 1;
      }
    }

    method ArePreviousEntriesInLog(op: nat, view: nat) returns (r: bool)
      ensures r == PreviousInLog(entries, op, view)
    {
      r := false;
      if op == 1 {
        r := true;
      }
      if entries != [] {
        var last := entries[|entries| - 1];
        if op == last.op + 1 && view >= last.view {
          r := true;
        }
      }
    }

    method IsEntryAlreadyExisting(op: nat, view: nat) returns (r: bool)
      ensures r == AlreadyIn(entries, op, view)
    {
      r := false;
      var i := GetEntryWithOpNumber(op);
      if i < |entries| {
        r := entries[i].view == view;
      }
    }

    method ArePreviousEntriesCommitted(op: nat) returns (r: bool)
      ensures r == PreviousCommitted(entries, op)
    {
      r := true;
      var i := 0;
      while i < |entries|
        invariant 0 <= i <= |entries|
        invariant PreviousCommitted(entries, op) == PreviousCommittedFrom(entries, op, i)
      {
        if entries[i].op >= op {
          return;
        } else if !entries[i].committed {
          return false;
        }
        i := i + 1;
      }
    }

    method AddOrOverwriteDependingOnView(op: nat, view: nat, payload: ClientMessage) returns (ok: bool)
      modifies this`entries
      ensures (entries, ok) == AddOrOverwrite(old(entries), op, view, payload)
    {
      ok := false;
      var i := GetEntryWithOpNumber(op);
      if i < |entries| {
        if entries[i].view < view {
          if !entries[i].committed {
            entries := entries[i := NewEntry(op, view, payload)];
          }
          ok := true;
        }
      } else {
        entries := entries + [NewEntry(op, view, payload)];
        ok := true;
      }
    }

    method AddEntryToLogIfNotAlreadyIn(op: nat, view: nat, payload: ClientMessage) returns (ok: bool)
      modifies this`entries
      ensures (entries, ok) == AddEntry(old(entries), op, view, payload)
      ensures State() == Apply(old(State()), OpPrepare(op, view, payload))
    {
      ok := false;
      var previous := ArePreviousEntriesInLog(op, view);
      if previous {
        var existing := IsEntryAlreadyExisting(op, view);
        if !existing {
          ok := AddOrOverwriteDependingOnView(op, view, payload);
        } else {
          ok := true;
        }
      }
    }

    method CommitEntryIfPresent(op: nat, view: nat) returns (ok: bool)
      modifies this`entries
      ensures (entries, ok) == CommitEntry(old(entries), op, view)
      ensures State() == Apply(old(State()), OpCommit(op, view))
    {
      ok := false;
      var existing := IsEntryAlreadyExisting(op, view);
      if existing {
        var previous := ArePreviousEntriesCommitted(op);
        if previous {
          var i := GetEntryWithOpNumber(op);
          entries := entries[i := entries[i].(committed := true)];
          ok := true;
        }
      }
    }

    method PerformUpcalls(force: bool)
      modifies this
      ensures State() == Apply(old(State()), OpUpcalls(force))
    {
      ghost var was := entries;
      var i := 0;
      while i < |entries|
        invariant 0 <= i <= |entries| == |was|
        invariant forall j :: 0 <= j < i ==> entries[j] == MarkUpcalls(was, force)[j]
        invariant forall j :: i <= j < |was| ==> entries[j] == was[j]
        invariant calls == old(calls) + UpcallsDueTo(was, i, force)
      {
        if entries[i].committed {
          if !entries[i].upcallDone || force {
            calls := calls + [Upcall(entries[i].op, entries[i].payload)];
            entries := entries[i := entries[i].(upcallDone := true)];
          }
        }
        i := i + 1;
      }
      assert entries == MarkUpcalls(was, force);
    }

    method GetLatestEntryOpNumber() returns (op: nat)
      ensures op == LatestOp(entries)
    {
      op := 0;
      if entries != [] {
        op := entries[|entries| - 1].op;
      }
    }

    method GetLogEntriesAsSyncMsgVector(me: int) returns (v: seq<SyncMsg>)
      ensures v == Snapshot(me, entries)
    {
      v := [];
      var i := 0;
      while i < |entries|
        invariant 0 <= i <= |entries| && |v| == i
        invariant forall j :: 0 <= j < i ==> v[j] == SyncEntry(me, |entries|, j, entries[j])
      {
        v := v + [SyncEntry(me, |entries|, i, entries[i])];
        i := i + 1;
      }
      assert v == Snapshot(me, entries);
    }

    method PopulateFromVector(batch: seq<Entry>)
      modifies this`entries
      ensures State() == Apply(old(State()), OpMerge(batch))
    {
      var i := 0;
      while i < |batch|
        invariant 0 <= i <= |batch|
        invariant entries == MergeTo(old(entries), batch, i)
      {
        var e := Received(batch[i]);
        var at := GetEntryWithOpNumber(e.op);
        if at == |entries| {
          entries := entries + [e];
        }
        i := i + 1;
      }
    }

    method CommittAllEarlierEntries(k: nat)
      modifies this`entries
      ensures State() == Apply(old(State()), OpCommitUpTo(k))
    {
      ghost var was := entries;
      var i := 0;
      while i < |entries|
        invariant 0 <= i <= |entries| == |was|
        invariant forall j :: 0 <= j < i ==> entries[j] == CommitUpTo(was, k)[j]
        invariant forall j :: i <= j < |was| ==> entries[j] == was[j]
      {
        if entries[i].op <= k {
          entries := entries[i := entries[i].(committed := true)];
        }
        i := i + 1;
      }
      assert entries == CommitUpTo(was, k);
    }

    method GetHighestCommittedOpNumber() returns (h: nat)
      ensures h == HighestCommitted(entries)
      ensures forall i :: 0 <= i < |entries| && entries[i].committed ==> entries[i].op <= h
      ensures h > 0 ==> exists i :: 0 <= i < |entries| && entries[i].committed && entries[i].op == h
    {
      h := 0;
      var i := 0;
      while i < |entries|
        invariant 0 <= i <= |entries|
        invariant h == HighestCommittedTo(entries, i)
      {
        if entries[i].op > h {
          if entries[i].committed {
            h := entries[i].op;
          }
        }
        i := i + 1;
      }
    }
  }
}
