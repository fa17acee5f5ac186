/** The registry of application/storage pairs (src/psrm/sspr/AppStateStoragePairReg.cpp). The source
    iterates over unordered maps; here a loop takes the keys in any order. */
module PairRegistry {
  import opened LogModel

  const INVALID_VALUE: nat := 0
  const UINT_MAX: nat := 0xFFFF_FFFF

  datatype Pair = Pair(appId: nat, storageId: nat, ip: string, storageNode: nat, primaryNode: nat)

  predicate IsPaired(p: Pair) { p.storageId != INVALID_VALUE }

  /** Every entry is filed under its own application. */
  ghost predicate Keyed(reg: map<nat, Pair>) {
    forall a :: a in reg ==> reg[a].appId == a
  }

  function Add(reg: map<nat, Pair>, p: Pair): map<nat, Pair> {
    if p.appId in reg then reg else reg[p.appId := p]
  }

  function Remove(reg: map<nat, Pair>, appId: nat): map<nat, Pair> { reg - {appId} }

  /** The applications that use a storage. */
  function Users(reg: map<nat, Pair>, storage: nat): set<nat> {
    set a | a in reg && reg[a].storageId == storage
  }

  /** Those of them whose entry places the storage on a node other than `node`. */
  function UsersElsewhere(reg: map<nat, Pair>, storage: nat, node: nat): set<nat> {
    set a | a in reg && reg[a].storageId == storage && reg[a].storageNode != node
  }

  /** What the search promises: a least-used storage among those used from elsewhere, with the number
      of entries that use it so; nothing only when every such number is out of range. */
  ghost predicate LowestElsewhere(reg: map<nat, Pair>, node: nat, storage: Option<nat>, useCnt: nat) {
    match storage
    case Some(s) =>
      && s != INVALID_VALUE && 0 < useCnt == |UsersElsewhere(reg, s, node)| < UINT_MAX
      && forall s' :: s' != INVALID_VALUE && UsersElsewhere(reg, s', node) != {} ==>
           useCnt <= |UsersElsewhere(reg, s', node)|
    case None =>
      && useCnt == UINT_MAX
      && forall s' :: s' != INVALID_VALUE && UsersElsewhere(reg, s', node) != {} ==>
           UINT_MAX <= |UsersElsewhere(reg, s', node)|
  }

  /** With fewer entries than the counter can hold, nothing is found exactly when nothing qualifies. */
  lemma NothingFoundExactly(reg: map<nat, Pair>, node: nat, storage: Option<nat>, useCnt: nat)
    requires LowestElsewhere(reg, node, storage, useCnt) && |reg| < UINT_MAX
    ensures storage.None? <==> forall s :: s != INVALID_VALUE ==> UsersElsewhere(reg, s, node) == {}
  {
    if storage.Some? {
      assert UsersElsewhere(reg, storage.value, node) != {};
    } else {
      forall s | s != INVALID_VALUE ensures UsersElsewhere(reg, s, node) == {} {
        assert reg.Keys == UsersElsewhere(reg, s, node) + (reg.Keys - UsersElsewhere(reg, s, node));
        assert |reg.Keys| == |reg|;
      }
    }
  }

  function SeenElsewhere(reg: map<nat, Pair>, seen: set<nat>, storage: nat, node: nat): set<nat> {
    set a | a in seen && a in reg && reg[a].storageId == storage && reg[a].storageNode != node
  }

  ghost predicate CountAt(reg: map<nat, Pair>, node: nat, seen: set<nat>, hist: map<nat, nat>, s: nat) {
    var users := SeenElsewhere(reg, seen, s, node);
    if s != INVALID_VALUE && users != {} then s in hist && hist[s] == |users| else s !in hist
  }

  /** `hist` is the histogram of the entries in `seen`. */
  ghost predicate Counts(reg: map<nat, Pair>, node: nat, seen: set<nat>, hist: map<nat, nat>) {
    forall s {:trigger CountAt(reg, node, seen, hist, s)} :: CountAt(reg, node, seen, hist, s)
  }

  predicate Qualifies(p: Pair, node: nat) { p.storageId != INVALID_VALUE && node != p.storageNode }

  function Bump(hist: map<nat, nat>, s: nat): map<nat, nat> {
    hist[s := (if s in hist then hist[s] else 0) + 1]
  }

  lemma CountBumped(reg: map<nat, Pair>, node: nat, seen: set<nat>, hist: map<nat, nat>, a: nat)
    requires a in reg && a !in seen && Qualifies(reg[a], node) && CountAt(reg, node, seen, hist, reg[a].storageId)
    ensures CountAt(reg, node, seen + {a}, Bump(hist, reg[a].storageId), reg[a].storageId)
  {
    var s := reg[a].storageId;
    var before := SeenElsewhere(reg, seen, s, node);
    assert SeenElsewhere(reg, seen + {a}, s, node) == before + {a} && a !in before;
    assert before == {} ==> |before| == 0;
  }

  lemma CountUnchanged(reg: map<nat, Pair>, node: nat, seen: set<nat>, hist: map<nat, nat>, a: nat, s: nat)
    requires a in reg && CountAt(reg, node, seen, hist, s)
    requires !Qualifies(reg[a], node) || s != reg[a].storageId
    ensures CountAt(reg, node, seen + {a}, hist, s)
  {
    if s != INVALID_VALUE {
      assert SeenElsewhere(reg, seen + {a}, s, node) == SeenElsewhere(reg, seen, s, node);
    }
  }

  lemma CountOne(reg: map<nat, Pair>, node: nat, seen: set<nat>, hist: map<nat, nat>, a: nat)
    requires a in reg && a !in seen && Counts(reg, node, seen, hist)
    ensures Counts(reg, node, seen + {a}, if Qualifies(reg[a], node) then Bump(hist, reg[a].storageId) else hist)
  {
    var hist' := if Qualifies(reg[a], node) then Bump(hist, reg[a].storageId) else hist;
    forall s ensures CountAt(reg, node, seen + {a}, hist', s) {
      assert CountAt(reg, node, seen, hist, s);
      if Qualifies(reg[a], node) && s == reg[a].storageId {
        CountBumped(reg, node, seen, hist, a);
      } else {
        CountUnchanged(reg, node, seen, hist, a, s);
        assert s in hist' <==> s in hist;
      }
    }
  }

  class AppStateStoragePairReg {
    var entries: map<nat, Pair>

    constructor ()
      ensures entries == map[]
    {
      entries := map[];
    }

    method AddEntry(p: Pair) returns (added: bool)
      modifies this
      ensures entries == Add(old(entries), p)
      ensures added <==> p.appId !in old(entries)
      ensures Keyed(old(entries)) ==> Keyed(entries)
    {
      added := false;
      if p.appId !in entries {
        entries := entries[p.appId := p];
        added := true;
      }
    }

    method RemoveEntry(appId: nat)
      modifies this
      ensures entries == Remove(old(entries), appId) && appId !in entries
      ensures Keyed(old(entries)) ==> Keyed(entries)
    {
      entries := entries - {appId};
    }

    method GetEntry(appId: nat) returns (e: Option<Pair>)
      ensures e == if appId in entries then Some(entries[appId]) else None
    {
      e := None;
      if appId in entries {
        e := Some(entries[appId]);
      }
    }

    method FindLowestUsedStateStorageOnDifferentNode(node: nat) returns (storage: Option<nat>, useCnt: nat)
      ensures LowestElsewhere(entries, node, storage, useCnt)
    {
      var hist: map<nat, nat> := map[];
      var todo := entries.Keys;
      assert Counts(entries, node, entries.Keys - todo, hist) by {
        forall s ensures CountAt(entries, node, entries.Keys - todo, hist, s) {
        }
      }
      while todo != {}
        invariant todo <= entries.Keys
        invariant Counts(entries, node, entries.Keys - todo, hist)
        decreases todo
      {
        var a :| a in todo;
        CountOne(entries, node, entries.Keys - todo, hist, a);
        var s := entries[a].storageId;
        if s != INVALID_VALUE && node != entries[a].storageNode {
          hist := hist[s := (if s in hist then hist[s] else 0) + 1];
        }
        assert entries.Keys - todo + {a} == entries.Keys - (todo - {a});
        todo := todo - {a};
      }
      assert entries.Keys - todo == entries.Keys;
      HistogramMeaning(entries, node, hist);
      storage, useCnt := None, UINT_MAX;
      var left := hist.Keys;
      while left != {}
        invariant left <= hist.Keys
        invariant storage.Some? ==> storage.value in hist && hist[storage.value] == useCnt < UINT_MAX
        invariant storage.None? ==> useCnt == UINT_MAX
        invariant forall s :: s in hist && s !in left ==> useCnt <= hist[s]
        decreases left
      {
        var s :| s in left;
        if hist[s] < useCnt {
          useCnt := hist[s];
          storage := Some(s);
        }
        left := left - {s};
      }
    }

    /** The order of the result is the iteration order, so any. */
    method GetAllAppIdThatUseThisStorageId(storage: nat) returns (appIds: seq<nat>)
      requires Keyed(entries)
      ensures forall a :: a in appIds <==> a in Users(entries, storage)
      ensures forall i, j :: 0 <= i < j < |appIds| ==> appIds[i] != appIds[j]
    {
      appIds := [];
      var todo := entries.Keys;
      while todo != {}
        invariant todo <= entries.Keys
        invariant forall a :: a in appIds <==> a in entries && a !in todo && entries[a].storageId == storage
        invariant forall i, j :: 0 <= i < j < |appIds| ==> appIds[i] != appIds[j]
        decreases todo
      {
        var a :| a in todo;
        if entries[a].storageId == storage {
          appIds := appIds + [entries[a].appId];
        }
        todo := todo - {a};
      }
    }
  }

  lemma HistogramMeaning(reg: map<nat, Pair>, node: nat, hist: map<nat, nat>)
    requires Counts(reg, node, reg.Keys, hist)
    ensures forall s :: s in hist <==> s != INVALID_VALUE && UsersElsewhere(reg, s, node) != {}
    ensures forall s :: s in hist ==> hist[s] == |UsersElsewhere(reg, s, node)|
  {
    forall s
      ensures s in hist <==> s != INVALID_VALUE && UsersElsewhere(reg, s, node) != {}
      ensures s in hist ==> hist[s] == |UsersElsewhere(reg, s, node)|
    {
      assert CountAt(reg, node, reg.Keys, hist, s);
      assert SeenElsewhere(reg, reg.Keys, s, node) == UsersElsewhere(reg, s, node);
    }
  }
}
