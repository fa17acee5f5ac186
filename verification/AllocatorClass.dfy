/** The proposal queue with its registry (src/psrm/sspr/SSPR.cpp) and the pairing logic
    (src/psrm/assp/ASSP.cpp). */
module AllocatorClass {
  import opened LogModel
  import opened PairRegistry
  import opened Allocation

  class SSPR {
    const pairs: AppStateStoragePairReg
    var queue: seq<Pair>
    /** The requests handed to the replication layer, in order. */
    var posted: seq<Request>
    /** The calls of the change callback, in order. */
    var changes: seq<Change>

    /** A listener to the callbacks knows the registry. */
    ghost predicate Valid()
      reads this, pairs
    {
      Keyed(pairs.entries) && Listen(changes) == pairs.entries
    }

    constructor ()
      ensures Valid() && fresh(pairs) && pairs.entries == map[] && queue == [] && posted == [] && changes == []
    {
      pairs := new AppStateStoragePairReg();
      queue, posted, changes := [], [], [];
    }

    method PostStoragePairForReplication(p: Pair)
      modifies this`queue
      ensures queue == old(queue) + [p]
    {
      queue := queue + [p];
    }

    method GetStoragePairEntryFromQueue() returns (p: Option<Pair>)
      modifies this`queue
      ensures old(queue) == [] ==> p == None && queue == []
      ensures old(queue) != [] ==> p == Some(old(queue)[0]) && old(queue) == [p.value] + queue
    {
      p := None;
      if queue != [] {
        p, queue := Some(queue[0]), queue[1..];
      }
    }

    method HandleIncomingPairingRequest(p: Pair)
      modifies this`posted
      ensures posted == old(posted) + [Handled(p)]
    {
      if IsPaired(p) {
        posted := posted + [AddPairing(p)];
      } else {
        posted := posted + [RemovePairing(p)];
      }
    }

    /** `leader` holds the answers to the question whether this node is the synchronised leader, one
        for each proposal taken from the queue. */
    method ProcessIncomingParingRequestIfLeaderFlushOtherwise(leader: seq<bool>)
      requires |leader| == |queue|
      modifies this`queue, this`posted
      ensures queue == Drain(old(queue), leader).0
      ensures posted == old(posted) + Drain(old(queue), leader).1
    {
      var i := 0;
      var isMsgRcvd := true;
      while isMsgRcvd
        invariant 0 <= i <= |leader| && queue == old(queue)[i..] && posted == old(posted)
        invariant Drain(old(queue), leader) == Drain(queue, leader[i..])
        invariant !isMsgRcvd ==> queue == []
        decreases isMsgRcvd, |queue|
      {
        isMsgRcvd := false;
        var p := GetStoragePairEntryFromQueue();
        if p.Some? {
          isMsgRcvd := true;
          if leader[i] {
            HandleIncomingPairingRequest(p.value);
            return;
          }
          i := i + 1;
        }
      }
    }

    method HandleUpcallMessage(msg: Request)
      requires Valid()
      modifies this`changes, pairs
      ensures Valid() && pairs.entries == Committed(old(pairs.entries), msg)
      ensures msg.AddPairing? && msg.pair.appId in old(pairs.entries) ==> changes == old(changes)
      ensures !(msg.AddPairing? && msg.pair.appId in old(pairs.entries)) ==>
                changes == old(changes) + [Change(msg.pair, msg.AddPairing?)]
    {
      ListenToOne(changes, Change(msg.pair, msg.AddPairing?));
      if msg.AddPairing? {
        var added := pairs.AddEntry(msg.pair);
        if added {
          changes := changes + [Change(msg.pair, true)];
        }
      } else {
        pairs.RemoveEntry(msg.pair.appId);
        changes := changes + [Change(msg.pair, false)];
      }
    }
  }

  class ASSP {
    const sspr: SSPR
    /** What the application and storage registries currently know. */
    var apps: Apps
    var storages: Storages

    constructor (sspr: SSPR)
      ensures this.sspr == sspr && apps == map[] && storages == map[]
    {
      this.sspr := sspr;
      apps, storages := map[], map[];
    }

    ghost predicate Valid()
      reads this, sspr, sspr.pairs
    {
      sspr.Valid()
    }

    method IsStorageOnDifferentNode(app: nat, info: StorageInfo) returns (different: bool)
      ensures different <==> app in apps && apps[app] != info.node
    {
      different := app in apps && apps[app] != info.node;
    }

    /** Posts for every free storage, not only for the first one. */
    method PairWithUnUsedIfItExist(app: nat) returns (paired: bool)
      requires Valid()
      modifies sspr`queue
      ensures old(sspr.queue) <= sspr.queue && (paired <==> |old(sspr.queue)| < |sspr.queue|)
      ensures ListsFree(sspr.pairs.entries, apps, storages, app, storages.Keys, sspr.queue[|old(sspr.queue)|..])
    {
      paired := false;
      ghost var posts: seq<Pair> := [];
      var todo := storages.Keys;
      while todo != {}
        invariant todo <= storages.Keys
        invariant sspr.queue == old(sspr.queue) + posts && (paired <==> posts != [])
        invariant ListsFree(sspr.pairs.entries, apps, storages, app, storages.Keys - todo, posts)
        decreases todo
      {
        var s :| s in todo;
        var users := sspr.pairs.GetAllAppIdThatUseThisStorageId(s);
        assert users == [] <==> Users(sspr.pairs.entries, s) == {} by {
          if users != [] {
            assert users[0] in users;
          }
        }
        if users == [] {
          var different := IsStorageOnDifferentNode(app, storages[s]);
          if different {
            sspr.PostStoragePairForReplication(Pair(app, s, storages[s].ip, storages[s].node, apps[app]));
            posts := posts + [PairFor(apps, storages, app, s)];
            paired := true;
          }
        }
        todo := todo - {s};
      }
    }

    method PairWithUsed(app: nat) returns (matched: bool)
      requires Valid()
      modifies sspr`queue
      ensures old(sspr.queue) <= sspr.queue && (matched <==> |old(sspr.queue)| < |sspr.queue|)
      ensures SharesUsed(sspr.pairs.entries, apps, storages, app, sspr.queue[|old(sspr.queue)|..])
    {
      matched := false;
      if app !in apps {
        return;
      }
      var found, useCnt := sspr.pairs.FindLowestUsedStateStorageOnDifferentNode(apps[app]);
      if found.Some? {
        if useCnt < STORAGE_USE_CNT_LIMIT {
          if found.value in storages {
            var different := IsStorageOnDifferentNode(app, storages[found.value]);
            if different {
              var info := storages[found.value];
              sspr.PostStoragePairForReplication(Pair(app, found.value, info.ip, info.node, apps[app]));
              matched := true;
            }
          }
        }
      }
    }

    method PairAppWithStorageIfPossible(app: nat) returns (posted: bool)
      requires Valid()
      modifies sspr`queue
      ensures old(sspr.queue) <= sspr.queue && (posted <==> |old(sspr.queue)| < |sspr.queue|)
      ensures Decision(sspr.pairs.entries, apps, storages, app, sspr.queue[|old(sspr.queue)|..])
    {
      posted := PairWithUnUsedIfItExist(app);
      if posted {
        return;
      }
      assert sspr.queue == old(sspr.queue);
      posted := PairWithUsed(app);
    }

    method CheckForUnPairedAppAndTryToPair() returns (found: Option<nat>)
      requires Valid()
      modifies sspr`queue
      ensures old(sspr.queue) <= sspr.queue && (found.Some? <==> |old(sspr.queue)| < |sspr.queue|)
      ensures found.Some? ==>
                && found.value in apps && found.value !in sspr.pairs.entries
                && Decision(sspr.pairs.entries, apps, storages, found.value, sspr.queue[|old(sspr.queue)|..])
      ensures found.None? ==> forall a :: a in apps && a !in sspr.pairs.entries ==>
                Decision(sspr.pairs.entries, apps, storages, a, [])
    {
      found := None;
      var todo := apps.Keys;
      while todo != {}
        invariant todo <= apps.Keys && found == None && sspr.queue == old(sspr.queue)
        invariant forall a :: a in apps && a !in todo && a !in sspr.pairs.entries ==>
                    Decision(sspr.pairs.entries, apps, storages, a, [])
        decreases todo
      {
        var a :| a in todo;
        var entry := sspr.pairs.GetEntry(a);
        if entry.None? {
          var posted := PairAppWithStorageIfPossible(a);
          if posted {
            found := Some(a);
            return;
          }
          assert sspr.queue[|old(sspr.queue)|..] == [];
        }
        todo := todo - {a};
      }
    }

    method RemoveAppStoragePair(app: nat)
      modifies sspr`queue
      ensures sspr.queue == old(sspr.queue) + [RemovalOf(app)]
    {
      sspr.PostStoragePairForReplication(Pair(app, INVALID_VALUE, "NONE", INVALID_VALUE, INVALID_VALUE));
    }

    method ApplicationRemoved(app: nat)
      modifies sspr`queue
      ensures var paired := app in sspr.pairs.entries && IsPaired(sspr.pairs.entries[app]);
              sspr.queue == old(sspr.queue) + if paired then [RemovalOf(app)] else []
    {
      var entry := sspr.pairs.GetEntry(app);
      var trigger := false;
      if entry.Some? {
        if IsPaired(entry.value) {
          trigger := true;
        }
      }
      if trigger {
        RemoveAppStoragePair(app);
      }
    }

    method ApplicationAdded(app: nat)
      requires Valid()
      modifies sspr`queue
      ensures old(sspr.queue) <= sspr.queue
      ensures app in sspr.pairs.entries && IsPaired(sspr.pairs.entries[app]) ==> sspr.queue == old(sspr.queue)
      ensures !(app in sspr.pairs.entries && IsPaired(sspr.pairs.entries[app])) ==>
                Decision(sspr.pairs.entries, apps, storages, app, sspr.queue[|old(sspr.queue)|..])
    {
      var entry := sspr.pairs.GetEntry(app);
      var trigger := true;
      if entry.Some? {
        if IsPaired(entry.value) {
          trigger := false;
        }
      }
      if trigger {
        var _ := PairAppWithStorageIfPossible(app);
      }
    }

    /** Proposes the removal of every pairing with the storage, each once. */
    method StorageRemoved(s: nat)
      requires Valid()
      modifies sspr`queue
      ensures old(sspr.queue) <= sspr.queue
      ensures RemovesUsers(Users(sspr.pairs.entries, s), sspr.queue[|old(sspr.queue)|..])
    {
      var appIds := sspr.pairs.GetAllAppIdThatUseThisStorageId(s);
      ghost var posts: seq<Pair> := [];
      var i := 0;
      while i < |appIds|
        invariant 0 <= i <= |appIds| && |posts| == i && sspr.queue == old(sspr.queue) + posts
        invariant forall k :: 0 <= k < i ==> posts[k] == RemovalOf(appIds[k])
      {
        RemoveAppStoragePair(appIds[i]);
        posts := posts + [RemovalOf(appIds[i])];
        i := i + 1;
      }
      ghost var users := Users(sspr.pairs.entries, s);
      forall a | a in users ensures RemovalOf(a) in posts {
        var k :| 0 <= k < |appIds| && appIds[k] == a;
        assert posts[k] == RemovalOf(a);
      }
      assert RemovesUsers(users, posts);
      assert sspr.queue[|old(sspr.queue)|..] == posts;
    }
  }
}
