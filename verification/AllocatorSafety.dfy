/** The allocators of all nodes together: every node decides from its own copy of the registry, and
    the replication layer commits the requests in one order, which every node applies in its time. */
module AllocatorSafety {
  import opened LogModel
  import opened PairRegistry
  import opened Allocation
  import opened Quorum

  /** `applied` is how much of the committed log the node has had upcalls for. */
  datatype Node = Node(apps: Apps, storages: Storages, queue: seq<Pair>, applied: nat)

  datatype State = State(nodes: seq<Node>, inflight: seq<Request>, log: seq<Request>)

  datatype Step =
    | Learn(i: nat, apps: Apps, storages: Storages)
    | PairApp(i: nat, app: nat, posts: seq<Pair>)
    | AppRemoved(i: nat, app: nat)
    | StorageRemoved(i: nat, storage: nat, posts: seq<Pair>)
    | Process(i: nat, leader: seq<bool>)
    | CommitRequest(k: nat)
    | LoseRequest(k: nat)
    | ApplyNext(i: nat)

  /** The registry of node `i`. */
  function RegOf(s: State, i: nat): map<nat, Pair>
    requires i < |s.nodes|
  {
    if s.nodes[i].applied <= |s.log| then Replay(s.log[..s.nodes[i].applied]) else map[]
  }

  predicate IsPairedIn(reg: map<nat, Pair>, app: nat) { app in reg && IsPaired(reg[app]) }

  ghost predicate Enabled(s: State, step: Step) {
    match step
    case Learn(i, _, _) => i < |s.nodes|
    case PairApp(i, app, posts) =>
      i < |s.nodes| && !IsPairedIn(RegOf(s, i), app)
      && Decision(RegOf(s, i), s.nodes[i].apps, s.nodes[i].storages, app, posts)
    case AppRemoved(i, app) => i < |s.nodes|
    case StorageRemoved(i, storage, posts) => i < |s.nodes| && RemovesUsers(Users(RegOf(s, i), storage), posts)
    case Process(i, leader) => i < |s.nodes| && |leader| == |s.nodes[i].queue|
    case CommitRequest(k) => k < |s.inflight|
    case LoseRequest(k) => k < |s.inflight|
    case ApplyNext(i) => i < |s.nodes| && s.nodes[i].applied < |s.log|
  }

  function SetQueue(s: State, i: nat, queue: seq<Pair>): State
    requires i < |s.nodes|
  {
    s.(nodes := s.nodes[i := s.nodes[i].(queue := queue)])
  }

  function Without(reqs: seq<Request>, k: nat): seq<Request>
    requires k < |reqs|
  {
    reqs[..k] + reqs[k + 1..]
  }

  ghost function After(s: State, step: Step): State
    requires Enabled(s, step)
  {
    match step
    case Learn(i, apps, storages) =>
      s.(nodes := s.nodes[i := s.nodes[i].(apps := apps, storages := storages)])
    case PairApp(i, app, posts) => SetQueue(s, i, s.nodes[i].queue + posts)
    case AppRemoved(i, app) =>
      SetQueue(s, i, s.nodes[i].queue + if IsPairedIn(RegOf(s, i), app) then [RemovalOf(app)] else [])
    case StorageRemoved(i, storage, posts) => SetQueue(s, i, s.nodes[i].queue + posts)
    case Process(i, leader) =>
      var r := Drain(s.nodes[i].queue, leader);
      SetQueue(s, i, r.0).(inflight := s.inflight + r.1)
    case CommitRequest(k) => s.(inflight := Without(s.inflight, k), log := s.log + [s.inflight[k]])
    case LoseRequest(k) => s.(inflight := Without(s.inflight, k))
    case ApplyNext(i) => s.(nodes := s.nodes[i := s.nodes[i].(applied := s.nodes[i].applied + 1)])
  }

  ghost predicate Init(s: State) {
    && s.inflight == [] && s.log == []
    && forall i :: 0 <= i < |s.nodes| ==> s.nodes[i].queue == [] && s.nodes[i].applied == 0
  }

  ghost predicate IsRun(run: seq<State>, steps: seq<Step>) {
    && |run| == |steps| + 1 && Init(run[0])
    && forall k {:trigger steps[k]} :: 0 <= k < |steps| ==>
         Enabled(run[k], steps[k]) && run[k + 1] == After(run[k], steps[k])
  }

  // ----- placement

  predicate Apart(p: Pair) { IsPaired(p) ==> p.storageNode != p.primaryNode }

  predicate Sound(r: Request) { r.AddPairing? ==> IsPaired(r.pair) && Apart(r.pair) }

  ghost predicate Placed(reg: map<nat, Pair>) {
    forall a :: a in reg ==> reg[a].appId == a && IsPaired(reg[a]) && reg[a].storageNode != reg[a].primaryNode
  }

  ghost predicate PlaceInv(s: State) {
    && (forall i :: 0 <= i < |s.nodes| ==> s.nodes[i].applied <= |s.log|)
    && (forall i, p :: 0 <= i < |s.nodes| && p in s.nodes[i].queue ==> Apart(p))
    && (forall r :: r in s.inflight ==> Sound(r))
    && (forall r :: r in s.log ==> Sound(r))
  }

  lemma {:induction false} ReplayPlaced(log: seq<Request>)
    requires forall r :: r in log ==> Sound(r)
    ensures Placed(Replay(log))
  {
    if log != [] {
      ReplayPlaced(log[..|log| - 1]);
      assert log[|log| - 1] in log;
    }
  }

  lemma DrainTakes(queue: seq<Pair>, leader: seq<bool>)
    requires |leader| == |queue|
    ensures forall p :: p in Drain(queue, leader).0 ==> p in queue
    ensures forall r :: r in Drain(queue, leader).1 ==> r.pair in queue && r == Handled(r.pair)
  {
  }

  /** What a decision posts carries the application's primary node and the storage's address and node as they
      are known then, and the two nodes differ. */
  lemma DecisionProposes(reg: map<nat, Pair>, apps: Apps, storages: Storages, app: nat, posts: seq<Pair>)
    requires Decision(reg, apps, storages, app, posts)
    ensures forall p :: p in posts ==> Proposes(apps, storages, app, p)
    ensures forall p :: p in posts ==>
              && p.appId == app && app in apps && p.primaryNode == apps[app]
              && p.storageId in storages && p.storageNode == storages[p.storageId].node
              && p.ip == storages[p.storageId].ip && p.storageNode != p.primaryNode
  {
  }

  lemma StepKeepsPlaceInv(s: State, step: Step)
    requires PlaceInv(s) && Enabled(s, step)
    ensures PlaceInv(After(s, step))
  {
    match step
    case PairApp(i, app, posts) =>
      DecisionProposes(RegOf(s, i), s.nodes[i].apps, s.nodes[i].storages, app, posts);
    case Process(i, leader) => DrainTakes(s.nodes[i].queue, leader);
    case CommitRequest(k) => assert s.inflight[k] in s.inflight;
    case _ =>
  }

  lemma {:induction false} RunPlaceInv(run: seq<State>, steps: seq<Step>, n: nat)
    requires IsRun(run, steps) && n < |run|
    ensures PlaceInv(run[n])
  {
    if n > 0 {
      RunPlaceInv(run, steps, n - 1);
      assert run[n - 1 + 1] == After(run[n - 1], steps[n - 1]);
      StepKeepsPlaceInv(run[n - 1], steps[n - 1]);
    }
  }

  /** In every run, with applications and storages coming and going, on every node: each entry is
      filed under its own application, names a real storage, and that storage is on a node other than
      the primary node it was recorded with. */
  lemma PlacementSafety(run: seq<State>, steps: seq<Step>, n: nat, i: nat)
    requires IsRun(run, steps) && n < |run| && i < |run[n].nodes|
    ensures Placed(RegOf(run[n], i))
  {
    RunPlaceInv(run, steps, n);
    ReplayPlaced(run[n].log[..run[n].nodes[i].applied]);
  }

  // ----- capacity

  /** No addition is on its way: none queued, none in flight, none committed that `i` has not seen. */
  ghost predicate Quiet(s: State, i: nat)
    requires i < |s.nodes|
  {
    && (forall j, p :: 0 <= j < |s.nodes| && p in s.nodes[j].queue ==> !IsPaired(p))
    && (forall r :: r in s.inflight ==> r.RemovePairing?)
    && s.nodes[i].applied <= |s.log| && forall r :: r in s.log[s.nodes[i].applied..] ==> r.RemovePairing?
  }

  ghost predicate Settled(home: nat -> nat, storages: Storages) {
    forall t :: t in storages ==> storages[t].node == home(t)
  }

  /** The hypotheses of the capacity claim, step by step. */
  ghost predicate Orderly(home: nat -> nat, s: State, step: Step)
    requires Enabled(s, step)
  {
    match step
    case Learn(_, _, storages) => Settled(home, storages)
    case PairApp(i, _, _) => Quiet(s, i)
    case _ => true
  }

  ghost predicate OrderlyRun(home: nat -> nat, run: seq<State>, steps: seq<Step>) {
    && IsRun(run, steps)
    && (forall i :: 0 <= i < |run[0].nodes| ==> Settled(home, run[0].nodes[i].storages))
    && forall k {:trigger steps[k]} :: 0 <= k < |steps| ==> Enabled(run[k], steps[k]) && Orderly(home, run[k], steps[k])
  }

  predicate AtHome(home: nat -> nat, p: Pair) { IsPaired(p) ==> p.storageNode == home(p.storageId) }

  ghost predicate Within(reg: map<nat, Pair>) {
    forall t {:trigger Users(reg, t)} :: |Users(reg, t)| <= STORAGE_USE_CNT_LIMIT
  }

  /** Adding `p`, for `app`, would still leave its storage within the limit. */
  predicate Room(reg: map<nat, Pair>, app: nat, p: Pair) {
    p.appId == app && |Users(reg, p.storageId) - {app}| < STORAGE_USE_CNT_LIMIT
  }

  /** All additions on their way are for one application, and each has room. */
  ghost predicate OneAppWaiting(s: State, app: nat) {
    && (forall i, p :: 0 <= i < |s.nodes| && p in s.nodes[i].queue && IsPaired(p) ==> Room(Replay(s.log), app, p))
    && (forall r :: r in s.inflight && r.AddPairing? ==> Room(Replay(s.log), app, r.pair))
  }

  ghost predicate Homely(home: nat -> nat, s: State) {
    && (forall i :: 0 <= i < |s.nodes| ==> Settled(home, s.nodes[i].storages))
    && (forall i, p :: 0 <= i < |s.nodes| && p in s.nodes[i].queue ==> AtHome(home, p))
    && (forall r :: r in s.inflight ==> r.AddPairing? ==> AtHome(home, r.pair))
    && (forall r :: r in s.log ==> r.AddPairing? ==> AtHome(home, r.pair))
  }

  ghost predicate AllWithin(log: seq<Request>) {
    forall n {:trigger log[..n]} :: 0 <= n <= |log| ==> Within(Replay(log[..n]))
  }

  ghost predicate CapInv(home: nat -> nat, s: State) {
    PlaceInv(s) && Homely(home, s) && AllWithin(s.log) && exists app :: OneAppWaiting(s, app)
  }

  lemma StepKeepsHomely(home: nat -> nat, s: State, step: Step)
    requires Homely(home, s) && Enabled(s, step) && Orderly(home, s, step)
    ensures Homely(home, After(s, step))
  {
    match step
    case PairApp(i, app, posts) =>
      DecisionProposes(RegOf(s, i), s.nodes[i].apps, s.nodes[i].storages, app, posts);
    case Process(i, leader) => DrainTakes(s.nodes[i].queue, leader);
    case CommitRequest(k) => assert s.inflight[k] in s.inflight;
    case _ =>
  }

  lemma {:induction false} ReplayAtHome(home: nat -> nat, log: seq<Request>)
    requires forall r :: r in log ==> r.AddPairing? ==> AtHome(home, r.pair)
    ensures forall a :: a in Replay(log) ==> AtHome(home, Replay(log)[a])
  {
    if log != [] {
      ReplayAtHome(home, log[..|log| - 1]);
      assert log[|log| - 1] in log;
    }
  }

  /** With one node for each storage, the count over entries that place it elsewhere is the full count. */
  lemma ElsewhereIsEverywhere(home: nat -> nat, reg: map<nat, Pair>, s: nat, node: nat)
    requires Placed(reg) && (forall a :: a in reg ==> AtHome(home, reg[a])) && home(s) != node
    ensures UsersElsewhere(reg, s, node) == Users(reg, s)
  {
  }

  /** What is proposed has room in the registry the decision was made from. */
  lemma DecisionHasRoom(home: nat -> nat, reg: map<nat, Pair>, apps: Apps, storages: Storages, app: nat,
                        posts: seq<Pair>, p: Pair)
    requires Placed(reg) && (forall a :: a in reg ==> AtHome(home, reg[a])) && Settled(home, storages)
    requires Decision(reg, apps, storages, app, posts) && p in posts
    ensures |Users(reg, p.storageId)| < STORAGE_USE_CNT_LIMIT
  {
    if !ListsFree(reg, apps, storages, app, storages.Keys, posts) {
      var found: Option<nat>, useCnt: nat :|
        && LowestElsewhere(reg, apps[app], found, useCnt)
        && if found.Some? && useCnt < STORAGE_USE_CNT_LIMIT && Suits(apps, storages, app, found.value)
           then posts == [PairFor(apps, storages, app, found.value)]
           else posts == [];
      ElsewhereIsEverywhere(home, reg, p.storageId, apps[app]);
    }
  }

  /** Removals only shrink the registry. */
  lemma {:induction false} RemovalsShrink(log: seq<Request>, n: nat)
    requires n <= |log| && forall r :: r in log[n..] ==> r.RemovePairing?
    ensures forall t :: Users(Replay(log), t) <= Users(Replay(log[..n]), t)
  {
    if n == |log| {
      assert log[..n] == log;
    } else {
      var front, r := log[..|log| - 1], log[|log| - 1];
      assert r == log[n..][|log| - 1 - n] && r in log[n..] && front[..n] == log[..n];
      forall q | q in front[n..] ensures q.RemovePairing? {
        var m :| n <= m < |front| && front[m] == q;
        assert log[n..][m - n] == q;
      }
      RemovalsShrink(front, n);
      assert Replay(log) == Remove(Replay(front), r.pair.appId);
      forall t ensures Users(Replay(log), t) <= Users(Replay(front), t) {
      }
    }
  }

  /** What a decision needs to find: no storage has the reserved id, every storage in use is registered,
      and the entries can be counted. */
  ghost predicate Findable(reg: map<nat, Pair>, storages: Storages) {
    && INVALID_VALUE !in storages && |reg| < UINT_MAX
    && forall a :: a in reg ==> reg[a].storageId in storages
  }

  /** A decision posts nothing exactly when every storage on another node already has two applications. */
  lemma DecidesNothingExactly(home: nat -> nat, reg: map<nat, Pair>, apps: Apps, storages: Storages, app: nat,
                              posts: seq<Pair>)
    requires Placed(reg) && (forall a :: a in reg ==> AtHome(home, reg[a])) && Settled(home, storages)
    requires app in apps && Findable(reg, storages) && Decision(reg, apps, storages, app, posts)
    ensures posts == [] <==>
            forall s :: s in storages && storages[s].node != apps[app] ==>
              |set a | a in reg && reg[a].storageId == s| >= 2
  {
    if posts == [] {
      forall s | s in storages && storages[s].node != apps[app]
        ensures |set a | a in reg && reg[a].storageId == s| >= 2
      {
        FullWhenNothingPosted(home, reg, apps, storages, app, s);
        assert Users(reg, s) == set a | a in reg && reg[a].storageId == s;
      }
    } else {
      var s := posts[0].storageId;
      assert posts[0] in posts;
      DecisionProposes(reg, apps, storages, app, posts);
      DecisionHasRoom(home, reg, apps, storages, app, posts, posts[0]);
      assert Users(reg, s) == set a | a in reg && reg[a].storageId == s;
    }
  }

  /** Why registered storages are asked for: the search may come up with one that is in use but no longer
      registered, and then nothing is posted although storage 7 has room. */
  lemma UnregisteredHidesRoom()
    ensures var apps: Apps := map[11 := 1];
            var storages: Storages := map[7 := StorageInfo(9, "storage")];
            var reg := map[10 := Pair(10, 8, "old", 9, 1), 12 := Pair(12, 7, "storage", 9, 1)];
            Decision(reg, apps, storages, 11, []) && |Users(reg, 7)| == 1 && Suits(apps, storages, 11, 7)
  {
    var apps: Apps := map[11 := 1];
    var storages: Storages := map[7 := StorageInfo(9, "storage")];
    var reg := map[10 := Pair(10, 8, "old", 9, 1), 12 := Pair(12, 7, "storage", 9, 1)];
    assert Users(reg, 7) == {12};
    assert UsersElsewhere(reg, 8, 1) == {10};
    forall s | UsersElsewhere(reg, s, 1) != {} ensures 1 <= |UsersElsewhere(reg, s, 1)| {
    }
    assert LowestElsewhere(reg, 1, Some(8), 1);
    assert SharesUsed(reg, apps, storages, 11, []);
  }

  lemma FullWhenNothingPosted(home: nat -> nat, reg: map<nat, Pair>, apps: Apps, storages: Storages, app: nat, s: nat)
    requires Placed(reg) && (forall a :: a in reg ==> AtHome(home, reg[a])) && Settled(home, storages)
    requires app in apps && Findable(reg, storages) && Decision(reg, apps, storages, app, [])
    requires s in storages && storages[s].node != apps[app]
    ensures |Users(reg, s)| >= STORAGE_USE_CNT_LIMIT == 2
  {
    var node := apps[app];
    var found: Option<nat>, useCnt: nat :|
      && LowestElsewhere(reg, node, found, useCnt)
      && !(found.Some? && useCnt < STORAGE_USE_CNT_LIMIT && Suits(apps, storages, app, found.value));
    assert Users(reg, s) != {} by {
      assert Suits(apps, storages, app, s) && !Free(reg, apps, storages, app, s);
    }
    ElsewhereIsEverywhere(home, reg, s, node);
    NothingFoundExactly(reg, node, found, useCnt);
    var user :| user in UsersElsewhere(reg, found.value, node);
    assert Suits(apps, storages, app, found.value);
  }

  lemma DecisionKeepsOneApp(home: nat -> nat, s: State, i: nat, app: nat, posts: seq<Pair>)
    requires PlaceInv(s) && Homely(home, s) && Enabled(s, PairApp(i, app, posts)) && Quiet(s, i)
    ensures OneAppWaiting(After(s, PairApp(i, app, posts)), app)
  {
    var reg, nd := RegOf(s, i), s.nodes[i];
    ReplayPlaced(s.log[..nd.applied]);
    ReplayAtHome(home, s.log[..nd.applied]);
    RemovalsShrink(s.log, nd.applied);
    DecisionProposes(reg, nd.apps, nd.storages, app, posts);
    forall p | p in posts ensures Room(Replay(s.log), app, p) {
      DecisionHasRoom(home, reg, nd.apps, nd.storages, app, posts, p);
      SubsetSize(Users(Replay(s.log), p.storageId) - {app}, Users(reg, p.storageId));
    }
  }

  /** An addition for an application without an entry keeps the limit exactly when there is room. */
  lemma AddKeepsLimitExactly(reg: map<nat, Pair>, p: Pair)
    requires Within(reg)
    ensures Within(Add(reg, p)) <==> p.appId in reg || |Users(reg, p.storageId)| < STORAGE_USE_CNT_LIMIT
  {
    if p.appId !in reg {
      var reg' := Add(reg, p);
      assert Users(reg', p.storageId) == Users(reg, p.storageId) + {p.appId};
      forall t | t != p.storageId ensures Users(reg', t) == Users(reg, t) {
      }
    }
  }

  lemma RequestKeepsRoom(reg: map<nat, Pair>, app: nat, r: Request, p: Pair)
    requires Room(reg, app, p) && (r.AddPairing? ==> r.pair.appId == app)
    ensures Room(Committed(reg, r), app, p)
  {
    var t := p.storageId;
    assert Users(Committed(reg, r), t) - {app} <= Users(reg, t) - {app};
    SubsetSize(Users(Committed(reg, r), t) - {app}, Users(reg, t) - {app});
  }

  lemma RequestKeepsLimit(reg: map<nat, Pair>, app: nat, r: Request)
    requires Within(reg) && (r.AddPairing? ==> Room(reg, app, r.pair))
    ensures Within(Committed(reg, r))
  {
    if r.AddPairing? {
      if app !in reg {
        assert Users(reg, r.pair.storageId) - {app} == Users(reg, r.pair.storageId);
      }
      AddKeepsLimitExactly(reg, r.pair);
    } else {
      forall t ensures |Users(Remove(reg, r.pair.appId), t)| <= STORAGE_USE_CNT_LIMIT {
        SubsetSize(Users(Remove(reg, r.pair.appId), t), Users(reg, t));
      }
    }
  }

  lemma CommitKeepsOneApp(s: State, app: nat, k: nat)
    requires OneAppWaiting(s, app) && k < |s.inflight|
    ensures OneAppWaiting(After(s, CommitRequest(k)), app)
  {
    var r, reg, s' := s.inflight[k], Replay(s.log), After(s, CommitRequest(k));
    ReplayOne(s.log, r);
    assert r in s.inflight;
    forall i, p | 0 <= i < |s.nodes| && p in s.nodes[i].queue && IsPaired(p) ensures Room(Replay(s'.log), app, p) {
      RequestKeepsRoom(reg, app, r, p);
    }
    forall q | q in s'.inflight && q.AddPairing? ensures Room(Replay(s'.log), app, q.pair) {
      assert q in s.inflight;
      RequestKeepsRoom(reg, app, r, q.pair);
    }
  }

  lemma CommitKeepsWithin(s: State, app: nat, k: nat)
    requires OneAppWaiting(s, app) && k < |s.inflight| && AllWithin(s.log)
    ensures AllWithin(s.log + [s.inflight[k]])
  {
    var r := s.inflight[k];
    assert r in s.inflight && s.log[..|s.log|] == s.log;
    ReplayOne(s.log, r);
    RequestKeepsLimit(Replay(s.log), app, r);
    var log' := s.log + [r];
    forall n | 0 <= n <= |log'| ensures Within(Replay(log'[..n])) {
      if n <= |s.log| {
        assert log'[..n] == s.log[..n];
      } else {
        assert log'[..n] == log';
      }
    }
  }

  lemma StepKeepsOneApp(home: nat -> nat, s: State, step: Step, app: nat) returns (app': nat)
    requires PlaceInv(s) && Homely(home, s) && OneAppWaiting(s, app) && Enabled(s, step) && Orderly(home, s, step)
    ensures OneAppWaiting(After(s, step), app')
  {
    app' := app;
    match step
    case PairApp(i, a, posts) =>
      DecisionKeepsOneApp(home, s, i, a, posts);
      app' := a;
    case Process(i, leader) => DrainTakes(s.nodes[i].queue, leader);
    case CommitRequest(k) => CommitKeepsOneApp(s, app, k);
    case _ =>
  }

  lemma StepKeepsCapInv(home: nat -> nat, s: State, step: Step)
    requires CapInv(home, s) && Enabled(s, step) && Orderly(home, s, step)
    ensures CapInv(home, After(s, step))
  {
    var app :| OneAppWaiting(s, app);
    StepKeepsPlaceInv(s, step);
    StepKeepsHomely(home, s, step);
    var _ := StepKeepsOneApp(home, s, step, app);
    if step.CommitRequest? {
      CommitKeepsWithin(s, app, step.k);
    }
  }

  lemma {:induction false} RunCapInv(home: nat -> nat, run: seq<State>, steps: seq<Step>, n: nat)
    requires OrderlyRun(home, run, steps) && n < |run|
    ensures CapInv(home, run[n])
  {
    if n == 0 {
      assert OneAppWaiting(run[0], 0);
    } else {
      RunCapInv(home, run, steps, n - 1);
      assert run[n - 1 + 1] == After(run[n - 1], steps[n - 1]);
      StepKeepsCapInv(home, run[n - 1], steps[n - 1]);
    }
  }

  /** In every run in which no addition is on its way when a pairing is decided, and each storage id
      keeps one node, no node's registry ever gives a storage more than two applications. */
  lemma CapacitySafety(home: nat -> nat, run: seq<State>, steps: seq<Step>, n: nat, i: nat, storage: nat)
    requires OrderlyRun(home, run, steps) && n < |run| && i < |run[n].nodes|
    ensures |Users(RegOf(run[n], i), storage)| <= STORAGE_USE_CNT_LIMIT
  {
    RunCapInv(home, run, steps, n);
    assert Within(Replay(run[n].log[..run[n].nodes[i].applied]));
  }

  // ----- one pair for a decision

  /** The registry once every queued proposal has been handled, committed and applied. */
  function Settle(reg: map<nat, Pair>, queue: seq<Pair>): map<nat, Pair>
    decreases |queue|
  {
    if queue == [] then reg else Settle(Committed(reg, Handled(queue[0])), queue[1..])
  }

  lemma {:induction false} SettleParts(reg: map<nat, Pair>, first: seq<Pair>, rest: seq<Pair>)
    ensures Settle(reg, first + rest) == Settle(Settle(reg, first), rest)
    decreases |first|
  {
    if first == [] {
      assert first + rest == rest;
    } else {
      assert (first + rest)[1..] == first[1..] + rest;
      SettleParts(Committed(reg, Handled(first[0])), first[1..], rest);
    }
  }

  /** Of several pairings of one application the first stays and the others are refused. */
  lemma {:induction false} FirstPairingStays(reg: map<nat, Pair>, app: nat, posts: seq<Pair>)
    requires posts != [] && forall p :: p in posts ==> p.appId == app && IsPaired(p)
    ensures Settle(reg, posts) == if app in reg then reg else reg[app := posts[0]]
    decreases |posts|
  {
    assert posts[0] in posts;
    var next := Add(reg, posts[0]);
    assert Settle(reg, posts) == Settle(next, posts[1..]);
    if |posts| > 1 {
      FirstPairingStays(next, app, posts[1..]);
    }
  }

  lemma RemovalSettles(reg: map<nat, Pair>, posts: seq<Pair>, m: nat)
    requires m < |posts| && !IsPaired(posts[m])
    ensures posts[m].appId !in Settle(reg, posts[..m + 1])
  {
    assert posts[..m + 1] == posts[..m] + [posts[m]];
    SettleParts(reg, posts[..m], [posts[m]]);
    var before := Settle(reg, posts[..m]);
    assert Settle(before, [posts[m]]) == Settle(Remove(before, posts[m].appId), []);
  }

  /** A storage registered under the reserved id 0 turns its proposal into a removal. */
  lemma ZeroUndoes(reg: map<nat, Pair>, app: nat, posts: seq<Pair>, m: nat)
    requires app !in reg && m < |posts| && forall p :: p in posts ==> p.appId == app
    requires forall i, j :: 0 <= i < j < |posts| ==> posts[i].storageId != posts[j].storageId
    requires posts[m].storageId == INVALID_VALUE
    ensures Settle(reg, posts) != reg[app := posts[0]]
  {
    var upTo, rest := Settle(reg, posts[..m + 1]), posts[m + 1..];
    assert posts[m] in posts;
    RemovalSettles(reg, posts, m);
    assert posts == posts[..m + 1] + rest;
    SettleParts(reg, posts[..m + 1], rest);
    if rest != [] {
      OthersPaired(app, posts, m);
      FirstPairingStays(upTo, app, rest);
      assert posts[0].storageId != posts[m + 1].storageId;
    }
  }

  lemma OthersPaired(app: nat, posts: seq<Pair>, m: nat)
    requires m < |posts| && posts[m].storageId == INVALID_VALUE && forall p :: p in posts ==> p.appId == app
    requires forall i, j :: 0 <= i < j < |posts| ==> posts[i].storageId != posts[j].storageId
    ensures forall p :: p in posts[m + 1..] ==> p.appId == app && IsPaired(p)
  {
    forall p | p in posts[m + 1..] ensures p.appId == app && IsPaired(p) {
      var k :| m + 1 <= k < |posts| && posts[k] == p;
    }
  }

  /** Once all that one successful decision posted has been committed, the application has the pair
      posted first and nothing else changed, exactly when no suitable storage has the reserved id. */
  lemma SettledDecision(reg: map<nat, Pair>, apps: Apps, storages: Storages, app: nat, posts: seq<Pair>)
    requires Placed(reg) && app !in reg && posts != [] && Decision(reg, apps, storages, app, posts)
    ensures Settle(reg, posts) == reg[app := posts[0]] <==> !Suits(apps, storages, app, INVALID_VALUE)
  {
    DecisionProposes(reg, apps, storages, app, posts);
    if Suits(apps, storages, app, INVALID_VALUE) {
      assert Free(reg, apps, storages, app, INVALID_VALUE);
      assert ListsFree(reg, apps, storages, app, storages.Keys, posts);
      var m :| 0 <= m < |posts| && posts[m] == PairFor(apps, storages, app, INVALID_VALUE);
      ZeroUndoes(reg, app, posts, m);
    } else {
      FirstPairingStays(reg, app, posts);
    }
  }

  // ----- the limit at the decision -----

  /** The first pairing of an application in a queue. */
  function FirstFor(queue: seq<Pair>, app: nat): (p: Option<Pair>)
    ensures p.Some? ==> p.value in queue && p.value.appId == app
    ensures p.None? ==> forall q :: q in queue ==> q.appId != app
    decreases |queue|
  {
    if queue == [] then None else if queue[0].appId == app then Some(queue[0]) else FirstFor(queue[1..], app)
  }

  /** The applications that a queue of pairings will give the storage to. */
  function WaitingFor(reg: map<nat, Pair>, queue: seq<Pair>, storage: nat): set<nat> {
    set p | p in queue && p.appId !in reg && FirstFor(queue, p.appId) == Some(p) && p.storageId == storage :: p.appId
  }

  /** Settling a queue of pairings keeps every entry and adds the first pairing of every other application. */
  lemma {:induction false} SettlePairings(reg: map<nat, Pair>, queue: seq<Pair>, app: nat)
    requires forall p :: p in queue ==> IsPaired(p)
    ensures var r := Settle(reg, queue);
            && (app in r <==> app in reg || FirstFor(queue, app).Some?)
            && (app in reg ==> r[app] == reg[app])
            && (app !in reg && app in r ==> FirstFor(queue, app) == Some(r[app]))
    decreases |queue|
  {
    if queue != [] {
      assert queue[0] in queue;
      SettlePairings(Add(reg, queue[0]), queue[1..], app);
    }
  }

  lemma SettledUsers(reg: map<nat, Pair>, queue: seq<Pair>, storage: nat)
    requires forall p :: p in queue ==> IsPaired(p)
    ensures |Users(Settle(reg, queue), storage)| == |Users(reg, storage)| + |WaitingFor(reg, queue, storage)|
  {
    var r := Settle(reg, queue);
    forall a ensures a in Users(r, storage) <==> a in Users(reg, storage) + WaitingFor(reg, queue, storage) {
      SettlePairings(reg, queue, a);
    }
    assert Users(r, storage) == Users(reg, storage) + WaitingFor(reg, queue, storage);
  }

  /** A queue of pairings will keep the limit exactly when, for every storage, its users and the
      applications waiting for it are within the limit. */
  lemma QueueKeepsLimitExactly(reg: map<nat, Pair>, queue: seq<Pair>)
    requires forall p :: p in queue ==> IsPaired(p)
    ensures Within(Settle(reg, queue)) <==>
            forall t {:trigger Users(reg, t)} ::
              |Users(reg, t)| + |WaitingFor(reg, queue, t)| <= STORAGE_USE_CNT_LIMIT
  {
    forall t {:trigger Users(reg, t)}
      ensures |Users(Settle(reg, queue), t)| == |Users(reg, t)| + |WaitingFor(reg, queue, t)|
    {
      SettledUsers(reg, queue, t);
    }
    if Within(Settle(reg, queue)) {
      forall t {:trigger Users(reg, t)}
        ensures |Users(reg, t)| + |WaitingFor(reg, queue, t)| <= STORAGE_USE_CNT_LIMIT
      {
        assert |Users(Settle(reg, queue), t)| <= STORAGE_USE_CNT_LIMIT;
      }
    } else {
      var t :| |Users(Settle(reg, queue), t)| > STORAGE_USE_CNT_LIMIT;
      assert |Users(reg, t)| + |WaitingFor(reg, queue, t)| > STORAGE_USE_CNT_LIMIT;
    }
  }

  /** Whatever is still queued, a decision keeps the limit exactly when its application is already
      provided for or the storage posted first has room, counting those waiting for it. The source
      counts only the users. */
  lemma DecisionKeepsLimitExactly(reg: map<nat, Pair>, apps: Apps, storages: Storages, app: nat,
                                  queue: seq<Pair>, posts: seq<Pair>)
    requires (forall p :: p in queue ==> IsPaired(p)) && Within(Settle(reg, queue))
    requires posts != [] && Decision(reg, apps, storages, app, posts) && !Suits(apps, storages, app, INVALID_VALUE)
    ensures var s := posts[0].storageId;
            Within(Settle(reg, queue + posts)) <==>
            app in reg || FirstFor(queue, app).Some?
            || |Users(reg, s)| + |WaitingFor(reg, queue, s)| < STORAGE_USE_CNT_LIMIT
  {
    DecisionProposes(reg, apps, storages, app, posts);
    var r := Settle(reg, queue);
    SettleParts(reg, queue, posts);
    SettlePairings(reg, queue, app);
    FirstPairingStays(r, app, posts);
    assert posts[0] in posts && Settle(reg, queue + posts) == Add(r, posts[0]);
    AddKeepsLimitExactly(r, posts[0]);
    SettledUsers(reg, queue, posts[0].storageId);
  }

  // ----- removals -----

  lemma {:induction false} RemovalsSettle(reg: map<nat, Pair>, queue: seq<Pair>)
    requires forall p :: p in queue ==> p == RemovalOf(p.appId)
    ensures Settle(reg, queue) == reg - (set p | p in queue :: p.appId)
    decreases |queue|
  {
    if queue != [] {
      assert queue[0] in queue;
      RemovalsSettle(reg - {queue[0].appId}, queue[1..]);
      assert (set p | p in queue :: p.appId) == {queue[0].appId} + set p | p in queue[1..] :: p.appId;
    }
  }

  /** Once what a removed storage's node proposes is committed, exactly the pairings with that storage are
      gone. */
  lemma StorageRemovalSettles(reg: map<nat, Pair>, storage: nat, posts: seq<Pair>)
    requires RemovesUsers(Users(reg, storage), posts)
    ensures Settle(reg, posts) == map a | a in reg && reg[a].storageId != storage :: reg[a]
  {
    RemovalsSettle(reg, posts);
    assert (set p | p in posts :: p.appId) == Users(reg, storage) by {
      forall a | a in Users(reg, storage) ensures a in set p | p in posts :: p.appId {
        assert RemovalOf(a) in posts;
      }
    }
  }

  /** And so for an application. */
  lemma AppRemovalSettles(reg: map<nat, Pair>, app: nat)
    ensures Settle(reg, [RemovalOf(app)]) == reg - {app}
  {
    assert Settle(reg, [RemovalOf(app)]) == Settle(reg - {app}, []);
  }

  /** Node `i` is the synchronised leader, all it asked for is committed, and it has seen all of it. */
  predicate CaughtUp(s: State, i: nat) {
    i < |s.nodes| && s.inflight == [] && s.nodes[i].applied == |s.log|
  }

  /** The leader handles one proposal; the request is committed and applied. */
  ghost function DrainOne(s: State, i: nat): (s': State)
    requires CaughtUp(s, i) && s.nodes[i].queue != []
    ensures CaughtUp(s', i) && s'.nodes[i].queue == s.nodes[i].queue[1..] && |s'.nodes| == |s.nodes|
    ensures s'.log == s.log + [Handled(s.nodes[i].queue[0])]
  {
    var s1 := After(s, Process(i, seq(|s.nodes[i].queue|, _ => true)));
    After(After(s1, CommitRequest(0)), ApplyNext(i))
  }

  ghost function DrainAll(s: State, i: nat): (s': State)
    requires CaughtUp(s, i)
    ensures |s'.nodes| == |s.nodes|
    decreases |s.nodes[i].queue|
  {
    if s.nodes[i].queue == [] then s else DrainAll(DrainOne(s, i), i)
  }

  lemma {:induction false} DrainAllSettles(s: State, i: nat)
    requires CaughtUp(s, i)
    ensures RegOf(DrainAll(s, i), i) == Settle(RegOf(s, i), s.nodes[i].queue)
    decreases |s.nodes[i].queue|
  {
    assert s.log[..|s.log|] == s.log;
    if s.nodes[i].queue != [] {
      var next := DrainOne(s, i);
      assert next.log[..|next.log|] == next.log;
      ReplayOne(s.log, Handled(s.nodes[i].queue[0]));
      DrainAllSettles(next, i);
    }
  }

  /** In every run, when the synchronised leader with an empty queue decides for an application and
      its proposals are then handled and committed one after the other: a decision that posts nothing
      changes nothing, and one that posts adds exactly the pair posted first, unless a storage on
      another node is registered under the reserved id 0; then it never does. */
  lemma OnePairPerDecision(run: seq<State>, steps: seq<Step>, n: nat, i: nat, app: nat, posts: seq<Pair>)
    requires IsRun(run, steps) && n < |run| && CaughtUp(run[n], i) && run[n].nodes[i].queue == []
    requires Enabled(run[n], PairApp(i, app, posts))
    ensures posts == [] ==> RegOf(DrainAll(After(run[n], PairApp(i, app, posts)), i), i) == RegOf(run[n], i)
    ensures posts != [] ==>
              (RegOf(DrainAll(After(run[n], PairApp(i, app, posts)), i), i) == RegOf(run[n], i)[app := posts[0]] <==>
               !Suits(run[n].nodes[i].apps, run[n].nodes[i].storages, app, INVALID_VALUE))
  {
    var s, s' := run[n], After(run[n], PairApp(i, app, posts));
    PlacementSafety(run, steps, n, i);
    DrainAllSettles(s', i);
    assert s'.nodes[i].queue == posts && RegOf(s', i) == RegOf(s, i);
    if posts != [] {
      SettledDecision(RegOf(s, i), s.nodes[i].apps, s.nodes[i].storages, app, posts);
    }
  }

  // ----- deciding before the queue has drained

  function Last(run: seq<State>): State
    requires run != []
  {
    run[|run| - 1]
  }

  lemma RunOn(run: seq<State>, steps: seq<Step>, step: Step)
    requires IsRun(run, steps) && Enabled(Last(run), step)
    ensures IsRun(run + [After(Last(run), step)], steps + [step])
  {
  }

  lemma {:induction false} RunDrains(run: seq<State>, steps: seq<Step>, i: nat)
    returns (run': seq<State>, steps': seq<Step>)
    requires IsRun(run, steps) && CaughtUp(Last(run), i)
    ensures IsRun(run', steps') && Last(run') == DrainAll(Last(run), i)
    decreases |Last(run).nodes[i].queue|
  {
    run', steps' := run, steps;
    var s := Last(run);
    if s.nodes[i].queue != [] {
      var process := Process(i, seq(|s.nodes[i].queue|, _ => true));
      RunOn(run', steps', process);
      run', steps' := run' + [After(s, process)], steps' + [process];
      RunOn(run', steps', CommitRequest(0));
      run', steps' := run' + [After(Last(run'), CommitRequest(0))], steps' + [CommitRequest(0)];
      RunOn(run', steps', ApplyNext(i));
      run', steps' := run' + [After(Last(run'), ApplyNext(i))], steps' + [ApplyNext(i)];
      assert Last(run') == DrainOne(s, i);
      run', steps' := RunDrains(run', steps', i);
    }
  }

  /** One free storage and `apps` on another node: a decision posts it, whatever is still queued. */
  lemma FreeIsPosted(apps: Apps, storages: Storages, app: nat, s: nat)
    requires storages.Keys == {s} && Suits(apps, storages, app, s)
    ensures Decision(map[], apps, storages, app, [PairFor(apps, storages, app, s)])
  {
  }

  /** Without the draining hypothesis the limit is lost: three applications are decided before the
      first proposal is handled, and all of them are given the same storage. */
  lemma UndrainedOverfills() returns (run: seq<State>, steps: seq<Step>)
    ensures IsRun(run, steps) && |Last(run).nodes| == 1
    ensures |Users(RegOf(Last(run), 0), 7)| > STORAGE_USE_CNT_LIMIT
  {
    var apps: Apps := map[1 := 1, 2 := 1, 3 := 1];
    var storages: Storages := map[7 := StorageInfo(9, "storage")];
    var s0 := State([Node(apps, storages, [], 0)], [], []);
    run, steps := [s0], [];
    var posts := [PairFor(apps, storages, 1, 7), PairFor(apps, storages, 2, 7), PairFor(apps, storages, 3, 7)];
    for k := 0 to 3
      invariant IsRun(run, steps) && Last(run) == SetQueue(s0, 0, posts[..k])
    {
      FreeIsPosted(apps, storages, k + 1, 7);
      var step := PairApp(0, k + 1, [posts[k]]);
      assert RegOf(Last(run), 0) == map[];
      RunOn(run, steps, step);
      assert posts[..k + 1] == posts[..k] + [posts[k]];
      run, steps := run + [After(Last(run), step)], steps + [step];
    }
    var s := Last(run);
    assert s.nodes[0].queue == posts;
    DrainAllSettles(s, 0);
    run, steps := RunDrains(run, steps, 0);
    ThreeSettle(posts[0], posts[1], posts[2]);
    var reg := Settle(map[], posts);
    assert Users(reg, 7) == {1, 2, 3};
  }

  lemma ThreeSettle(p: Pair, q: Pair, r: Pair)
    requires p.appId != q.appId && p.appId != r.appId && q.appId != r.appId
    requires IsPaired(p) && IsPaired(q) && IsPaired(r)
    ensures Settle(map[], [p, q, r]) == map[p.appId := p, q.appId := q, r.appId := r]
  {
    SettleParts(map[], [p], [q, r]);
    SettleParts(map[p.appId := p], [q], [r]);
    assert [p] + [q, r] == [p, q, r] && [q] + [r] == [q, r];
  }
}
