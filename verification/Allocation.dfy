/** What the storage allocator decides (src/psrm/assp/ASSP.cpp), how its proposals are queued
    (src/psrm/sspr/SSPR.cpp) and what a committed request does to the registry. */
module Allocation {
  import opened LogModel
  import opened PairRegistry

  const STORAGE_USE_CNT_LIMIT: nat := 2

  datatype StorageInfo = StorageInfo(node: nat, ip: string)
  datatype Request = AddPairing(pair: Pair) | RemovePairing(pair: Pair)

  /** A call of the change callback. The source names the flag `isRemoved` and passes true for an
      addition; the flag here is what is passed. */
  datatype Change = Change(pair: Pair, flag: bool)

  /** The primary node of every known application. */
  type Apps = map<nat, nat>

  type Storages = map<nat, StorageInfo>

  /** Both are known, and on different nodes. */
  predicate Suits(apps: Apps, storages: Storages, app: nat, s: nat) {
    app in apps && s in storages && apps[app] != storages[s].node
  }

  function PairFor(apps: Apps, storages: Storages, app: nat, s: nat): Pair
    requires Suits(apps, storages, app, s)
  {
    Pair(app, s, storages[s].ip, storages[s].node, apps[app])
  }

  function RemovalOf(app: nat): Pair { Pair(app, INVALID_VALUE, "NONE", INVALID_VALUE, INVALID_VALUE) }

  predicate Proposes(apps: Apps, storages: Storages, app: nat, p: Pair) {
    Suits(apps, storages, app, p.storageId) && p == PairFor(apps, storages, app, p.storageId)
  }

  /** A suitable storage nobody uses. */
  predicate Free(reg: map<nat, Pair>, apps: Apps, storages: Storages, app: nat, s: nat) {
    Suits(apps, storages, app, s) && Users(reg, s) == {}
  }

  /** One proposal for each free storage in `among`, in any order. */
  ghost predicate ListsFree(reg: map<nat, Pair>, apps: Apps, storages: Storages, app: nat, among: set<nat>,
                            posts: seq<Pair>)
  {
    && (forall p :: p in posts ==>
          Proposes(apps, storages, app, p) && Free(reg, apps, storages, app, p.storageId) && p.storageId in among)
    && (forall i, j :: 0 <= i < j < |posts| ==> posts[i].storageId != posts[j].storageId)
    && (forall s :: s in among && Free(reg, apps, storages, app, s) ==> PairFor(apps, storages, app, s) in posts)
  }

  /** At most one proposal: the least-used storage the search found, if it has room and suits. */
  ghost predicate SharesUsed(reg: map<nat, Pair>, apps: Apps, storages: Storages, app: nat, posts: seq<Pair>) {
    if app !in apps then posts == []
    else exists found: Option<nat>, useCnt: nat ::
      && LowestElsewhere(reg, apps[app], found, useCnt)
      && if found.Some? && useCnt < STORAGE_USE_CNT_LIMIT && Suits(apps, storages, app, found.value)
         then posts == [PairFor(apps, storages, app, found.value)]
         else posts == []
  }

  /** What one pairing decision may post. It reports success exactly when that is something. */
  ghost predicate Decision(reg: map<nat, Pair>, apps: Apps, storages: Storages, app: nat, posts: seq<Pair>) {
    || (posts != [] && ListsFree(reg, apps, storages, app, storages.Keys, posts))
    || (ListsFree(reg, apps, storages, app, storages.Keys, []) && SharesUsed(reg, apps, storages, app, posts))
  }

  /** One removal for each of the users, in any order. */
  ghost predicate RemovesUsers(users: set<nat>, posts: seq<Pair>) {
    && (forall p :: p in posts ==> p.appId in users && p == RemovalOf(p.appId))
    && (forall i, j :: 0 <= i < j < |posts| ==> posts[i].appId != posts[j].appId)
    && (forall a :: a in users ==> RemovalOf(a) in posts)
  }

  /** The request made of a queued proposal. */
  function Handled(p: Pair): Request { if IsPaired(p) then AddPairing(p) else RemovePairing(p) }

  /** One call of the draining loop: proposals are dropped until the node answers that it is the
      synchronised leader, and the one then at hand is handled. */
  function Drain(queue: seq<Pair>, leader: seq<bool>): (r: (seq<Pair>, seq<Request>))
    requires |leader| == |queue|
    ensures |r.0| + |r.1| <= |queue| && |r.1| <= 1
    ensures r.0 == queue[|queue| - |r.0|..]
    ensures r.1 != [] ==> |r.0| < |queue| && r.1 == [Handled(queue[|queue| - |r.0| - 1])]
    ensures true !in leader ==> r == ([], [])
  {
    if queue == [] then ([], [])
    else if leader[0] then (queue[1..], [Handled(queue[0])])
    else Drain(queue[1..], leader[1..])
  }

  /** The proposal handled is the one at hand at the first answer that the node is the leader. */
  lemma {:induction false} DrainHandlesFirst(queue: seq<Pair>, leader: seq<bool>, k: nat)
    requires |leader| == |queue| && k < |queue| && leader[k] && true !in leader[..k]
    ensures Drain(queue, leader) == (queue[k + 1..], [Handled(queue[k])])
  {
    if k > 0 {
      assert leader[0] in leader[..k];
      assert leader[1..][..k - 1] == leader[..k][1..];
      DrainHandlesFirst(queue[1..], leader[1..], k - 1);
    }
  }

  /** What a committed request does to the registry. */
  function Committed(reg: map<nat, Pair>, r: Request): map<nat, Pair> {
    if r.AddPairing? then Add(reg, r.pair) else Remove(reg, r.pair.appId)
  }

  function Replay(log: seq<Request>): map<nat, Pair> {
    if log == [] then map[] else Committed(Replay(log[..|log| - 1]), log[|log| - 1])
  }

  /** The registry as a listener rebuilds it from the callbacks. */
  function Listen(changes: seq<Change>): map<nat, Pair> {
    if changes == [] then map[]
    else
      var reg, c := Listen(changes[..|changes| - 1]), changes[|changes| - 1];
      if c.flag then reg[c.pair.appId := c.pair] else reg - {c.pair.appId}
  }

  lemma ListenToOne(changes: seq<Change>, c: Change)
    ensures Listen(changes + [c])
         == if c.flag then Listen(changes)[c.pair.appId := c.pair] else Listen(changes) - {c.pair.appId}
  {
  }

  lemma ReplayOne(log: seq<Request>, r: Request)
    ensures Replay(log + [r]) == Committed(Replay(log), r)
  {
  }

  // ----- what the registry holds, said of the request log alone

  predicate Removes(r: Request, a: nat) { r.RemovePairing? && r.pair.appId == a }

  predicate Adds(r: Request, a: nat) { r.AddPairing? && r.pair.appId == a }

  /** Every addition of `a` before position `k` was followed by a removal of `a` before `k`. */
  ghost predicate OpenAt(log: seq<Request>, a: nat, k: nat)
    requires k <= |log|
  {
    forall i :: 0 <= i < k && Adds(log[i], a) ==> exists m :: i < m < k && Removes(log[m], a)
  }

  /** The request at `k` is the first addition of `a` since its last removal. */
  ghost predicate Standing(log: seq<Request>, a: nat, p: Pair, k: nat) {
    && k < |log| && log[k] == AddPairing(p) && p.appId == a
    && OpenAt(log, a, k)
    && forall m :: k < m < |log| ==> !Removes(log[m], a)
  }

  /** The end of the log is open for `a` exactly when the registry has no entry for it. */
  lemma {:induction false} OpenMeaning(log: seq<Request>, a: nat)
    ensures OpenAt(log, a, |log|) <==> a !in Replay(log)
  {
    if log != [] {
      var front, r := log[..|log| - 1], log[|log| - 1];
      OpenMeaning(front, a);
      assert forall i :: 0 <= i < |front| ==> front[i] == log[i];
      assert log[|front|] == r;
      if Removes(r, a) {
        assert OpenAt(log, a, |log|);
      } else if Adds(r, a) {
        assert !OpenAt(log, a, |log|);
      } else {
        assert OpenAt(log, a, |log|) <==> OpenAt(front, a, |front|);
      }
    }
  }

  lemma StandingLater(log: seq<Request>, a: nat, p: Pair, k: nat, r: Request)
    requires k < |log|
    ensures Standing(log + [r], a, p, k) <==> Standing(log, a, p, k) && !Removes(r, a)
  {
    var longer := log + [r];
    assert forall i :: 0 <= i < |log| ==> log[i] == longer[i];
    assert longer[|log|] == r;
    assert OpenAt(log, a, k) <==> OpenAt(longer, a, k);
  }

  /** The registry holds `p` for `a` exactly when the log holds a standing addition of it. */
  lemma {:induction false} RegistryMeaning(log: seq<Request>, a: nat, p: Pair)
    ensures a in Replay(log) && Replay(log)[a] == p <==> exists k :: Standing(log, a, p, k)
  {
    if log != [] {
      var front, r := log[..|log| - 1], log[|log| - 1];
      RegistryMeaning(front, a, p);
      OpenMeaning(front, a);
      assert forall i :: 0 <= i < |front| ==> front[i] == log[i];
      assert log[|front|] == r;
      assert OpenAt(log, a, |front|) <==> OpenAt(front, a, |front|);
      assert Standing(log, a, p, |front|) <==> r == AddPairing(p) && p.appId == a && a !in Replay(front);
      forall k | 0 <= k < |front| ensures Standing(log, a, p, k) <==> Standing(front, a, p, k) && !Removes(r, a) {
        StandingLater(front, a, p, k, r);
        assert log == front + [r];
      }
      if exists k :: Standing(front, a, p, k) && !Removes(r, a) {
        var k :| Standing(front, a, p, k) && !Removes(r, a);
        assert Standing(log, a, p, k);
      }
    }
  }
}
