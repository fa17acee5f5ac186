/** Majorities and quorum-connected members: why two of them always meet. */
module Quorum {

  /** The size both majority tests and the connectivity test ask for (src/ccm/gmm/GMM.cpp:462, 501, 627). */
  function QuorumSize(n: nat): nat { n / 2 + 1 }

  lemma SubsetSize<T>(a: set<T>, b: set<T>)
    requires a <= b
    ensures |a| <= |b|
  {
    assert b == a + (b - a);
  }

  /** Two quorums of the same membership share a member. */
  lemma QuorumsMeet(members: set<int>, a: set<int>, b: set<int>)
    requires a <= members && b <= members
    requires |a| >= QuorumSize(|members|) && |b| >= QuorumSize(|members|)
    ensures exists k :: k in a && k in b
  {
    if !exists k :: k in a && k in b {
      assert a !! b;
      assert |a + b| == |a| + |b|;
      SubsetSize(a + b, members);
    }
  }

  /** What a quorum-connected member can reach: its connection bits and itself. */
  function Reach(id: int, connections: set<int>): set<int> { connections + {id} }

  predicate QuorumConnected(n: nat, connections: set<int>) { |connections| + 1 >= QuorumSize(n) }

  /** Two quorum-connected members with proper connection bits share a reachable member. */
  lemma QuorumConnectedMeet(members: set<int>, i: int, ci: set<int>, j: int, cj: set<int>)
    requires i in members && ci <= members && i !in ci && QuorumConnected(|members|, ci)
    requires j in members && cj <= members && j !in cj && QuorumConnected(|members|, cj)
    ensures exists k :: k in members && k in Reach(i, ci) && k in Reach(j, cj)
  {
    QuorumsMeet(members, Reach(i, ci), Reach(j, cj));
  }

  /** A member's bits count it as quorum-connected exactly when it reaches a quorum, or when it
      carries its own bit and reaches one member short of a quorum. */
  lemma QuorumConnectedExactly(members: set<int>, i: int, ci: set<int>)
    requires i in members && ci <= members
    ensures QuorumConnected(|members|, ci) <==>
            |Reach(i, ci)| >= QuorumSize(|members|) || (i in ci && |Reach(i, ci)| == QuorumSize(|members|) - 1)
  {
    if i in ci {
      assert Reach(i, ci) == ci;
    }
  }

  /** The own-bit condition is needed: of four members, two that carry their own bits pass the test
      and share nobody. */
  lemma OwnBitExample()
    ensures var members := {1, 2, 3, 4};
            && QuorumConnected(|members|, {1, 2}) && QuorumConnected(|members|, {3, 4})
            && Reach(1, {1, 2}) * Reach(3, {3, 4}) == {}
  {
  }

  /** Distinct images of a set are as many as its elements. */
  lemma {:induction false} InjectiveImageSize<T(!new)>(s: set<T>, f: T -> int, image: set<int>)
    requires forall x, y :: x in s && y in s && f(x) == f(y) ==> x == y
    requires forall k :: k in image <==> exists x :: x in s && f(x) == k
    ensures |image| == |s|
    decreases s
  {
    if s == {} {
      forall k ensures k !in image {
      }
      assert image == {};
    } else {
      var x :| x in s;
      var s', image' := s - {x}, image - {f(x)};
      forall k | k in image' ensures exists y :: y in s' && f(y) == k {
        var y :| y in s && f(y) == k;
      }
      InjectiveImageSize(s', f, image');
    }
  }
}
