/** The readiness quorum on block heights (api/http.py). */
module Readiness {

  predicate Near(height: int, local: int) {
    -1 <= height - local <= 1
  }

  function Agreeing(peers: seq<int>, local: int): nat
    decreases |peers|
  {
    if peers == [] then 0
    else Agreeing(peers[..|peers| - 1], local) + if Near(peers[|peers| - 1], local) then 1 else 0
  }

  /** A strict majority of the peers is within one block of the local height. */
  predicate QuorumHeightAligned(local: int, peers: seq<int>) {
    peers != [] && Agreeing(peers, local) * 2 > |peers|
  }

  /** Two counts that add up to more than the peers share a peer. */
  lemma {:induction false} SharedPeer(peers: seq<int>, a: int, b: int) returns (i: nat)
    requires Agreeing(peers, a) + Agreeing(peers, b) > |peers|
    ensures i < |peers| && Near(peers[i], a) && Near(peers[i], b)
    decreases |peers|
  {
    i := |peers| - 1;
    if !(Near(peers[i], a) && Near(peers[i], b)) {
      i := SharedPeer(peers[..i], a, b);
    }
  }

  /** Two local heights that are both ready against one list of peers differ by at most 2. */
  lemma AlignedHeightsAreClose(a: int, b: int, peers: seq<int>)
    requires QuorumHeightAligned(a, peers) && QuorumHeightAligned(b, peers)
    ensures -2 <= a - b <= 2
  {
    var i := SharedPeer(peers, a, b);
    assert Near(peers[i], a) && Near(peers[i], b);
  }

  /** The bound is the best there is: any two heights at most 2 apart are both ready
      against some list. */
  lemma ClosenessIsTight(a: int, b: int)
    ensures -2 <= a - b <= 2 <==> exists peers :: QuorumHeightAligned(a, peers) && QuorumHeightAligned(b, peers)
  {
    if -2 <= a - b <= 2 {
      var peers := [(a + b) / 2];
      assert Agreeing(peers[..0], a) == 0 && Agreeing(peers[..0], b) == 0;
      assert QuorumHeightAligned(a, peers) && QuorumHeightAligned(b, peers);
    }
    forall peers | QuorumHeightAligned(a, peers) && QuorumHeightAligned(b, peers) ensures -2 <= a - b <= 2 {
      AlignedHeightsAreClose(a, b, peers);
    }
  }
}
