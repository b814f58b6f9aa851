/** Quorum arithmetic behind every "burn once" claim. */
module Quorum {
  import opened Sets

  /** `ceil(2n/3)`: the least `t` with `3t >= 2n`. */
  function TwoThirds(n: nat): (t: nat)
    ensures 3 * t >= 2 * n
    ensures t > 0 ==> 3 * (t - 1) < 2 * n
  {
    (2 * n + 2) / 3
  }

  /** Quorum of a node configured with `peers` peers; a solo node needs only itself. */
  function ClaimQuorum(peers: nat): (t: nat)
    ensures 1 <= t <= peers + 1
    ensures 2 * t > peers + 1
  {
    if peers == 0 then 1 else TwoThirds(peers + 1)
  }

  /** Two quorums of the same mesh share at least `2t - n` nodes. */
  lemma QuorumOverlap<T>(nodes: set<T>, a: set<T>, b: set<T>, t: nat)
    requires a <= nodes && b <= nodes
    requires |a| >= t && |b| >= t
    ensures |a * b| >= 2 * t - |nodes|
  {
    assert |a + b| + |a * b| == |a| + |b|;
    SubsetSize(a + b, nodes);
  }

  /** If fewer than `2t - n` nodes are unreliable, two quorums share a reliable node. */
  lemma ReliableWitness<T>(nodes: set<T>, a: set<T>, b: set<T>, unreliable: set<T>, t: nat) returns (v: T)
    requires a <= nodes && b <= nodes
    requires |a| >= t && |b| >= t
    requires |unreliable| < 2 * t - |nodes|
    ensures v in a && v in b && v !in unreliable
  {
    QuorumOverlap(nodes, a, b, t);
    var reliable := a * b - unreliable;
    SubsetSize(a * b, unreliable + reliable);
    v :| v in reliable;
  }
}
