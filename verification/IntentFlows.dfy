/**
 Reserve, then commit: the flow of the intent gate over the mesh. `commit_consume` answers Ok as soon as
 the id is consumed on its own node, so an Ok commit need not stand on a consume claim that succeeded;
 what keeps two flows of one id apart is the reserve exclusion.
 */
module IntentFlows {
  import opened Wrappers
  import opened Quorum
  import opened Sets
  import opened BucketLedger
  import opened IntentMesh
  import L = LineLog

  /** Commit `k` has answered Ok: at once, or because its own consume claim succeeded. */
  predicate Completed(m: Mesh, k: nat) {
    k < |m.commits| && match m.commits[k].claim
                       case None => true
                       case Some(c) => c < |m.claims| && m.claims[c].status == Done(Ok(()))
  }

  /** The commit of the flow that reserve claim `c` began. */
  predicate FlowOf(m: Mesh, k: nat, c: nat, id: string) {
    Completed(m, k) && m.commits[k].reserve == c && c < |m.claims| && m.claims[c].id == id
  }

  ghost predicate CommitKnown(m: Mesh, k: Commit) {
    && k.reserve < |m.claims| && m.claims[k.reserve].phase.Reserving? && m.claims[k.reserve].status == Done(Ok(()))
    && (k.claim.Some? ==>
          && k.claim.value < |m.claims| && m.claims[k.claim.value].phase.Consuming?
          && m.claims[k.claim.value].id == m.claims[k.reserve].id
          && m.claims[k.claim.value].node == m.claims[k.reserve].node)
  }

  ghost predicate CommitsKnown(m: Mesh) {
    forall k :: 0 <= k < |m.commits| ==> CommitKnown(m, m.commits[k])
  }

  lemma OtherCommits(m: Mesh, e: Event)
    requires !e.CommitReserved?
    ensures Step(m, e).commits == m.commits
  {
    hide Held, GiveBack, L.Load, Range, Sweep, Blocked, Consume, Release;
  }

  lemma CommitStays(m: Mesh, e: Event, k: Commit)
    requires CommitKnown(m, k)
    ensures CommitKnown(Step(m, e), k)
  {
    hide Step;
    ClaimEvolves(m, e, k.reserve);
    if k.claim.Some? {
      ClaimEvolves(m, e, k.claim.value);
    }
  }

  lemma CommitsStep(m: Mesh, e: Event)
    requires CommitsKnown(m)
    ensures CommitsKnown(Step(m, e))
  {
    hide CommitKnown, Range;
    var m' := Step(m, e);
    forall k | 0 <= k < |m'.commits| ensures CommitKnown(m', m'.commits[k]) {
      if k < |m.commits| {
        CommitStays(m, e, m.commits[k]);
      }
      if e.CommitReserved? {
        NewCommit(m, e);
      } else {
        OtherCommits(m, e);
      }
    }
  }

  lemma NewCommit(m: Mesh, e: Event)
    requires e.CommitReserved?
    ensures var m' := Step(m, e);
            || m' == m
            || (|m'.commits| == |m.commits| + 1 && m'.commits[..|m.commits|] == m.commits
                && CommitKnown(m', m'.commits[|m.commits|]))
  {
  }

  lemma {:induction false} RunCommits(n: nat, policies: map<Kind, Policy>, budget: nat, evs: seq<Event>)
    ensures CommitsKnown(Run(Init(n, policies, budget), evs))
  {
    hide Step;
    if evs != [] {
      RunCommits(n, policies, budget, evs[..|evs| - 1]);
      CommitsStep(Run(Init(n, policies, budget), evs[..|evs| - 1]), evs[|evs| - 1]);
    }
  }

  /**
   At most one reserve-then-commit flow of an id completes on the whole mesh while fewer than `2t - n`
   nodes have lost a reservation of it, however the commits came by their answer and however many logs
   are lost.
   */
  lemma SingleFlow(n: nat, policies: map<Kind, Policy>, budget: nat, evs: seq<Event>, id: string,
                   k: nat, c: nat, l: nat, d: nat)
    requires n > 0
    requires |LapsedAt(Run(Init(n, policies, budget), evs), id)| < 2 * ClaimQuorum(n - 1) - n
    requires FlowOf(Run(Init(n, policies, budget), evs), k, c, id)
    requires FlowOf(Run(Init(n, policies, budget), evs), l, d, id)
    ensures c == d
  {
    hide Run, Init, LapsedAt;
    var m := Run(Init(n, policies, budget), evs);
    RunCommits(n, policies, budget, evs);
    assert CommitKnown(m, m.commits[k]) && CommitKnown(m, m.commits[l]);
    SingleReserve(n, policies, budget, evs, id, c, d);
  }
}
