/**
 How much of the mesh may lose its log: exactly fewer than `2t - n` nodes. The safe half is
 `SingleClaim`; this module builds, for every larger budget, a run that claims one id twice.
 */
module ClaimBudget {
  import opened Quorum
  import opened Sets
  import opened AntiNonce
  import opened ClaimMesh
  import L = LineLog

  ghost predicate Reaches(m0: Mesh, m: Mesh) {
    exists evs :: Run(m0, evs) == m
  }

  lemma ReachStep(m0: Mesh, m: Mesh, e: Event)
    requires Reaches(m0, m)
    ensures Reaches(m0, Step(m, e))
  {
    hide Run, Step;
    var evs :| Run(m0, evs) == m;
    RunPush(m0, evs, e);
  }

  /** Node `p` would answer "not seen". */
  predicate Unseen(m: Mesh, p: nat, id: string) {
    p < |m.stores| && id !in m.stores[p].seen
  }

  /** A claim in progress: the last one, running, with no refusal so far. */
  predicate Gathering(m: Mesh, c: nat, id: string) {
    c + 1 == |m.claims| && m.claims[c].id == id && m.claims[c].status == Running && true !in m.claims[c].acks
  }

  /** What stays the same while claim `c` works with the nodes in `s`. */
  ghost predicate SameBut(m: Mesh, m': Mesh, c: nat, s: set<nat>) {
    && |m'.stores| == |m.stores| && m'.forgot == m.forgot && m'.budget == m.budget
    && (forall v: nat :: v < |m.stores| && v !in s ==> m'.stores[v] == m.stores[v])
    && c <= |m.claims| && c + 1 == |m'.claims| && m'.claims[..c] == m.claims[..c]
  }

  lemma ContactOne(m: Mesh, c: nat, p: nat, id: string)
    requires Gathering(m, c, id) && p in m.claims[c].todo && Unseen(m, p, id)
    ensures var m' := Step(m, Contact(c, p, true, Synced));
            && Gathering(m', c, id) && SameBut(m, m', c, {p})
            && m'.claims[c].todo == m.claims[c].todo - {p}
            && |m'.claims[c].acks| == |m.claims[c].acks| + 1
  {
    hide L.Load, L.Fits, L.Terminated;
  }

  /** Every node of `s` acknowledges. */
  lemma {:induction false} ContactAll(m0: Mesh, m: Mesh, c: nat, s: set<nat>, id: string) returns (m': Mesh)
    requires Reaches(m0, m) && Gathering(m, c, id) && s <= m.claims[c].todo
    requires forall p :: p in s ==> Unseen(m, p, id)
    ensures Reaches(m0, m') && Gathering(m', c, id) && SameBut(m, m', c, s)
    ensures m'.claims[c].todo == m.claims[c].todo - s
    ensures |m'.claims[c].acks| == |m.claims[c].acks| + |s|
    decreases s
  {
    hide Reaches, Step;
    if s == {} {
      m' := m;
    } else {
      var p :| p in s;
      var m1 := Step(m, Contact(c, p, true, Synced));
      ReachStep(m0, m, Contact(c, p, true, Synced));
      ContactOne(m, c, p, id);
      m' := ContactAll(m0, m1, c, s - {p}, id);
    }
  }

  /** The claim gives up on everyone left. */
  lemma {:induction false} SkipAll(m0: Mesh, m: Mesh, c: nat, id: string) returns (m': Mesh)
    requires Reaches(m0, m) && Gathering(m, c, id)
    ensures Reaches(m0, m') && Gathering(m', c, id) && SameBut(m, m', c, {})
    ensures m'.claims[c].todo == {} && m'.claims[c].acks == m.claims[c].acks
    decreases m.claims[c].todo
  {
    hide Reaches;
    if m.claims[c].todo == {} {
      m' := m;
    } else {
      var p :| p in m.claims[c].todo;
      ReachStep(m0, m, Skip(c, p));
      m' := SkipAll(m0, Step(m, Skip(c, p)), c, id);
    }
  }

  lemma BeginOne(m: Mesh, v: nat, id: string)
    requires Unseen(m, v, id)
    ensures var m' := Step(m, Begin(v, id, Synced));
            && Gathering(m', |m.claims|, id) && SameBut(m, m', |m.claims|, {v})
            && m'.claims[|m.claims|].todo == Range(0, |m.stores|) - {v} && m'.claims[|m.claims|].acks == []
  {
    hide L.Load, L.Fits, L.Terminated;
  }

  lemma FinishOne(m: Mesh, c: nat, id: string)
    requires Gathering(m, c, id) && m.stores != [] && m.claims[c].todo == {} && 1 + |m.claims[c].acks| >= ClaimMesh.Threshold(m)
    ensures var m' := Step(m, Finish(c));
            Succeeded(m', c, id) && SameBut(m, m', c, {})
  {
  }

  /** Node `v` claims the id with the acks of `s`, a quorum that has not seen it. */
  lemma ClaimWith(m0: Mesh, m: Mesh, v: nat, s: set<nat>, id: string) returns (m': Mesh)
    requires Reaches(m0, m) && m.stores != [] && v in s && s <= Range(0, |m.stores|) && |s| >= ClaimMesh.Threshold(m)
    requires forall p :: p in s ==> Unseen(m, p, id)
    ensures Reaches(m0, m') && SameBut(m, m', |m.claims|, s) && Succeeded(m', |m.claims|, id)
  {
    hide Reaches, Step, Range;
    var c := |m.claims|;
    ReachStep(m0, m, Begin(v, id, Synced));
    BeginOne(m, v, id);
    var m1 := Step(m, Begin(v, id, Synced));
    assert s == {v} + (s - {v});
    var m2 := ContactAll(m0, m1, c, s - {v}, id);
    var m3 := SkipAll(m0, m2, c, id);
    ReachStep(m0, m3, Finish(c));
    FinishOne(m3, c, id);
    m' := Step(m3, Finish(c));
  }

  /** The nodes of `f` lose their logs while no claim is running. */
  lemma {:induction false} ForgetAll(m0: Mesh, m: Mesh, f: set<nat>) returns (m': Mesh)
    requires Reaches(m0, m) && f <= Range(0, |m.stores|) && |m.forgot| + |f| <= m.budget
    requires forall c :: 0 <= c < |m.claims| ==> m.claims[c].status != Running
    ensures Reaches(m0, m') && m'.claims == m.claims && m'.budget == m.budget && |m'.stores| == |m.stores|
    ensures forall v: nat :: v < |m.stores| ==> m'.stores[v] == if v in f then EMPTY else m.stores[v]
    decreases f
  {
    hide Reaches;
    if f == {} {
      m' := m;
    } else {
      var v :| v in f;
      var m1 := Step(m, Forget(v));
      ReachStep(m0, m, Forget(v));
      assert |m.forgot + {v}| <= |m.forgot| + 1;
      assert |f - {v}| == |f| - 1;
      assert m1.claims == m.claims;
      m' := ForgetAll(m0, m1, f - {v});
    }
  }

  /** Some run of an n-node mesh in which at most `budget` nodes lose their log claims the id twice. */
  ghost predicate ClaimedTwice(n: nat, budget: nat, id: string) {
    exists evs, c, d :: c != d && Succeeded(Run(Init(n, budget), evs), c, id) && Succeeded(Run(Init(n, budget), evs), d, id)
  }

  lemma InitFacts(n: nat, budget: nat, id: string)
    ensures var m := Init(n, budget);
            && Reaches(m, m) && |m.stores| == n && m.claims == [] && m.forgot == {} && m.budget == budget
            && (forall p: nat :: p < n ==> m.stores[p] == EMPTY)
            && (forall p: nat :: p < n ==> Unseen(m, p, id))
  {
    Started(Init(n, budget));
    hide Reaches;
  }

  /** The first claim is acknowledged by the lowest `t` nodes, whose common part with the highest `t` then forgets. */
  lemma FirstClaim(n: nat, budget: nat, id: string) returns (m: Mesh)
    requires n > 0 && budget >= 2 * ClaimQuorum(n - 1) - n
    ensures Reaches(Init(n, budget), m) && |m.stores| == n && |m.claims| == 1 && Succeeded(m, 0, id)
    ensures forall p: nat :: n - ClaimQuorum(n - 1) <= p < n ==> Unseen(m, p, id)
  {
    hide Reaches, Range, Init, ClaimQuorum, Unseen;
    var t := ClaimQuorum(n - 1);
    InitFacts(n, budget, id);
    var m0 := Init(n, budget);
    var m1 := ClaimWith(m0, m0, 0, Range(0, t), id);
    m := ForgetAll(m0, m1, Range(n - t, t));
    forall p: nat | n - t <= p < n ensures Unseen(m, p, id) {
      EmptyUnseen(m, p, id);
    }
  }

  lemma EmptyUnseen(m: Mesh, p: nat, id: string)
    requires p < |m.stores| && m.stores[p] == EMPTY
    ensures Unseen(m, p, id)
  {
  }

  lemma ClaimTwice(n: nat, budget: nat, id: string)
    requires n > 0 && budget >= 2 * ClaimQuorum(n - 1) - n
    ensures ClaimedTwice(n, budget, id)
  {
    hide Reaches, Step, Run, Range, Init, Unseen, ClaimedTwice;
    var t := ClaimQuorum(n - 1);
    var m1 := FirstClaim(n, budget, id);
    var m2 := ClaimWith(Init(n, budget), m1, n - 1, Range(n - t, n), id);
    assert m2.claims[0] == m2.claims[..1][0] == m1.claims[..1][0];
    Reached(Init(n, budget), m2, n, budget, id);
  }

  lemma Started(m0: Mesh)
    ensures Reaches(m0, m0)
  {
    RunNone(m0);
  }

  lemma Reached(m0: Mesh, m: Mesh, n: nat, budget: nat, id: string)
    requires m0 == Init(n, budget) && Reaches(m0, m) && Succeeded(m, 0, id) && Succeeded(m, 1, id)
    ensures ClaimedTwice(n, budget, id)
  {
    hide Run;
    var evs :| Run(m0, evs) == m;
  }

  /**
   The exact tolerance: for an id that fits the log, some run claims it twice if and only if at
   least `2t - n` nodes may lose their log.
   */
  lemma ToleranceExact(n: nat, budget: nat, id: string)
    requires n > 0 && L.Fits(id, false)
    ensures ClaimedTwice(n, budget, id) <==> budget >= 2 * ClaimQuorum(n - 1) - n
  {
    hide Run, Step, L.Load, L.Fits, L.Terminated;
    if budget >= 2 * ClaimQuorum(n - 1) - n {
      ClaimTwice(n, budget, id);
    } else if ClaimedTwice(n, budget, id) {
      var evs, c, d :| c != d && Succeeded(Run(Init(n, budget), evs), c, id) && Succeeded(Run(Init(n, budget), evs), d, id);
      SingleClaim(n, budget, evs, id, c, d);
    }
  }
}
