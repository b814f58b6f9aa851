/**
 Where the guarantees of the intent mesh end, for every mesh size: runs without any release, lost log or
 TTL expiry in which `2t - n` reboots let two reserves, and two whole flows, of one id succeed, and a run
 without any lapse in which a commit answers Ok although its consume claim failed.
 */
module IntentGaps {
  import opened Wrappers
  import opened Quorum
  import opened Sets
  import opened BucketLedger
  import opened QuorumBucket
  import opened IntentMesh
  import opened IntentFlows
  import AN = AntiNonce
  import L = LineLog

  type Policies = map<Kind, Policy>

  /** Nothing is released or forgotten, and the clock stands still, so nothing expires. */
  predicate Quiet(evs: seq<Event>) {
    forall e :: e in evs ==>
      !e.ReleaseAt? && !e.Forget? && (e.OpenReserve? ==> e.now == 0) && (e.SoftAsk? ==> e.now == 0)
  }

  ghost predicate Reaches(m0: Mesh, m: Mesh) {
    exists evs :: Quiet(evs) && Run(m0, evs) == m
  }

  lemma ReachStep(m0: Mesh, m: Mesh, e: Event)
    requires Reaches(m0, m) && Quiet([e])
    ensures Reaches(m0, Step(m, e))
  {
    hide Run, Step;
    var evs :| Quiet(evs) && Run(m0, evs) == m;
    assert e in [e];
    RunPush(m0, evs, e);
  }

  lemma RunPush(m: Mesh, evs: seq<Event>, e: Event)
    ensures Run(m, evs + [e]) == Step(Run(m, evs), e)
  {
    hide Step;
    assert (evs + [e])[..|evs + [e]| - 1] == evs;
  }

  /** A node that has burned nothing and whose holds have not expired at time 0. */
  predicate Unburned(s: Node, policies: Policies) {
    && s.b.policies == policies && s.b.consumed == {} && s.log == ""
    && forall id :: id in s.b.reserved ==> s.b.reserved[id].expires > 0
  }

  predicate AllUnburned(m: Mesh, policies: Policies) {
    forall v :: 0 <= v < |m.nodes| ==> Unburned(m.nodes[v], policies)
  }

  predicate Unblocked(m: Mesh, p: nat, id: string) {
    p < |m.nodes| && id !in m.nodes[p].b.consumed && id !in m.nodes[p].b.reserved
  }

  /** A reserve in progress: the last claim, running, with no refusal so far. */
  predicate Gathering(m: Mesh, c: nat, id: string) {
    && c + 1 == |m.claims| && m.claims[c].id == id && m.claims[c].phase.Reserving? && m.claims[c].status == Running
    && true !in m.claims[c].acks && m.claims[c].node < |m.nodes| && m.claims[c].node !in m.claims[c].todo
  }

  /** What stays the same while claim `c` works with the nodes in `s`. */
  ghost predicate SameBut(m: Mesh, m': Mesh, c: nat, s: set<nat>) {
    && |m'.nodes| == |m.nodes| && m'.reqs == m.reqs && m'.commits == m.commits && m'.lapsed == m.lapsed
    && (forall v: nat :: v < |m.nodes| && v !in s ==> m'.nodes[v] == m.nodes[v])
    && c <= |m.claims| && c + 1 == |m'.claims| && m'.claims[..c] == m.claims[..c]
  }

  lemma SweepIdle(s: Node, policies: Policies)
    requires Unburned(s, policies)
    ensures Sweep(s.b, 0) == s.b
  {
    assert Expired(s.b.reserved, 0) == map[] && Unexpired(s.b.reserved, 0) == s.b.reserved;
    assert GiveBack(s.b.spent, map[]) == s.b.spent;
  }

  /** Setting a node to one that blocks at least as much lapses nothing. */
  lemma NothingLost(m: Mesh, v: nat, s: Node)
    requires v < |m.nodes| && Blocked(m.nodes[v].b) <= Blocked(s.b)
    ensures SetNode(m, v, s) == m.(nodes := m.nodes[v := s])
  {
    assert Lost(v, Blocked(m.nodes[v].b) - Blocked(s.b)) == {};
  }

  lemma SweptIdle(m: Mesh, v: nat, policies: Policies)
    requires v < |m.nodes| && Unburned(m.nodes[v], policies)
    ensures Swept(m, v, 0) == m
  {
    hide Sweep, Blocked;
    SweepIdle(m.nodes[v], policies);
    NothingLost(m, v, m.nodes[v].(b := Sweep(m.nodes[v].b, 0)));
  }

  // ---------- one reserve ----------

  lemma OpenOne(m: Mesh, policies: Policies, k: Kind, v: nat, id: string)
    requires AllUnburned(m, policies) && Unblocked(m, v, id) && k in policies
    ensures var m' := Step(m, OpenReserve(v, id, k, 1, 0, true));
            var c := |m.claims|;
            && Gathering(m', c, id) && SameBut(m, m', c, {v}) && AllUnburned(m', policies)
            && m'.claims[c].todo == Range(0, |m.nodes|) - {v} && m'.claims[c].acks == [] && m'.claims[c].node == v
  {
    hide Sweep, L.Load, Range;
    SweepIdle(m.nodes[v], policies);
    SweptIdle(m, v, policies);
    NothingLost(m, v, m.nodes[v].(b := HoldIt(m.nodes[v].b, id, k, 1, 0)));
  }

  lemma SoftOne(m: Mesh, policies: Policies, c: nat, p: nat, id: string)
    requires AllUnburned(m, policies) && Gathering(m, c, id) && p in m.claims[c].todo && Unblocked(m, p, id)
    ensures var m' := Step(m, SoftAsk(c, p, 0, true));
            && Gathering(m', c, id) && SameBut(m, m', c, {p}) && AllUnburned(m', policies)
            && m'.claims[c].todo == m.claims[c].todo - {p} && m'.claims[c].node == m.claims[c].node
            && |m'.claims[c].acks| == |m.claims[c].acks| + 1
  {
    hide Sweep, L.Load, Range;
    SweepIdle(m.nodes[p], policies);
    SweptIdle(m, p, policies);
    NothingLost(m, p, m.nodes[p].(b := SoftHold(m.nodes[p].b, id, 0).0));
    AcksGrow(m.claims[c].acks, false);
  }

  /** Every node of `s` grants the reserve. */
  lemma {:induction false} SoftAll(m0: Mesh, m: Mesh, policies: Policies, c: nat, s: set<nat>, id: string) returns (m': Mesh)
    requires Reaches(m0, m) && AllUnburned(m, policies) && Gathering(m, c, id) && s <= m.claims[c].todo
    requires forall p :: p in s ==> Unblocked(m, p, id)
    ensures Reaches(m0, m') && AllUnburned(m', policies) && Gathering(m', c, id) && SameBut(m, m', c, s)
    ensures m'.claims[c].todo == m.claims[c].todo - s && m'.claims[c].node == m.claims[c].node
    ensures |m'.claims[c].acks| == |m.claims[c].acks| + |s|
    decreases s
  {
    hide Reaches, Step, AllUnburned;
    if s == {} {
      m' := m;
    } else {
      var p :| p in s;
      var m1 := Step(m, SoftAsk(c, p, 0, true));
      ReachStep(m0, m, SoftAsk(c, p, 0, true));
      SoftOne(m, policies, c, p, id);
      m' := SoftAll(m0, m1, policies, c, s - {p}, id);
    }
  }

  /** A claim that runs gives up on everyone left. */
  lemma {:induction false} SkipAll(m0: Mesh, m: Mesh, c: nat) returns (m': Mesh)
    requires Reaches(m0, m) && c + 1 == |m.claims| && m.claims[c].status == Running
    requires m.claims[c].node !in m.claims[c].todo
    ensures Reaches(m0, m') && SameBut(m, m', c, {}) && m'.claims[c] == m.claims[c].(todo := {})
    decreases m.claims[c].todo
  {
    hide Reaches;
    if m.claims[c].todo == {} {
      m' := m;
    } else {
      var p :| p in m.claims[c].todo;
      var m1 := Step(m, Skip(c, p));
      ReachStep(m0, m, Skip(c, p));
      assert SameBut(m, m1, c, {});
      m' := SkipAll(m0, m1, c);
    }
  }

  lemma FinishOne(m: Mesh, c: nat, id: string)
    requires Gathering(m, c, id) && m.claims[c].todo == {} && 1 + |m.claims[c].acks| >= IntentMesh.Threshold(m)
    ensures var m' := Step(m, Finish(c));
            Reserved(m', c, id) && SameBut(m, m', c, {}) && m'.claims[c].node == m.claims[c].node
  {
    hide L.Load;
  }

  lemma UnburnedSame(m: Mesh, m': Mesh, c: nat, policies: Policies)
    requires AllUnburned(m, policies) && SameBut(m, m', c, {})
    ensures AllUnburned(m', policies)
  {
  }

  /** Node `v` reserves the id with the grants of `s`, a quorum that does not block it. */
  lemma ReserveWith(m0: Mesh, m: Mesh, policies: Policies, k: Kind, v: nat, s: set<nat>, id: string) returns (m': Mesh)
    requires Reaches(m0, m) && AllUnburned(m, policies) && k in policies
    requires m.nodes != [] && v in s && s <= Range(0, |m.nodes|) && |s| >= IntentMesh.Threshold(m)
    requires forall p :: p in s ==> Unblocked(m, p, id)
    ensures Reaches(m0, m') && AllUnburned(m', policies) && SameBut(m, m', |m.claims|, s)
    ensures Reserved(m', |m.claims|, id) && m'.claims[|m.claims|].node == v
  {
    hide Reaches, Step, Range, AllUnburned;
    var c := |m.claims|;
    ReachStep(m0, m, OpenReserve(v, id, k, 1, 0, true));
    OpenOne(m, policies, k, v, id);
    var m1 := Step(m, OpenReserve(v, id, k, 1, 0, true));
    assert s == {v} + (s - {v});
    var m2 := SoftAll(m0, m1, policies, c, s - {v}, id);
    var m3 := SkipAll(m0, m2, c);
    UnburnedSame(m2, m3, c, policies);
    ReachStep(m0, m3, Finish(c));
    FinishOne(m3, c, id);
    m' := Step(m3, Finish(c));
    UnburnedSame(m3, m', c, policies);
  }

  // ---------- reboots ----------

  lemma ReloadOne(m: Mesh, policies: Policies, v: nat, id: string)
    requires v < |m.nodes| && AllUnburned(m, policies) && m.reqs == []
    requires forall c :: 0 <= c < |m.claims| ==> m.claims[c].status != Running
    ensures var m' := Step(m, Reload(v));
            && |m'.nodes| == |m.nodes| && m'.claims == m.claims && m'.reqs == [] && m'.commits == m.commits
            && AllUnburned(m', policies) && Unblocked(m', v, id)
            && (forall p :: 0 <= p < |m.nodes| && p != v ==> m'.nodes[p] == m.nodes[p])
            && LapsedAt(m', id) <= LapsedAt(m, id) + {v}
  {
    L.LoadEmpty(true);
    hide L.Load, Range;
    assert Killed(m, v).claims == m.claims && Killed(m, v).reqs == [];
  }

  /** The nodes of `f` reboot while no claim is running. */
  lemma {:induction false} ReloadAll(m0: Mesh, m: Mesh, policies: Policies, f: set<nat>, id: string) returns (m': Mesh)
    requires Reaches(m0, m) && f <= Range(0, |m.nodes|) && AllUnburned(m, policies) && m.reqs == []
    requires forall c :: 0 <= c < |m.claims| ==> m.claims[c].status != Running
    ensures Reaches(m0, m') && |m'.nodes| == |m.nodes| && m'.claims == m.claims && m'.commits == m.commits && m'.reqs == []
    ensures AllUnburned(m', policies) && LapsedAt(m', id) <= LapsedAt(m, id) + f
    ensures forall p: nat :: p < |m.nodes| ==> if p in f then Unblocked(m', p, id) else m'.nodes[p] == m.nodes[p]
    decreases f
  {
    hide Reaches, Step, AllUnburned, LapsedAt, Range;
    if f == {} {
      m' := m;
    } else {
      var v :| v in f;
      ReachStep(m0, m, Reload(v));
      ReloadOne(m, policies, v, id);
      var m1 := Step(m, Reload(v));
      m' := ReloadAll(m0, m1, policies, f - {v}, id);
    }
  }

  lemma InitFacts(n: nat, policies: Policies, id: string)
    ensures var m := Init(n, policies, 0);
            && Reaches(m, m) && |m.nodes| == n && AllUnburned(m, policies) && m.claims == [] && m.reqs == []
            && m.commits == [] && LapsedAt(m, id) == {}
            && (forall p: nat :: p < n ==> Unblocked(m, p, id))
  {
    L.LoadEmpty(true);
    hide L.Load;
    var m := Init(n, policies, 0);
    assert Run(m, []) == m && Quiet([]);
  }

  lemma SameLapsed(m: Mesh, m': Mesh, id: string)
    requires |m'.nodes| == |m.nodes| && m'.lapsed == m.lapsed
    ensures LapsedAt(m', id) == LapsedAt(m, id)
  {
  }

  /** The lowest `t` nodes grant a reserve of node 0, and the part they share with the highest `t` reboots. */
  lemma FirstReserve(n: nat, policies: Policies, k: Kind, id: string) returns (m: Mesh)
    requires n > 0 && k in policies
    ensures Reaches(Init(n, policies, 0), m) && |m.nodes| == n && AllUnburned(m, policies) && m.reqs == []
    ensures |m.claims| == 1 && m.commits == [] && Reserved(m, 0, id) && m.claims[0].node == 0
    ensures |LapsedAt(m, id)| <= 2 * ClaimQuorum(n - 1) - n
    ensures forall p: nat :: n - ClaimQuorum(n - 1) <= p < n ==> Unblocked(m, p, id)
  {
    hide Reaches, Range, Init, ClaimQuorum, AllUnburned, LapsedAt, Unblocked;
    var t := ClaimQuorum(n - 1);
    var m0 := Init(n, policies, 0);
    InitFacts(n, policies, id);
    var m1 := ReserveWith(m0, m0, policies, k, 0, Range(0, t), id);
    SameLapsed(m0, m1, id);
    m := ReloadAll(m0, m1, policies, Range(n - t, t), id);
    SubsetSize(LapsedAt(m, id), Range(n - t, t));
    forall p: nat | n - t <= p < n ensures Unblocked(m, p, id) {
      if p >= t {
        StillUnblocked(m0, m, p, id);
      }
    }
  }

  lemma StillUnblocked(m: Mesh, m': Mesh, p: nat, id: string)
    requires Unblocked(m, p, id) && p < |m'.nodes| && m'.nodes[p] == m.nodes[p]
    ensures Unblocked(m', p, id)
  {
  }

  /** Two reserves of the id, at nodes 0 and `n - 1`, with `2t - n` reboots and nothing else in between. */
  lemma TwoReserves(n: nat, policies: Policies, k: Kind, id: string) returns (m: Mesh)
    requires n > 0 && k in policies
    ensures Reaches(Init(n, policies, 0), m) && |m.nodes| == n && |m.claims| == 2 && m.commits == []
    ensures Reserved(m, 0, id) && Reserved(m, 1, id) && m.claims[0].node < n && m.claims[1].node < n
    ensures |LapsedAt(m, id)| <= 2 * ClaimQuorum(n - 1) - n
  {
    hide Reaches, Range, Init, AllUnburned, LapsedAt, Unblocked;
    var t := ClaimQuorum(n - 1);
    var m1 := FirstReserve(n, policies, k, id);
    m := ReserveWith(Init(n, policies, 0), m1, policies, k, n - 1, Range(n - t, n), id);
    assert m.claims[0] == m.claims[..1][0] == m1.claims[..1][0];
    SameLapsed(m1, m, id);
  }

  /** In some run with at most `lapses` lapsed nodes two reserves of the id succeed. */
  ghost predicate ReservedTwice(n: nat, policies: Policies, id: string, lapses: nat) {
    exists budget: nat, evs, c, d ::
      && c != d && Reserved(Run(Init(n, policies, budget), evs), c, id) && Reserved(Run(Init(n, policies, budget), evs), d, id)
      && |LapsedAt(Run(Init(n, policies, budget), evs), id)| <= lapses
  }

  /** Already when nothing but reboots can make a node lapse. */
  ghost predicate RebootsReserveTwice(n: nat, policies: Policies, id: string, lapses: nat) {
    exists evs, c, d ::
      && Quiet(evs) && c != d
      && Reserved(Run(Init(n, policies, 0), evs), c, id) && Reserved(Run(Init(n, policies, 0), evs), d, id)
      && |LapsedAt(Run(Init(n, policies, 0), evs), id)| <= lapses
  }

  lemma RebootsTwice(n: nat, policies: Policies, id: string, lapses: nat)
    requires n > 0 && policies != map[] && lapses >= 2 * ClaimQuorum(n - 1) - n
    ensures RebootsReserveTwice(n, policies, id, lapses)
  {
    hide Run, Init, LapsedAt, Quiet, Range;
    var k :| k in policies;
    var m := TwoReserves(n, policies, k, id);
    var evs :| Quiet(evs) && Run(Init(n, policies, 0), evs) == m;
    assert Reserved(Run(Init(n, policies, 0), evs), 0, id) && Reserved(Run(Init(n, policies, 0), evs), 1, id);
  }

  /**
   The exact reach of the reserve exclusion, for every mesh size and id: some run lets two reserves
   succeed if and only if at least `2t - n` nodes lose a reservation of the id, and reboots alone,
   without any expiry or release, are enough for that.
   */
  lemma ReserveToleranceExact(n: nat, policies: Policies, id: string, lapses: nat)
    requires n > 0 && policies != map[]
    ensures ReservedTwice(n, policies, id, lapses) <==> lapses >= 2 * ClaimQuorum(n - 1) - n
    ensures RebootsReserveTwice(n, policies, id, lapses) <==> lapses >= 2 * ClaimQuorum(n - 1) - n
  {
    hide Run, Init, LapsedAt, Quiet;
    if lapses >= 2 * ClaimQuorum(n - 1) - n {
      RebootsTwice(n, policies, id, lapses);
      var evs, c, d :| Quiet(evs) && c != d && Reserved(Run(Init(n, policies, 0), evs), c, id)
        && Reserved(Run(Init(n, policies, 0), evs), d, id) && |LapsedAt(Run(Init(n, policies, 0), evs), id)| <= lapses;
    } else {
      forall budget: nat, evs, c, d | Reserved(Run(Init(n, policies, budget), evs), c, id) &&
        Reserved(Run(Init(n, policies, budget), evs), d, id) && |LapsedAt(Run(Init(n, policies, budget), evs), id)| <= lapses
        ensures c == d
      {
        SingleReserve(n, policies, budget, evs, id, c, d);
      }
    }
  }

  // ---------- commits ----------

  /** A finished reserve of the id. */
  predicate Ready(m: Mesh, c: nat, id: string) {
    Reserved(m, c, id) && m.claims[c].node < |m.nodes|
  }

  /** What the steps of a commit leave alone. */
  ghost predicate Kept(m: Mesh, m': Mesh) {
    && |m'.nodes| == |m.nodes| && m'.lapsed == m.lapsed
    && |m.claims| <= |m'.claims| && m'.claims[..|m.claims|] == m.claims
  }

  lemma KeptReady(m: Mesh, m': Mesh, c: nat, id: string)
    requires Kept(m, m') && Ready(m, c, id)
    ensures Ready(m', c, id) && m'.claims[c] == m.claims[c]
  {
    assert m'.claims[..|m.claims|][c] == m'.claims[c];
  }

  /** An open consume claim, the last one, burns the id on its own node and gets no further. */
  lemma BurnOwn(m0: Mesh, m: Mesh, v: nat, id: string) returns (m': Mesh)
    requires Reaches(m0, m) && m.claims != [] && v < |m.nodes| && id !in m.nodes[v].b.consumed
    requires m.claims[|m.claims| - 1] == Claim(v, id, Consuming, Range(0, |m.nodes|), [], {}, Running)
    ensures Reaches(m0, m') && |m'.nodes| == |m.nodes| && m'.lapsed == m.lapsed && m'.commits == m.commits
    ensures id in m'.nodes[v].b.consumed
    ensures m'.claims == m.claims[|m.claims| - 1 :=
              Claim(v, id, Consuming, Range(0, |m.nodes|) - {v}, [], {v}, Running)]
  {
    hide Reaches, L.Load, Run, Range;
    var e, q := |m.claims| - 1, |m.reqs|;
    var m2 := Step(m, Ask(e, v, true));
    ReachStep(m0, m, Ask(e, v, true));
    assert m2 == m.(reqs := m.reqs + [Req(v, e, Checked)]);
    var m3 := Step(m2, Write(q, AN.Synced));
    ReachStep(m0, m2, Write(q, AN.Synced));
    LogOnly(m2, v, id);
    m' := Step(m3, Insert(q, true));
    ReachStep(m0, m3, Insert(q, true));
    NothingLost(m3, v, m3.nodes[v].(b := Consume(m3.nodes[v].b, id)));
    assert {} + {v} == {v};
  }

  /** A commit opens a consume claim, which burns the id on its own node and gets no further. */
  lemma BurnLocally(m0: Mesh, m: Mesh, c: nat, id: string) returns (m': Mesh)
    requires Reaches(m0, m) && Ready(m, c, id) && id !in m.nodes[m.claims[c].node].b.consumed
    ensures Reaches(m0, m') && Kept(m, m') && |m'.claims| == |m.claims| + 1
    ensures id in m'.nodes[m.claims[c].node].b.consumed
    ensures m'.commits == m.commits + [Commit(c, Some(|m.claims|))]
    ensures m'.claims[|m.claims|] ==
            Claim(m.claims[c].node, id, Consuming, Range(0, |m.nodes|) - {m.claims[c].node}, [], {m.claims[c].node}, Running)
  {
    hide Reaches, L.Load, Run, Range;
    var m1 := Step(m, CommitReserved(c));
    ReachStep(m0, m, CommitReserved(c));
    m' := BurnOwn(m0, m1, m.claims[c].node, id);
    assert m1.claims[..|m.claims|] == m.claims;
  }

  lemma LogOnly(m: Mesh, v: nat, id: string)
    requires v < |m.nodes|
    ensures SetNode(m, v, Logged(m.nodes[v], id, AN.Synced)) == m.(nodes := m.nodes[v := Logged(m.nodes[v], id, AN.Synced)])
  {
    NothingLost(m, v, Logged(m.nodes[v], id, AN.Synced));
  }

  /** On a node that has consumed the id a commit is Ok at once. */
  lemma CommitAtOnce(m0: Mesh, m: Mesh, c: nat, id: string) returns (m': Mesh)
    requires Reaches(m0, m) && Ready(m, c, id) && id in m.nodes[m.claims[c].node].b.consumed
    ensures Reaches(m0, m') && m' == m.(commits := m.commits + [Commit(c, None)])
    ensures FlowOf(m', |m.commits|, c, id)
  {
    hide Reaches, L.Load, Run;
    m' := Step(m, CommitReserved(c));
    ReachStep(m0, m, CommitReserved(c));
  }

  /** The flow of a finished reserve completes: a first commit burns locally if need be, a second is Ok at once. */
  lemma CompleteFlow(m0: Mesh, m: Mesh, c: nat, id: string) returns (m': Mesh)
    requires Reaches(m0, m) && Ready(m, c, id)
    ensures Reaches(m0, m') && Kept(m, m') && |m.commits| < |m'.commits| && m'.commits[..|m.commits|] == m.commits
    ensures FlowOf(m', |m'.commits| - 1, c, id) && m'.commits[|m'.commits| - 1] == Commit(c, None)
  {
    hide Reaches, Range;
    if id in m.nodes[m.claims[c].node].b.consumed {
      m' := CommitAtOnce(m0, m, c, id);
    } else {
      var m1 := BurnLocally(m0, m, c, id);
      KeptReady(m, m1, c, id);
      m' := CommitAtOnce(m0, m1, c, id);
    }
  }

  /** In some run with at most `lapses` lapsed nodes two reserve-then-commit flows of the id complete. */
  ghost predicate FlowsTwice(n: nat, policies: Policies, id: string, lapses: nat) {
    exists budget: nat, evs, k, c, l, d ::
      && c != d && FlowOf(Run(Init(n, policies, budget), evs), k, c, id) && FlowOf(Run(Init(n, policies, budget), evs), l, d, id)
      && |LapsedAt(Run(Init(n, policies, budget), evs), id)| <= lapses
  }

  lemma CompleteTwice(n: nat, policies: Policies, k: Kind, id: string) returns (m: Mesh, i: nat, j: nat)
    requires n > 0 && k in policies
    ensures Reaches(Init(n, policies, 0), m) && FlowOf(m, i, 0, id) && FlowOf(m, j, 1, id)
    ensures |LapsedAt(m, id)| <= 2 * ClaimQuorum(n - 1) - n
  {
    hide Reaches, Init, LapsedAt, Range, ClaimQuorum;
    var m0 := Init(n, policies, 0);
    var m1 := TwoReserves(n, policies, k, id);
    var m2 := CompleteFlow(m0, m1, 0, id);
    KeptReady(m1, m2, 1, id);
    KeptReady(m1, m2, 0, id);
    m := CompleteFlow(m0, m2, 1, id);
    KeptReady(m2, m, 0, id);
    i, j := |m2.commits| - 1, |m.commits| - 1;
    assert m.commits[i] == m.commits[..|m2.commits|][i];
    SameLapsed(m1, m, id);
  }

  lemma FlowsComplete(n: nat, policies: Policies, id: string, lapses: nat)
    requires n > 0 && policies != map[] && lapses >= 2 * ClaimQuorum(n - 1) - n
    ensures FlowsTwice(n, policies, id, lapses)
  {
    hide Run, Init, LapsedAt, Quiet, FlowOf, Range;
    var k :| k in policies;
    var m, i, j := CompleteTwice(n, policies, k, id);
    var evs :| Quiet(evs) && Run(Init(n, policies, 0), evs) == m;
    assert FlowOf(Run(Init(n, policies, 0), evs), i, 0, id) && FlowOf(Run(Init(n, policies, 0), evs), j, 1, id);
  }

  /** The exact reach of the flow exclusion: two flows of an id can complete if and only if `2t - n` nodes may lapse. */
  lemma FlowToleranceExact(n: nat, policies: Policies, id: string, lapses: nat)
    requires n > 0 && policies != map[]
    ensures FlowsTwice(n, policies, id, lapses) <==> lapses >= 2 * ClaimQuorum(n - 1) - n
  {
    hide Run, Init, LapsedAt, FlowOf;
    if lapses >= 2 * ClaimQuorum(n - 1) - n {
      FlowsComplete(n, policies, id, lapses);
    } else if FlowsTwice(n, policies, id, lapses) {
      var budget: nat, evs, k, c, l, d :| c != d && FlowOf(Run(Init(n, policies, budget), evs), k, c, id)
        && FlowOf(Run(Init(n, policies, budget), evs), l, d, id) && |LapsedAt(Run(Init(n, policies, budget), evs), id)| <= lapses;
      SingleFlow(n, policies, budget, evs, id, k, c, l, d);
    }
  }

  // ---------- an Ok commit without a claim behind it ----------

  /** A completed flow of the id although every consume claim of it has failed and nothing lapsed. */
  ghost predicate Unbacked(m: Mesh, k: nat, c: nat, id: string) {
    && FlowOf(m, k, c, id) && LapsedAt(m, id) == {}
    && (exists e :: 0 <= e < |m.claims| && m.claims[e].id == id && m.claims[e].phase.Consuming?)
    && (forall e :: 0 <= e < |m.claims| && m.claims[e].id == id && m.claims[e].phase.Consuming? ==>
          m.claims[e].status.Done? && m.claims[e].status.verdict.Err?)
  }

  lemma FailConsume(m: Mesh, e: nat)
    requires e + 1 == |m.claims| && m.claims[e].status == Running && m.claims[e].phase.Consuming? && m.claims[e].acks == []
    requires m.claims[e].todo == {} && m.claims[e].node < |m.nodes| && |m.nodes| >= 2
    ensures Step(m, Finish(e)) ==
            m.(claims := m.claims[e := m.claims[e].(status := Done(Err(QuorumNotMet(1, IntentMesh.Threshold(m)))))])
  {
    hide L.Load;
    assert IntentMesh.Threshold(m) >= 2;
  }

  lemma EveryoneGrants(n: nat, policies: Policies, k: Kind, id: string) returns (m: Mesh)
    requires n > 0 && k in policies
    ensures Reaches(Init(n, policies, 0), m) && |m.nodes| == n && |m.claims| == 1 && LapsedAt(m, id) == {}
    ensures Ready(m, 0, id) && m.nodes[m.claims[0].node].b.consumed == {}
  {
    hide Reaches, Init, AllUnburned, LapsedAt, Unblocked;
    var m0 := Init(n, policies, 0);
    InitFacts(n, policies, id);
    m := ReserveWith(m0, m0, policies, k, 0, Range(0, n), id);
    NothingBurned(m, policies, 0);
    SameLapsed(m0, m, id);
  }

  /** A commit burns locally, hears nobody and fails its quorum. */
  lemma FailedCommit(m0: Mesh, m: Mesh, id: string) returns (m': Mesh)
    requires Reaches(m0, m) && |m.nodes| >= 2 && |m.claims| == 1 && Ready(m, 0, id)
    requires m.nodes[m.claims[0].node].b.consumed == {}
    ensures Reaches(m0, m') && |m'.nodes| == |m.nodes| && m'.lapsed == m.lapsed
    ensures |m'.claims| == 2 && m'.claims[0] == m.claims[0] && id in m'.nodes[m.claims[0].node].b.consumed
    ensures m'.claims[1].id == id && m'.claims[1].phase.Consuming? && m'.claims[1].status.Done? && m'.claims[1].status.verdict.Err?
  {
    hide Reaches, Step, Range;
    var m1 := BurnLocally(m0, m, 0, id);
    assert m1.claims[0] == m1.claims[..1][0];
    var m2 := SkipAll(m0, m1, 1);
    assert m2.claims[0] == m2.claims[..1][0] == m1.claims[..1][0];
    ReachStep(m0, m2, Finish(1));
    FailConsume(m2, 1);
    m' := Step(m2, Finish(1));
  }

  lemma CommitTwoTimes(n: nat, policies: Policies, k: Kind, id: string) returns (m: Mesh, i: nat)
    requires n >= 2 && k in policies
    ensures Reaches(Init(n, policies, 0), m) && Unbacked(m, i, 0, id)
  {
    hide Reaches, Init, Step, LapsedAt, FlowOf, Range;
    var m0 := Init(n, policies, 0);
    var m1 := EveryoneGrants(n, policies, k, id);
    var m2 := FailedCommit(m0, m1, id);
    m := CommitAtOnce(m0, m2, 0, id);
    i := |m2.commits|;
    SameLapsed(m1, m, id);
    assert m.claims[1].id == id;
  }

  lemma NothingBurned(m: Mesh, policies: Policies, v: nat)
    requires AllUnburned(m, policies) && v < |m.nodes|
    ensures m.nodes[v].b.consumed == {}
  {
  }

  /**
   `commit_consume` alone gives no at-most-once: on every mesh of two or more nodes some run without any
   lapse has a commit answered Ok although the id's only consume claim failed its quorum.
   */
  lemma OkCommitUnbacked(n: nat, policies: Policies, id: string)
    requires n >= 2 && policies != map[]
    ensures exists evs, k, c :: Quiet(evs) && Unbacked(Run(Init(n, policies, 0), evs), k, c, id)
  {
    hide Run, Init, Quiet, Unbacked;
    var k :| k in policies;
    var m, i := CommitTwoTimes(n, policies, k, id);
    var evs :| Quiet(evs) && Run(Init(n, policies, 0), evs) == m;
    assert Unbacked(Run(Init(n, policies, 0), evs), i, 0, id);
  }
}
