/**
 The anti-nonce mesh as a state machine. One event is one atomic thing that can happen
 anywhere: a claim burns locally, one peer serves a durable prepare whose ack arrives or is
 lost, a claim gives up on a peer, a claim finishes, a node reboots from its log, a node
 loses its log. An event that is not possible in a state leaves it unchanged, so a theorem
 over all event lists is a theorem over all interleavings.
 */
module ClaimMesh {
  import opened Wrappers
  import opened Quorum
  import opened Sets
  import opened AntiNonce
  import L = LineLog

  datatype Status = Running | Done(verdict: Result<()>) | Aborted

  /** `granted` remembers which nodes answered "not seen" to this claim, the caller included. */
  datatype Claim = Claim(node: nat, id: string, todo: set<nat>, acks: seq<bool>, granted: set<nat>, status: Status)

  datatype Mesh = Mesh(stores: seq<Store>, claims: seq<Claim>, forgot: set<nat>, budget: nat)

  datatype Event =
    | Begin(node: nat, id: string, disk: Disk)
    | Contact(claim: nat, peer: nat, delivered: bool, disk: Disk)
    | Skip(claim: nat, peer: nat)
    | Finish(claim: nat)
    | Fail(claim: nat)                           // unreadable answer: the claim errors out
    | Stray(node: nat, id: string, disk: Disk)   // a durable prepare of no live claim, e.g. a late duplicate
    | Reload(node: nat)
    | Forget(node: nat)

  function Init(n: nat, budget: nat): Mesh {
    Mesh(seq(n, _ => EMPTY), [], {}, budget)
  }

  function Threshold(m: Mesh): nat
    requires m.stores != []
  {
    ClaimQuorum(|m.stores| - 1)
  }

  function AbortAt(c: Claim, node: nat): Claim {
    if c.node == node && c.status == Running then c.(status := Aborted) else c
  }

  function AbortAll(claims: seq<Claim>, node: nat): (r: seq<Claim>)
    ensures |r| == |claims| && forall i :: 0 <= i < |r| ==> r[i] == AbortAt(claims[i], node)
  {
    if claims == [] then [] else AbortAll(claims[..|claims| - 1], node) + [AbortAt(claims[|claims| - 1], node)]
  }

  function Opened(node: nat, id: string, peers: set<nat>, r: Result<bool>): Claim {
    match r
    case Ok(false) => Claim(node, id, peers, [], {node}, Running)
    case Ok(true) => Claim(node, id, peers, [], {}, Done(Err(NonceReuse)))
    case Err(e) => Claim(node, id, peers, [], {}, Done(Err(e)))
  }

  function Heard(c: Claim, peer: nat, seen: bool): Claim {
    c.(todo := c.todo - {peer}, acks := c.acks + [seen], granted := if seen then c.granted else c.granted + {peer})
  }

  predicate Live(m: Mesh, c: nat) {
    c < |m.claims| && m.claims[c].status == Running
  }

  function Step(m: Mesh, e: Event): Mesh {
    var n := |m.stores|;
    match e
    case Begin(v, id, disk) =>
      if v >= n then m
      else
        var (s, r) := BurnId(m.stores[v], id, disk);
        m.(stores := m.stores[v := s], claims := m.claims + [Opened(v, id, Range(0, n) - {v}, r)])
    case Contact(c, p, delivered, disk) =>
      if !Live(m, c) || p !in m.claims[c].todo || p >= n then m
      else
        var (s, r) := BurnId(m.stores[p], m.claims[c].id, disk);
        var m' := m.(stores := m.stores[p := s]);
        if delivered && r.Ok? then m'.(claims := m.claims[c := Heard(m.claims[c], p, r.value)]) else m'
    case Skip(c, p) =>
      if !Live(m, c) then m
      else m.(claims := m.claims[c := m.claims[c].(todo := m.claims[c].todo - {p})])
    case Finish(c) =>
      if !Live(m, c) || m.claims[c].todo != {} || n == 0 then m
      else m.(claims := m.claims[c := m.claims[c].(status := Done(Verdict(m.claims[c].acks, Threshold(m))))])
    case Fail(c) =>
      if !Live(m, c) then m
      else m.(claims := m.claims[c := m.claims[c].(status := Done(Err(Error.Threshold)))])
    case Stray(v, id, disk) =>
      if v >= n then m else m.(stores := m.stores[v := BurnId(m.stores[v], id, disk).0])
    case Reload(v) =>
      if v >= n then m else m.(stores := m.stores[v := Reboot(m.stores[v])], claims := AbortAll(m.claims, v))
    case Forget(v) =>
      if v >= n || |m.forgot + {v}| > m.budget then m
      else m.(stores := m.stores[v := EMPTY], claims := AbortAll(m.claims, v), forgot := m.forgot + {v})
  }

  function Run(m: Mesh, evs: seq<Event>): Mesh {
    if evs == [] then m else Step(Run(m, evs[..|evs| - 1]), evs[|evs| - 1])
  }

  // ---------- invariant ----------

  ghost predicate ClaimInv(m: Mesh, c: Claim)
    requires m.stores != []
  {
    && c.granted <= Range(0, |m.stores|)
    && c.granted !! c.todo
    && (c.status == Running && true !in c.acks ==> |c.granted| == 1 + |c.acks|)
    && (c.status == Done(Ok(())) ==> |c.granted| >= Threshold(m))
  }

  /** Whoever answered "fresh" and has not forgotten still refuses the id. */
  ghost predicate Remembered(m: Mesh, c: Claim)
    requires c.granted <= Range(0, |m.stores|)
  {
    forall v :: v in c.granted && v !in m.forgot ==> c.id in m.stores[v].seen
  }

  ghost predicate Exclusive(m: Mesh, c: Claim, d: Claim) {
    c.id == d.id ==> c.granted * d.granted <= m.forgot
  }

  ghost predicate Inv(m: Mesh) {
    && m.stores != []
    && |m.forgot| <= m.budget
    && (forall v :: 0 <= v < |m.stores| ==> Durable(m.stores[v]))
    && (forall c :: 0 <= c < |m.claims| ==> ClaimInv(m, m.claims[c]))
    && (forall c :: 0 <= c < |m.claims| && L.Fits(m.claims[c].id, false) ==> Remembered(m, m.claims[c]))
    && (forall c, d :: 0 <= c < d < |m.claims| && L.Fits(m.claims[c].id, false) ==>
          Exclusive(m, m.claims[c], m.claims[d]))
  }

  /** A node keeps every promise while it remembers the ids that fit, or once it counts as forgetful. */
  lemma StoreInv(m: Mesh, v: nat, s: Store)
    requires Inv(m) && v < |m.stores| && Durable(s)
    requires v !in m.forgot ==> forall id :: id in m.stores[v].seen && L.Fits(id, false) ==> id in s.seen
    ensures Inv(m.(stores := m.stores[v := s]))
  {
    hide Durable, L.Fits;
    var m' := m.(stores := m.stores[v := s]);
    forall c | 0 <= c < |m.claims| ensures ClaimInv(m', m.claims[c]) {
      assert ClaimInv(m, m.claims[c]);
    }
    forall c | 0 <= c < |m.claims| && L.Fits(m.claims[c].id, false) ensures Remembered(m', m.claims[c]) {
      assert Remembered(m, m.claims[c]);
    }
  }

  /** Only forgetful nodes have granted an id that node `p` has not seen. */
  lemma NobodyGranted(m: Mesh, p: nat, id: string)
    requires Inv(m) && p < |m.stores| && id !in m.stores[p].seen && L.Fits(id, false)
    ensures forall d :: 0 <= d < |m.claims| && m.claims[d].id == id && p in m.claims[d].granted ==> p in m.forgot
  {
    hide Durable, L.Fits;
    forall d | 0 <= d < |m.claims| && m.claims[d].id == id && p in m.claims[d].granted ensures p in m.forgot {
      assert ClaimInv(m, m.claims[d]) && Remembered(m, m.claims[d]);
    }
  }

  lemma OpenedInv(m: Mesh, v: nat, id: string, r: Result<bool>)
    requires Inv(m) && v < |m.stores|
    requires r == Ok(false) ==> id in m.stores[v].seen
    requires r == Ok(false) && L.Fits(id, false) ==>
               forall d :: 0 <= d < |m.claims| && m.claims[d].id == id && v in m.claims[d].granted ==> v in m.forgot
    ensures Inv(m.(claims := m.claims + [Opened(v, id, Range(0, |m.stores|) - {v}, r)]))
  {
    hide Durable, L.Fits;
    var c := Opened(v, id, Range(0, |m.stores|) - {v}, r);
    forall d | 0 <= d < |m.claims| && L.Fits(id, false) ensures Exclusive(m, m.claims[d], c) {
      assert ClaimInv(m, m.claims[d]);
    }
    hide Inv;
    AddClaimInv(m, c);
  }

  lemma BeginInv(m: Mesh, v: nat, id: string, disk: Disk)
    requires Inv(m) && v < |m.stores|
    ensures Inv(Step(m, Begin(v, id, disk)))
  {
    hide Inv, Durable, L.Fits, Opened, Range;
    var (s, r) := BurnId(m.stores[v], id, disk);
    KnownStore(m, v);
    PrepareDurable(m.stores[v], id, disk);
    StoreInv(m, v, s);
    if r == Ok(false) && L.Fits(id, false) {
      NobodyGranted(m, v, id);
    }
    OpenedInv(m.(stores := m.stores[v := s]), v, id, r);
  }

  lemma AddClaimInv(m: Mesh, c: Claim)
    requires Inv(m) && ClaimInv(m, c)
    requires L.Fits(c.id, false) ==> Remembered(m, c)
    requires L.Fits(c.id, false) ==> forall d :: 0 <= d < |m.claims| ==> Exclusive(m, m.claims[d], c)
    ensures Inv(m.(claims := m.claims + [c]))
  {
    hide Durable, L.Fits;
  }

  lemma HeardClaim(m: Mesh, c: Claim, p: nat, seen: bool)
    requires m.stores != [] && ClaimInv(m, c) && c.status == Running && p in c.todo && p < |m.stores|
    ensures ClaimInv(m, Heard(c, p, seen))
  {
    assert true in c.acks ==> true in c.acks + [seen];
    assert seen ==> (c.acks + [seen])[|c.acks|];
  }

  /** An answer reaches claim `c`; "fresh" needs that the node now remembers and that nobody else has its word. */
  lemma HeardInv(m: Mesh, c: nat, p: nat, seen: bool)
    requires Inv(m) && Live(m, c) && p in m.claims[c].todo && p < |m.stores|
    requires !seen ==> m.claims[c].id in m.stores[p].seen
    requires !seen && L.Fits(m.claims[c].id, false) ==>
               forall d :: 0 <= d < |m.claims| && m.claims[d].id == m.claims[c].id && p in m.claims[d].granted ==> p in m.forgot
    ensures Inv(m.(claims := m.claims[c := Heard(m.claims[c], p, seen)]))
  {
    hide Durable, L.Fits;
    var cl := Heard(m.claims[c], p, seen);
    var m' := m.(claims := m.claims[c := cl]);
    HeardClaim(m, m.claims[c], p, seen);
    if L.Fits(cl.id, false) {
      assert Remembered(m, m.claims[c]);
      assert Remembered(m', cl);
    }
    forall d | 0 <= d < |m.claims| ensures ClaimInv(m', m'.claims[d]) {
      assert ClaimInv(m, m.claims[d]);
    }
    forall d, e | 0 <= d < e < |m.claims| && L.Fits(m'.claims[d].id, false) ensures Exclusive(m', m'.claims[d], m'.claims[e]) {
      assert Exclusive(m, m.claims[d], m.claims[e]);
    }
  }

  lemma ContactInv(m: Mesh, c: nat, p: nat, delivered: bool, disk: Disk)
    requires Inv(m) && Live(m, c) && p in m.claims[c].todo && p < |m.stores|
    ensures Inv(Step(m, Contact(c, p, delivered, disk)))
  {
    hide Inv, Durable, L.Fits, Heard;
    var (s, r) := BurnId(m.stores[p], m.claims[c].id, disk);
    KnownStore(m, p);
    PrepareDurable(m.stores[p], m.claims[c].id, disk);
    StoreInv(m, p, s);
    if delivered && r.Ok? {
      if !r.value && L.Fits(m.claims[c].id, false) {
        NobodyGranted(m, p, m.claims[c].id);
      }
      HeardInv(m.(stores := m.stores[p := s]), c, p, r.value);
    }
  }

  lemma KnownStore(m: Mesh, v: nat)
    requires Inv(m) && v < |m.stores|
    ensures Durable(m.stores[v])
  {
  }

  lemma StrayInv(m: Mesh, v: nat, id: string, disk: Disk)
    requires Inv(m) && v < |m.stores|
    ensures Inv(Step(m, Stray(v, id, disk)))
  {
    hide Inv, Durable, L.Fits;
    KnownStore(m, v);
    PrepareDurable(m.stores[v], id, disk);
    StoreInv(m, v, BurnId(m.stores[v], id, disk).0);
  }

  /** Claims may change in what they have left to do and in status, never in what they were granted. */
  lemma ClaimsInv(m: Mesh, claims: seq<Claim>)
    requires Inv(m) && |claims| == |m.claims|
    requires forall c :: 0 <= c < |claims| ==>
               claims[c].id == m.claims[c].id && claims[c].granted == m.claims[c].granted && ClaimInv(m, claims[c])
    ensures Inv(m.(claims := claims))
  {
    hide Durable, L.Fits, ClaimInv;
    var m' := m.(claims := claims);
    forall c | 0 <= c < |claims| ensures ClaimInv(m', claims[c]) && claims[c].granted <= Range(0, |m.stores|) {
      ClaimFrame(m, m', claims[c]);
    }
    forall c | 0 <= c < |claims| && L.Fits(claims[c].id, false) ensures Remembered(m', claims[c]) {
      assert Remembered(m, m.claims[c]);
    }
    forall c, d | 0 <= c < d < |claims| && L.Fits(claims[c].id, false) ensures Exclusive(m', claims[c], claims[d]) {
      assert Exclusive(m, m.claims[c], m.claims[d]);
    }
  }

  lemma ClaimFrame(m: Mesh, m': Mesh, c: Claim)
    requires m.stores != [] && m'.stores == m.stores && ClaimInv(m, c)
    ensures ClaimInv(m', c) && c.granted <= Range(0, |m.stores|)
  {
  }

  lemma KnownClaim(m: Mesh, c: nat)
    requires Inv(m) && c < |m.claims|
    ensures ClaimInv(m, m.claims[c])
  {
  }

  lemma ChangedInv(m: Mesh, c: nat, cl: Claim)
    requires Inv(m) && c < |m.claims|
    requires cl.id == m.claims[c].id && cl.granted == m.claims[c].granted && ClaimInv(m, cl)
    ensures Inv(m.(claims := m.claims[c := cl]))
  {
    assert m.stores != [];
    hide Inv, ClaimInv;
    var claims := m.claims[c := cl];
    forall d | 0 <= d < |claims| ensures ClaimInv(m, claims[d]) {
      if d != c {
        KnownClaim(m, d);
      }
    }
    ClaimsInv(m, claims);
  }

  lemma ClaimOnlyInv(m: Mesh, e: Event)
    requires Inv(m) && (e.Skip? || e.Finish? || e.Fail?)
    ensures Inv(Step(m, e))
  {
    hide Inv;
    if Live(m, e.claim) {
      KnownClaim(m, e.claim);
      if Step(m, e) != m {
        ChangedInv(m, e.claim, Step(m, e).claims[e.claim]);
      }
    }
  }

  lemma AbortInv(m: Mesh, v: nat)
    requires Inv(m)
    ensures Inv(m.(claims := AbortAll(m.claims, v)))
  {
    assert m.stores != [];
    hide Inv, AbortAll;
    var claims := AbortAll(m.claims, v);
    forall c | 0 <= c < |claims| ensures ClaimInv(m, claims[c]) {
      KnownClaim(m, c);
    }
    ClaimsInv(m, claims);
  }

  lemma ReloadInv(m: Mesh, v: nat)
    requires Inv(m)
    ensures Inv(Step(m, Reload(v)))
  {
    hide Inv, L.Load, L.Fits, L.Terminated, AbortAll;
    if v < |m.stores| {
      KnownStore(m, v);
      AbortInv(m, v);
      StoreInv(m.(claims := AbortAll(m.claims, v)), v, Reboot(m.stores[v]));
    }
  }

  /** Counting one more node as forgetful only weakens what is promised. */
  lemma ForgotMore(m: Mesh, v: nat)
    requires Inv(m) && |m.forgot + {v}| <= m.budget
    ensures Inv(m.(forgot := m.forgot + {v}))
  {
    hide Durable, L.Fits;
    var m' := m.(forgot := m.forgot + {v});
    forall c | 0 <= c < |m.claims| ensures ClaimInv(m', m.claims[c]) {
      assert ClaimInv(m, m.claims[c]);
    }
    forall c | 0 <= c < |m.claims| && L.Fits(m.claims[c].id, false) ensures Remembered(m', m.claims[c]) {
      assert Remembered(m, m.claims[c]);
    }
    forall c, d | 0 <= c < d < |m.claims| && L.Fits(m.claims[c].id, false) ensures Exclusive(m', m.claims[c], m.claims[d]) {
      assert Exclusive(m, m.claims[c], m.claims[d]);
    }
  }

  lemma ForgetInv(m: Mesh, v: nat)
    requires Inv(m)
    ensures Inv(Step(m, Forget(v)))
  {
    L.LoadEmpty(false);
    hide Inv, L.Load, L.Fits, L.Terminated, AbortAll;
    if v < |m.stores| && |m.forgot + {v}| <= m.budget {
      AbortInv(m, v);
      var m1 := m.(claims := AbortAll(m.claims, v));
      ForgotMore(m1, v);
      StoreInv(m1.(forgot := m.forgot + {v}), v, EMPTY);
    }
  }

  lemma StepInv(m: Mesh, e: Event)
    requires Inv(m)
    ensures Inv(Step(m, e))
  {
    hide L.Load, L.Fits, L.Terminated, Inv;
    var n := |m.stores|;
    match e {
      case Begin(v, id, disk) => if v < n { BeginInv(m, v, id, disk); }
      case Contact(c, p, delivered, disk) =>
        if Live(m, c) && p in m.claims[c].todo && p < n { ContactInv(m, c, p, delivered, disk); }
      case Stray(v, id, disk) => if v < n { StrayInv(m, v, id, disk); }
      case Reload(v) => ReloadInv(m, v);
      case Forget(v) => ForgetInv(m, v);
      case Skip(_, _) => ClaimOnlyInv(m, e);
      case Finish(_) => ClaimOnlyInv(m, e);
      case Fail(_) => ClaimOnlyInv(m, e);
    }
  }

  lemma InitInv(n: nat, budget: nat)
    requires n > 0
    ensures Inv(Init(n, budget))
  {
    L.LoadEmpty(false);
    hide L.Load, L.Terminated;
  }

  lemma StepFrame(m: Mesh, e: Event)
    ensures |Step(m, e).stores| == |m.stores| && Step(m, e).budget == m.budget
  {
    hide BurnId, Reboot, Range;
  }

  lemma {:induction false} RunInv(n: nat, budget: nat, evs: seq<Event>)
    requires n > 0
    ensures Inv(Run(Init(n, budget), evs)) && |Run(Init(n, budget), evs).stores| == n
    ensures Run(Init(n, budget), evs).budget == budget
  {
    hide Inv, Step;
    if evs == [] {
      InitInv(n, budget);
    } else {
      RunInv(n, budget, evs[..|evs| - 1]);
      StepInv(Run(Init(n, budget), evs[..|evs| - 1]), evs[|evs| - 1]);
      StepFrame(Run(Init(n, budget), evs[..|evs| - 1]), evs[|evs| - 1]);
    }
  }

  predicate Succeeded(m: Mesh, c: nat, id: string) {
    c < |m.claims| && m.claims[c].id == id && m.claims[c].status == Done(Ok(()))
  }

  /**
   Mesh-wide single claim. Whatever the interleaving, lost acks, retries, duplicates, failed
   writes and reboots, and even if up to `2t - n - 1` nodes lose their log, at most one claim of
   an id that fits the log ever returns Ok on the whole mesh.
   */
  lemma SingleClaim(n: nat, budget: nat, evs: seq<Event>, id: string, c: nat, d: nat)
    requires n > 0 && budget < 2 * ClaimQuorum(n - 1) - n
    requires L.Fits(id, false)
    requires Succeeded(Run(Init(n, budget), evs), c, id) && Succeeded(Run(Init(n, budget), evs), d, id)
    ensures c == d
  {
    hide L.Load, L.Fits, L.Terminated;
    var m := Run(Init(n, budget), evs);
    RunInv(n, budget, evs);
    if c != d {
      assert Exclusive(m, m.claims[if c < d then c else d], m.claims[if c < d then d else c]);
      var v := ReliableWitness(Range(0, n), m.claims[c].granted, m.claims[d].granted, m.forgot, Threshold(m));
    }
  }

  /** Some run of a mesh that loses no log lets an id be claimed twice. */
  ghost predicate Reclaimable(id: string) {
    exists n: nat, evs, c, d ::
      n > 0 && c != d && Succeeded(Run(Init(n, 0), evs), c, id) && Succeeded(Run(Init(n, 0), evs), d, id)
  }

  lemma RunNone(m: Mesh)
    ensures Run(m, []) == m
  {
  }

  lemma RunPush(m: Mesh, evs: seq<Event>, e: Event)
    ensures Run(m, evs + [e]) == Step(Run(m, evs), e)
  {
    assert (evs + [e])[..|evs + [e]| - 1] == evs;
  }

  /** The id format is exactly what the guarantee needs: an id can be claimed twice iff it does not fit. */
  lemma ReclaimableIffUnfit(id: string)
    ensures Reclaimable(id) <==> !L.Fits(id, false)
  {
    if L.Fits(id, false) {
      forall n: nat, evs, c, d | n > 0 && Succeeded(Run(Init(n, 0), evs), c, id) && Succeeded(Run(Init(n, 0), evs), d, id)
        ensures c == d
      {
        SingleClaim(n, 0, evs, id, c, d);
      }
    } else {
      SoloReclaim(id);
    }
  }

  lemma SoloBegin(m: Mesh, id: string)
    requires |m.stores| == 1 && id !in m.stores[0].seen
    ensures Step(m, Begin(0, id, Synced)) ==
            m.(stores := [BurnId(m.stores[0], id, Synced).0], claims := m.claims + [Claim(0, id, {}, [], {0}, Running)])
  {
    hide L.Load, L.Fits, L.Terminated;
    assert Range(0, 1) - {0} == {};
  }

  lemma SoloFinish(m: Mesh, id: string)
    requires |m.stores| == 1 && m.claims != []
    requires m.claims[|m.claims| - 1] == Claim(0, id, {}, [], {0}, Running)
    ensures Step(m, Finish(|m.claims| - 1)) ==
            m.(claims := m.claims[..|m.claims| - 1] + [Claim(0, id, {}, [], {0}, Done(Ok(())))])
  {
    hide L.Load, L.Fits, L.Terminated;
    assert Verdict([], Threshold(m)) == Ok(());
  }

  /** On a solo mesh an id that is not in memory is claimed in two steps. */
  lemma SoloClaim(evs: seq<Event>, id: string) returns (evs': seq<Event>)
    requires var m := Run(Init(1, 0), evs); |m.stores| == 1 && id !in m.stores[0].seen
    ensures var m := Run(Init(1, 0), evs);
            Run(Init(1, 0), evs') == m.(stores := [BurnId(m.stores[0], id, Synced).0],
                                        claims := m.claims + [Claim(0, id, {}, [], {0}, Done(Ok(())))])
  {
    hide L.Load, L.Fits, L.Terminated, Step, Run;
    var m := Run(Init(1, 0), evs);
    evs' := evs + [Begin(0, id, Synced)] + [Finish(|m.claims|)];
    RunPush(Init(1, 0), evs, Begin(0, id, Synced));
    RunPush(Init(1, 0), evs + [Begin(0, id, Synced)], Finish(|m.claims|));
    SoloBegin(m, id);
    SoloFinish(Step(m, Begin(0, id, Synced)), id);
  }

  lemma SoloReload(m: Mesh)
    requires |m.stores| == 1 && forall c :: 0 <= c < |m.claims| ==> m.claims[c].status != Running
    ensures Step(m, Reload(0)) == m.(stores := [Reboot(m.stores[0])])
  {
    hide L.Load;
  }

  lemma UnfitForgotten(id: string)
    requires !L.Fits(id, false)
    ensures id !in Reboot(BurnId(EMPTY, id, Synced).0).seen
  {
    L.SurvivesIffFits("", id, false);
    hide L.Load, L.Fits, L.Terminated;
  }

  lemma SoloInit()
    ensures Run(Init(1, 0), []) == Mesh([EMPTY], [], {}, 0)
  {
  }

  /** A claimed id is claimed again after a reboot that has forgotten it. */
  lemma SoloAgain(evs: seq<Event>, id: string) returns (evs': seq<Event>)
    requires var m := Run(Init(1, 0), evs);
             |m.stores| == 1 && m.claims == [Claim(0, id, {}, [], {0}, Done(Ok(())))] && id !in Reboot(m.stores[0]).seen
    ensures Succeeded(Run(Init(1, 0), evs'), 0, id) && Succeeded(Run(Init(1, 0), evs'), 1, id)
  {
    hide Step, Run, Init, BurnId, Reboot;
    var m := Run(Init(1, 0), evs);
    RunPush(Init(1, 0), evs, Reload(0));
    SoloReload(m);
    evs' := SoloClaim(evs + [Reload(0)], id);
  }

  lemma SoloReclaim(id: string)
    requires !L.Fits(id, false)
    ensures Reclaimable(id)
  {
    UnfitForgotten(id);
    SoloInit();
    hide L.Fits, Run, Init, BurnId, Reboot, Reclaimable, Succeeded;
    var once := SoloClaim([], id);
    var twice := SoloAgain(once, id);
    ReclaimedBy(twice, id);
  }

  lemma ReclaimedBy(evs: seq<Event>, id: string)
    requires Succeeded(Run(Init(1, 0), evs), 0, id) && Succeeded(Run(Init(1, 0), evs), 1, id)
    ensures Reclaimable(id)
  {
    hide Run, Init, Succeeded;
  }
}
