/**
 The intent mesh as a state machine: two-phase reserve / consume over n nodes. A durable peer
 prepare is three separate steps, because the source drops its lock between the check, the
 append and the insert; any number of them interleave on one node. Disabled events change nothing.
 */
module IntentMesh {
  import opened Wrappers
  import opened Quorum
  import opened Sets
  import opened BucketLedger
  import opened QuorumBucket
  import AN = AntiNonce
  import L = LineLog

  datatype Phase = Reserving(kind: Kind, amount: nat) | Consuming

  datatype Status = Running | Done(verdict: Result<()>) | Aborted

  /** `granted`: the nodes that answered "not seen", the caller's own node included. */
  datatype Claim = Claim(node: nat, id: string, phase: Phase, todo: set<nat>, acks: seq<bool>, granted: set<nat>,
                         status: Status)

  datatype Stage = Checked | Appended | Dead

  /** A durable prepare in flight on a node, on behalf of a claim. */
  datatype Req = Req(node: nat, claim: nat, stage: Stage)

  /** A commit after reserve claim `reserve`: answered Ok at once (None), or by a consume claim of its own. */
  datatype Commit = Commit(reserve: nat, claim: Option<nat>)

  /** `lapsed`: which node lost a reservation of which id to a TTL, an explicit release or a reboot. */
  datatype Mesh = Mesh(nodes: seq<Node>, claims: seq<Claim>, reqs: seq<Req>, commits: seq<Commit>,
                       forgot: set<nat>, budget: nat, lapsed: set<(nat, string)>)

  datatype Event =
    | OpenReserve(node: nat, id: string, kind: Kind, amount: nat, now: nat, valid: bool)
    | SoftAsk(claim: nat, peer: nat, now: nat, delivered: bool)
    | OpenConsume(node: nat, id: string)
    | CommitReserved(reserve: nat)
    | Ask(claim: nat, peer: nat, delivered: bool)
    | Write(req: nat, disk: AN.Disk)
    | Insert(req: nat, delivered: bool)
    | Skip(claim: nat, peer: nat)
    | Finish(claim: nat)
    | Fail(claim: nat)
    | ReleaseAt(node: nat, id: string, kind: Kind, amount: nat)
    | Reload(node: nat)
    | Forget(node: nat)

  function Init(n: nat, policies: map<Kind, Policy>, budget: nat): Mesh {
    Mesh(seq(n, _ => BootNode(policies, "")), [], [], [], {}, budget, {})
  }

  function Threshold(m: Mesh): nat
    requires m.nodes != []
  {
    ClaimQuorum(|m.nodes| - 1)
  }

  function Blocked(b: Bucket): set<string> {
    b.consumed + b.reserved.Keys
  }

  function Lost(v: nat, ids: set<string>): set<(nat, string)> {
    set id | id in ids :: (v, id)
  }

  /** Replace one node and note which ids it stopped blocking. */
  function SetNode(m: Mesh, v: nat, s: Node): Mesh
    requires v < |m.nodes|
  {
    m.(nodes := m.nodes[v := s], lapsed := m.lapsed + Lost(v, Blocked(m.nodes[v].b) - Blocked(s.b)))
  }

  /** The sweep that opens every soft operation; what expires there has lapsed. */
  ghost function Swept(m: Mesh, v: nat, now: nat): Mesh
    requires v < |m.nodes|
  {
    SetNode(m, v, m.nodes[v].(b := Sweep(m.nodes[v].b, now)))
  }

  predicate Live(m: Mesh, c: nat) {
    c < |m.claims| && m.claims[c].status == Running
  }

  /** One answer reaches a claim; an answer nobody waits for is dropped. */
  function Heard(c: Claim, p: nat, seen: bool): Claim {
    if c.status != Running || p !in c.todo then c
    else if p == c.node then
      if seen then c.(todo := c.todo - {p}, status := Done(Err(IntentReplay)))
      else c.(todo := c.todo - {p}, granted := c.granted + {p})
    else c.(todo := c.todo - {p}, acks := c.acks + [seen], granted := if seen then c.granted else c.granted + {p})
  }

  function Answer(m: Mesh, c: nat, p: nat, seen: bool, delivered: bool): Mesh
    requires c < |m.claims|
  {
    if delivered then m.(claims := m.claims[c := Heard(m.claims[c], p, seen)]) else m
  }

  function SetStage(m: Mesh, q: nat, stage: Stage): Mesh
    requires q < |m.reqs|
  {
    m.(reqs := m.reqs[q := m.reqs[q].(stage := stage)])
  }

  /** A reboot ends the node's claims and its requests in flight. */
  function Killed(m: Mesh, v: nat): Mesh {
    m.(claims := seq(|m.claims|, i requires 0 <= i < |m.claims| => KillClaim(m.claims[i], v)),
       reqs := seq(|m.reqs|, i requires 0 <= i < |m.reqs| => KillReq(m.reqs[i], v)))
  }

  function KillClaim(c: Claim, v: nat): Claim {
    if c.node == v && c.status == Running then c.(status := Aborted) else c
  }

  function KillReq(q: Req, v: nat): Req {
    if q.node == v then q.(stage := Dead) else q
  }

  function Gatekeeper(valid: bool): Validator {
    (_: Policy, _: nat) => if valid then Ok(()) else Err(InvalidIntent)
  }

  /** The verdict of a claim; a refused reserve releases its local hold, and only that. */
  function Concluded(m: Mesh, c: nat): Mesh
    requires Live(m, c) && m.claims[c].node < |m.nodes|
  {
    var cl := m.claims[c];
    var verdict := Settle(cl.acks, Threshold(m));
    var m' := m.(claims := m.claims[c := cl.(status := Done(verdict))]);
    if cl.phase.Reserving? && verdict.Err? then
      var s := m.nodes[cl.node];
      m'.(nodes := m.nodes[cl.node := s.(b := Release(s.b, cl.id, cl.phase.kind, cl.phase.amount))])
    else m'
  }

  ghost function Step(m: Mesh, e: Event): Mesh {
    var n := |m.nodes|;
    match e
    case OpenReserve(v, id, k, amount, now, valid) => if v >= n then m else DoOpenReserve(m, v, id, k, amount, now, valid)
    case SoftAsk(c, p, now, delivered) =>
      if !Live(m, c) || !m.claims[c].phase.Reserving? || p !in m.claims[c].todo || p >= n then m
      else DoSoftAsk(m, c, p, now, delivered)
    case OpenConsume(v, id) =>
      if v >= n then m else m.(claims := m.claims + [Claim(v, id, Consuming, Range(0, n), [], {}, Running)])
    case CommitReserved(c) =>
      if c >= |m.claims| || !m.claims[c].phase.Reserving? || m.claims[c].status != Done(Ok(())) || m.claims[c].node >= n then m
      else DoCommit(m, c)
    case Ask(c, p, delivered) =>
      if c >= |m.claims| || p >= n || !m.claims[c].phase.Consuming? then m
      else if p != m.claims[c].node && m.claims[c].node !in m.claims[c].granted then m
      else if m.claims[c].id in m.nodes[p].b.consumed then Answer(m, c, p, true, delivered)
      else m.(reqs := m.reqs + [Req(p, c, Checked)])
    case Write(q, disk) =>
      if q >= |m.reqs| || m.reqs[q].stage != Checked || m.reqs[q].claim >= |m.claims| || m.reqs[q].node >= n then m
      else DoWrite(m, q, disk)
    case Insert(q, delivered) =>
      if q >= |m.reqs| || m.reqs[q].stage != Appended || m.reqs[q].claim >= |m.claims| || m.reqs[q].node >= n then m
      else DoInsert(m, q, delivered)
    case Skip(c, p) =>
      if !Live(m, c) || p == m.claims[c].node then m
      else m.(claims := m.claims[c := m.claims[c].(todo := m.claims[c].todo - {p})])
    case Finish(c) =>
      if !Live(m, c) || m.claims[c].todo != {} || m.claims[c].node >= n then m else Concluded(m, c)
    case Fail(c) =>
      if !Live(m, c) then m else m.(claims := m.claims[c := m.claims[c].(status := Done(Err(Error.Threshold)))])
    case ReleaseAt(v, id, k, amount) =>
      if v >= n then m else SetNode(m, v, m.nodes[v].(b := Release(m.nodes[v].b, id, k, amount)))
    case Reload(v) =>
      if v >= n then m else SetNode(Killed(m, v), v, BootNode(m.nodes[v].b.policies, m.nodes[v].log))
    case Forget(v) =>
      if v >= n || |m.forgot + {v}| > m.budget then m
      else SetNode(Killed(m, v).(forgot := m.forgot + {v}), v, BootNode(m.nodes[v].b.policies, ""))
  }

  ghost function DoOpenReserve(m: Mesh, v: nat, id: string, k: Kind, amount: nat, now: nat, valid: bool): Mesh
    requires v < |m.nodes|
  {
    var (b, r) := LocalReserve(m.nodes[v].b, id, k, amount, now, Gatekeeper(valid));
    var m' := SetNode(Swept(m, v, now), v, m.nodes[v].(b := b));
    m'.(claims := m.claims + [
      if r.Ok? then Claim(v, id, Reserving(k, amount), Range(0, |m.nodes|) - {v}, [], {v}, Running)
      else Claim(v, id, Reserving(k, amount), {}, [], {}, Done(Err(IntentReplay)))])
  }

  ghost function DoSoftAsk(m: Mesh, c: nat, p: nat, now: nat, delivered: bool): Mesh
    requires c < |m.claims| && p < |m.nodes|
  {
    var (b, seen) := SoftHold(m.nodes[p].b, m.claims[c].id, now);
    Answer(SetNode(Swept(m, p, now), p, m.nodes[p].(b := b)), c, p, seen, delivered)
  }

  /** `commit_consume` on the node of a finished reserve: Ok at once if the id is consumed there, else a claim. */
  function DoCommit(m: Mesh, c: nat): Mesh
    requires c < |m.claims| && m.claims[c].node < |m.nodes|
  {
    var v, id := m.claims[c].node, m.claims[c].id;
    if id in m.nodes[v].b.consumed then m.(commits := m.commits + [Commit(c, None)])
    else m.(claims := m.claims + [Claim(v, id, Consuming, Range(0, |m.nodes|), [], {}, Running)],
            commits := m.commits + [Commit(c, Some(|m.claims|))])
  }

  function DoWrite(m: Mesh, q: nat, disk: AN.Disk): Mesh
    requires q < |m.reqs| && m.reqs[q].claim < |m.claims| && m.reqs[q].node < |m.nodes|
  {
    var v := m.reqs[q].node;
    SetStage(SetNode(m, v, Logged(m.nodes[v], m.claims[m.reqs[q].claim].id, disk)), q,
             if disk.Synced? then Appended else Dead)
  }

  function DoInsert(m: Mesh, q: nat, delivered: bool): Mesh
    requires q < |m.reqs| && m.reqs[q].claim < |m.claims| && m.reqs[q].node < |m.nodes|
  {
    var c, v := m.reqs[q].claim, m.reqs[q].node;
    var s, id := m.nodes[v], m.claims[m.reqs[q].claim].id;
    var m' := SetStage(SetNode(m, v, if id in s.b.consumed then s else s.(b := Consume(s.b, id))), q, Dead);
    Answer(m', c, v, id in s.b.consumed, delivered)
  }

  ghost function Run(m: Mesh, evs: seq<Event>): Mesh {
    if evs == [] then m else Step(Run(m, evs[..|evs| - 1]), evs[|evs| - 1])
  }

  // ---------- invariant ----------

  ghost predicate Durable(s: Node) {
    && L.Terminated(s.log)
    && forall id :: id in s.b.consumed && L.Fits(id, true) ==> id in ReadBack(s.log)
  }

  ghost predicate ReqInv(m: Mesh, q: Req) {
    && q.claim < |m.claims| && q.node < |m.nodes|
    && m.claims[q.claim].phase.Consuming?
    && (q.stage == Appended && L.Fits(m.claims[q.claim].id, true) ==>
          m.claims[q.claim].id in ReadBack(m.nodes[q.node].log))
  }

  ghost predicate ClaimInv(m: Mesh, c: Claim)
    requires m.nodes != []
  {
    && c.node < |m.nodes|
    && c.granted <= Range(0, |m.nodes|)
    && c.granted !! c.todo
    && (c.status == Running && true !in c.acks ==> |c.granted - {c.node}| == |c.acks|)
    && (c.status == Running ==> c.node in c.granted + c.todo)
    && (c.phase.Reserving? && c.status == Running ==> c.node in c.granted)
    && (c.status == Done(Ok(())) ==> |c.granted| >= Threshold(m))
  }

  /** A reserve that still stands: running, successful, or lost in transport with its hold in place. */
  predicate Holding(c: Claim) {
    c.phase.Reserving? && (c.status == Running || c.status == Done(Ok(())) || c.status == Done(Err(Error.Threshold)))
  }

  ghost predicate Remembered(m: Mesh, c: Claim) {
    && (c.phase.Consuming? && L.Fits(c.id, true) ==>
          forall v :: v in c.granted && v < |m.nodes| && v !in m.forgot ==> c.id in m.nodes[v].b.consumed)
    && (Holding(c) ==>
          forall v :: v in c.granted && v < |m.nodes| && (v, c.id) !in m.lapsed ==> c.id in Blocked(m.nodes[v].b))
  }

  ghost predicate Exclusive(m: Mesh, c: Claim, d: Claim) {
    c.id == d.id ==>
      && (c.phase.Consuming? && d.phase.Consuming? && L.Fits(c.id, true) ==> c.granted * d.granted <= m.forgot)
      && (Holding(c) && Holding(d) ==> forall v :: v in c.granted && v in d.granted ==> (v, c.id) in m.lapsed)
  }

  ghost predicate Inv(m: Mesh) {
    && m.nodes != []
    && |m.forgot| <= m.budget
    && (forall v :: 0 <= v < |m.nodes| ==> Durable(m.nodes[v]))
    && (forall q :: 0 <= q < |m.reqs| ==> ReqInv(m, m.reqs[q]))
    && (forall c :: 0 <= c < |m.claims| ==> ClaimInv(m, m.claims[c]) && Remembered(m, m.claims[c]))
    && (forall c, d :: 0 <= c < d < |m.claims| ==> Exclusive(m, m.claims[c], m.claims[d]))
  }

  // ---------- what one change preserves ----------

  /** Changing one node: it may drop reservations, but no burn it still answers for. */
  lemma SetNodeInv(m: Mesh, v: nat, s: Node)
    requires Inv(m) && v < |m.nodes| && Durable(s)
    requires v !in m.forgot ==>
               forall id :: id in m.nodes[v].b.consumed && L.Fits(id, true) ==> id in s.b.consumed
    requires forall q :: 0 <= q < |m.reqs| && m.reqs[q].node == v && m.reqs[q].stage == Appended ==>
               ReadBack(m.nodes[v].log) <= ReadBack(s.log)
    ensures Inv(SetNode(m, v, s))
  {
    hide L.Load, L.Fits, L.Terminated, Held, GiveBack, ReadBack;
    var m' := SetNode(m, v, s);
    forall q | 0 <= q < |m.reqs| ensures ReqInv(m', m.reqs[q]) {
      assert ReqInv(m, m.reqs[q]);
    }
    forall c | 0 <= c < |m.claims| ensures ClaimInv(m', m.claims[c]) && Remembered(m', m.claims[c]) {
      assert ClaimInv(m, m.claims[c]) && Remembered(m, m.claims[c]);
    }
    forall c, d | 0 <= c < d < |m.claims| ensures Exclusive(m', m.claims[c], m.claims[d]) {
      assert Exclusive(m, m.claims[c], m.claims[d]);
    }
  }

  /** A claim may replace its predecessor when it promises nothing new. */
  lemma WeakenInv(m: Mesh, c: nat, cl: Claim)
    requires Inv(m) && c < |m.claims|
    requires cl.id == m.claims[c].id && cl.phase == m.claims[c].phase && cl.granted == m.claims[c].granted
    requires ClaimInv(m, cl)
    requires Holding(cl) ==> Holding(m.claims[c])
    ensures Inv(m.(claims := m.claims[c := cl]))
  {
    hide L.Load, L.Fits, L.Terminated, Held, GiveBack, ReadBack, ClaimInv, Durable;
    ClaimFrame(m, c, cl);
    var m' := m.(claims := m.claims[c := cl]);
    assert Remembered(m, m.claims[c]);
    assert Remembered(m', cl);
    forall d, e | 0 <= d < e < |m.claims| ensures Exclusive(m', m'.claims[d], m'.claims[e]) {
      assert Exclusive(m, m.claims[d], m.claims[e]);
    }
  }

  /** What changing a claim's record leaves alone. */
  lemma ClaimFrame(m: Mesh, c: nat, cl: Claim)
    requires Inv(m) && c < |m.claims| && cl.id == m.claims[c].id && cl.phase == m.claims[c].phase
    ensures var m' := m.(claims := m.claims[c := cl]);
            && (forall q :: 0 <= q < |m.reqs| ==> ReqInv(m', m.reqs[q]))
            && (forall d :: 0 <= d < |m.claims| && d != c ==> ClaimInv(m', m.claims[d]) && Remembered(m', m.claims[d]))
            && (ClaimInv(m, cl) ==> ClaimInv(m', cl))
  {
    hide L.Load, L.Fits, L.Terminated, Held, GiveBack, ReadBack;
    var m' := m.(claims := m.claims[c := cl]);
    forall q | 0 <= q < |m.reqs| ensures ReqInv(m', m.reqs[q]) {
      assert ReqInv(m, m.reqs[q]);
    }
    forall d | 0 <= d < |m.claims| && d != c ensures ClaimInv(m', m.claims[d]) && Remembered(m', m.claims[d]) {
      assert ClaimInv(m, m.claims[d]) && Remembered(m, m.claims[d]);
    }
  }

  /** Node `p` may still say "not seen" to claim `c`: nobody else holds its word. */
  ghost predicate Unpromised(m: Mesh, c: nat, p: nat)
    requires c < |m.claims|
  {
    forall d :: 0 <= d < |m.claims| && d != c && m.claims[d].id == m.claims[c].id && p in m.claims[d].granted ==>
      && (m.claims[c].phase.Consuming? && m.claims[d].phase.Consuming? && L.Fits(m.claims[c].id, true) ==> p in m.forgot)
      && (m.claims[c].phase.Reserving? && Holding(m.claims[d]) ==> (p, m.claims[c].id) in m.lapsed)
  }

  lemma HeardInv(m: Mesh, c: nat, p: nat, seen: bool)
    requires Inv(m) && c < |m.claims| && p < |m.nodes|
    requires !seen ==> Unpromised(m, c, p)
    requires !seen && m.claims[c].phase.Consuming? ==> m.claims[c].id in m.nodes[p].b.consumed
    requires !seen && m.claims[c].phase.Reserving? ==> m.claims[c].id in Blocked(m.nodes[p].b)
    ensures Inv(m.(claims := m.claims[c := Heard(m.claims[c], p, seen)]))
  {
    hide L.Load, L.Fits, L.Terminated, Held, GiveBack, ReadBack, Durable;
    var old_, cl := m.claims[c], Heard(m.claims[c], p, seen);
    if cl == old_ {
      assert m.(claims := m.claims[c := cl]) == m;
    } else {
      HeardClaimInv(m, old_, p, seen);
      if cl.granted == old_.granted {
        WeakenInv(m, c, cl);
      } else {
        GrantInv(m, c, p, cl);
      }
    }
  }

  lemma AcksGrow(acks: seq<bool>, seen: bool)
    ensures true in acks + [seen] <==> true in acks || seen
  {
    assert (acks + [seen])[|acks|] == seen;
    assert forall i :: 0 <= i < |acks| ==> (acks + [seen])[i] == acks[i];
  }

  lemma HeardClaimInv(m: Mesh, c: Claim, p: nat, seen: bool)
    requires m.nodes != [] && p < |m.nodes| && ClaimInv(m, c)
    ensures ClaimInv(m, Heard(c, p, seen))
  {
    hide Threshold, Range;
    if Heard(c, p, seen) != c {
      if p == c.node {
        HeardLocal(m, c, seen);
      } else {
        HeardPeer(m, c, p, seen);
      }
    }
  }

  lemma HeardLocal(m: Mesh, c: Claim, seen: bool)
    requires m.nodes != [] && ClaimInv(m, c) && c.status == Running && c.node in c.todo
    ensures ClaimInv(m, Heard(c, c.node, seen))
  {
    hide Threshold, Range;
    assert (c.granted + {c.node}) - {c.node} == c.granted - {c.node};
    assert c.node in Range(0, |m.nodes|);
  }

  lemma HeardPeer(m: Mesh, c: Claim, p: nat, seen: bool)
    requires m.nodes != [] && p < |m.nodes| && ClaimInv(m, c) && c.status == Running && p in c.todo && p != c.node
    ensures ClaimInv(m, Heard(c, p, seen))
  {
    hide Threshold, Range;
    AcksGrow(c.acks, seen);
    assert p in Range(0, |m.nodes|);
    assert (c.granted + {p}) - {c.node} == (c.granted - {c.node}) + {p};
  }

  lemma GrantInv(m: Mesh, c: nat, p: nat, cl: Claim)
    requires Inv(m) && c < |m.claims| && p < |m.nodes|
    requires cl.id == m.claims[c].id && cl.phase == m.claims[c].phase && cl.granted == m.claims[c].granted + {p}
    requires ClaimInv(m, cl) && m.claims[c].status == Running
    requires Unpromised(m, c, p)
    requires cl.phase.Consuming? ==> cl.id in m.nodes[p].b.consumed
    requires cl.phase.Reserving? ==> cl.id in Blocked(m.nodes[p].b)
    ensures Inv(m.(claims := m.claims[c := cl]))
  {
    hide L.Load, L.Fits, L.Terminated, Held, GiveBack, ReadBack, ClaimInv, Durable;
    ClaimFrame(m, c, cl);
    var m' := m.(claims := m.claims[c := cl]);
    assert Remembered(m, m.claims[c]);
    assert Remembered(m', cl);
    forall d, e | 0 <= d < e < |m.claims| ensures Exclusive(m', m'.claims[d], m'.claims[e]) {
      assert Exclusive(m, m.claims[d], m.claims[e]);
    }
  }

  /** Appending a claim that holds nothing yet, or only a hold nobody else has. */
  lemma AddClaimInv(m: Mesh, cl: Claim)
    requires Inv(m) && ClaimInv(m, cl) && Remembered(m, cl)
    requires forall d :: 0 <= d < |m.claims| ==> Exclusive(m, m.claims[d], cl)
    ensures Inv(m.(claims := m.claims + [cl]))
  {
    hide L.Load, L.Fits, L.Terminated, Held, GiveBack, ReadBack, Durable;
    var m' := m.(claims := m.claims + [cl]);
    forall q | 0 <= q < |m.reqs| ensures ReqInv(m', m.reqs[q]) {
      assert ReqInv(m, m.reqs[q]);
    }
    forall d | 0 <= d < |m'.claims| ensures ClaimInv(m', m'.claims[d]) && Remembered(m', m'.claims[d]) {
      if d < |m.claims| {
        assert ClaimInv(m, m.claims[d]) && Remembered(m, m.claims[d]);
      }
    }
    forall d, e | 0 <= d < e < |m'.claims| ensures Exclusive(m', m'.claims[d], m'.claims[e]) {
      assert Exclusive(m, m'.claims[d], m'.claims[e]);
    }
  }

  /** If a node does not block an id, no reserve that still stands holds its word on that id. */
  lemma NobodyHolds(m: Mesh, v: nat, id: string)
    requires Inv(m) && v < |m.nodes| && id !in Blocked(m.nodes[v].b)
    ensures forall d :: 0 <= d < |m.claims| && m.claims[d].id == id && v in m.claims[d].granted ==>
              && (Holding(m.claims[d]) ==> (v, id) in m.lapsed)
              && (m.claims[d].phase.Consuming? && L.Fits(id, true) ==> v in m.forgot)
  {
    hide L.Load, L.Fits, L.Terminated, Held, GiveBack, ReadBack, Durable, ClaimInv;
    forall d | 0 <= d < |m.claims| && m.claims[d].id == id && v in m.claims[d].granted
      ensures Holding(m.claims[d]) ==> (v, id) in m.lapsed
      ensures m.claims[d].phase.Consuming? && L.Fits(id, true) ==> v in m.forgot
    {
      assert Remembered(m, m.claims[d]);
    }
  }

  /** Same for consume claims, when the id is not consumed on the node. */
  lemma NobodyConsumed(m: Mesh, v: nat, id: string)
    requires Inv(m) && v < |m.nodes| && id !in m.nodes[v].b.consumed && L.Fits(id, true)
    ensures forall d :: 0 <= d < |m.claims| && m.claims[d].id == id && v in m.claims[d].granted ==>
              (m.claims[d].phase.Consuming? ==> v in m.forgot)
  {
    hide L.Load, L.Fits, L.Terminated, Held, GiveBack, ReadBack, Durable, ClaimInv;
    forall d | 0 <= d < |m.claims| && m.claims[d].id == id && v in m.claims[d].granted
      ensures m.claims[d].phase.Consuming? ==> v in m.forgot
    {
      assert Remembered(m, m.claims[d]);
    }
  }

  /** A node change that only touches spend and reservations. */
  lemma SoftNodeInv(m: Mesh, v: nat, b: Bucket)
    requires Inv(m) && v < |m.nodes| && b.consumed == m.nodes[v].b.consumed
    ensures Inv(SetNode(m, v, m.nodes[v].(b := b)))
  {
    hide L.Load, L.Fits, L.Terminated, Held, GiveBack, ReadBack;
    assert Durable(m.nodes[v]);
    SetNodeInv(m, v, m.nodes[v].(b := b));
  }

  lemma OpenReserveInv(m: Mesh, v: nat, id: string, k: Kind, amount: nat, now: nat, valid: bool)
    requires Inv(m) && v < |m.nodes|
    ensures Inv(DoOpenReserve(m, v, id, k, amount, now, valid))
  {
    hide L.Load, L.Fits, L.Terminated, Held, GiveBack, ReadBack, Inv, Durable, Range;
    var (b, r) := LocalReserve(m.nodes[v].b, id, k, amount, now, Gatekeeper(valid));
    var m1 := Swept(m, v, now);
    SoftNodeInv(m, v, Sweep(m.nodes[v].b, now));
    SoftNodeInv(m1, v, b);
    var m2 := SetNode(m1, v, m1.nodes[v].(b := b));
    var cl := if r.Ok? then Claim(v, id, Reserving(k, amount), Range(0, |m.nodes|) - {v}, [], {v}, Running)
              else Claim(v, id, Reserving(k, amount), {}, [], {}, Done(Err(IntentReplay)));
    assert cl.granted - {v} == {};
    if r.Ok? {
      NobodyHolds(m1, v, id);
    }
    AddClaimInv(m2, cl);
    assert m2.nodes == m.nodes[v := m.nodes[v].(b := b)];
  }

  lemma SoftAskInv(m: Mesh, c: nat, p: nat, now: nat, delivered: bool)
    requires Inv(m) && Live(m, c) && m.claims[c].phase.Reserving? && p in m.claims[c].todo && p < |m.nodes|
    ensures Inv(DoSoftAsk(m, c, p, now, delivered))
  {
    hide L.Load, L.Fits, L.Terminated, Held, GiveBack, ReadBack, Inv, Durable, Range;
    var id := m.claims[c].id;
    var (b, seen) := SoftHold(m.nodes[p].b, id, now);
    var m1 := Swept(m, p, now);
    SoftNodeInv(m, p, Sweep(m.nodes[p].b, now));
    SoftNodeInv(m1, p, b);
    var m2 := SetNode(m1, p, m1.nodes[p].(b := b));
    if !seen {
      NobodyHolds(m1, p, id);
    }
    HeardInv(m2, c, p, seen);
  }

  lemma OpenConsumeInv(m: Mesh, v: nat, id: string)
    requires Inv(m) && v < |m.nodes|
    ensures Inv(Step(m, OpenConsume(v, id)))
  {
    hide L.Load, L.Fits, L.Terminated, Held, GiveBack, ReadBack, Inv, Durable, Range;
    AddClaimInv(m, Claim(v, id, Consuming, Range(0, |m.nodes|), [], {}, Running));
  }

  lemma CommitsFrame(m: Mesh, commits: seq<Commit>)
    requires Inv(m)
    ensures Inv(m.(commits := commits))
  {
    hide L.Load, L.Fits, L.Terminated, Held, GiveBack, ReadBack, Durable;
    var m' := m.(commits := commits);
    forall q | 0 <= q < |m.reqs| ensures ReqInv(m', m.reqs[q]) {
      assert ReqInv(m, m.reqs[q]);
    }
    forall d | 0 <= d < |m.claims| ensures ClaimInv(m', m.claims[d]) && Remembered(m', m.claims[d]) {
      assert ClaimInv(m, m.claims[d]) && Remembered(m, m.claims[d]);
    }
    forall d, e | 0 <= d < e < |m.claims| ensures Exclusive(m', m.claims[d], m.claims[e]) {
      assert Exclusive(m, m.claims[d], m.claims[e]);
    }
  }

  lemma CommitInv(m: Mesh, c: nat)
    requires Inv(m) && c < |m.claims| && m.claims[c].node < |m.nodes|
    ensures Inv(DoCommit(m, c))
  {
    hide L.Load, L.Fits, L.Terminated, Held, GiveBack, ReadBack, Inv, Durable, Range;
    var v, id := m.claims[c].node, m.claims[c].id;
    if id in m.nodes[v].b.consumed {
      CommitsFrame(m, m.commits + [Commit(c, None)]);
    } else {
      OpenConsumeInv(m, v, id);
      CommitsFrame(Step(m, OpenConsume(v, id)), m.commits + [Commit(c, Some(|m.claims|))]);
    }
  }

  lemma ReqsInv(m: Mesh, reqs: seq<Req>)
    requires Inv(m) && forall q :: 0 <= q < |reqs| ==> ReqInv(m, reqs[q])
    ensures Inv(m.(reqs := reqs))
  {
    hide L.Load, L.Fits, L.Terminated, Held, GiveBack, ReadBack, Durable;
    var m' := m.(reqs := reqs);
    forall q | 0 <= q < |reqs| ensures ReqInv(m', reqs[q]) {
      assert ReqInv(m, reqs[q]);
    }
    forall d | 0 <= d < |m.claims| ensures ClaimInv(m', m.claims[d]) && Remembered(m', m.claims[d]) {
      assert ClaimInv(m, m.claims[d]) && Remembered(m, m.claims[d]);
    }
    forall d, e | 0 <= d < e < |m.claims| ensures Exclusive(m', m.claims[d], m.claims[e]) {
      assert Exclusive(m, m.claims[d], m.claims[e]);
    }
  }

  lemma AskInv(m: Mesh, c: nat, p: nat, delivered: bool)
    requires Inv(m) && c < |m.claims| && p < |m.nodes| && m.claims[c].phase.Consuming?
    ensures Inv(m.(reqs := m.reqs + [Req(p, c, Checked)]))
    ensures Inv(Answer(m, c, p, true, delivered))
  {
    hide L.Load, L.Fits, L.Terminated, Held, GiveBack, ReadBack, Durable, ClaimInv, Remembered, Exclusive;
    HeardInv(m, c, p, true);
    ReqsInv(m, m.reqs + [Req(p, c, Checked)]);
  }

  lemma WriteInv(m: Mesh, q: nat, disk: AN.Disk)
    requires Inv(m) && q < |m.reqs| && m.reqs[q].stage == Checked
    ensures Inv(DoWrite(m, q, disk))
  {
    hide L.Load, L.Fits, L.Terminated, Held, GiveBack, ClaimInv, Remembered, Exclusive;
    assert ReqInv(m, m.reqs[q]);
    var v, id := m.reqs[q].node, m.claims[m.reqs[q].claim].id;
    var s := Logged(m.nodes[v], id, disk);
    assert Durable(m.nodes[v]);
    L.AppendKeeps(m.nodes[v].log, id, true);
    SetNodeInv(m, v, s);
    var m' := SetNode(m, v, s);
    if disk.Synced? && L.Fits(id, true) {
      L.AppendFits(m.nodes[v].log, id, true);
    }
    ReqsInv(m', m'.reqs[q := m'.reqs[q].(stage := if disk.Synced? then Appended else Dead)]);
  }

  lemma InsertInv(m: Mesh, q: nat, delivered: bool)
    requires Inv(m) && q < |m.reqs| && m.reqs[q].stage == Appended
    ensures Inv(DoInsert(m, q, delivered))
  {
    hide L.Load, L.Fits, L.Terminated, Held, GiveBack, ClaimInv, Remembered, Exclusive, ReadBack;
    assert ReqInv(m, m.reqs[q]);
    var c, v := m.reqs[q].claim, m.reqs[q].node;
    var id, s := m.claims[c].id, m.nodes[v];
    var seen := id in s.b.consumed;
    var s' := if seen then s else s.(b := Consume(s.b, id));
    assert Durable(s);
    SetNodeInv(m, v, s');
    var m1 := SetNode(m, v, s');
    ReqsInv(m1, m1.reqs[q := m1.reqs[q].(stage := Dead)]);
    var m2 := SetStage(m1, q, Dead);
    if !seen && L.Fits(id, true) {
      NobodyConsumed(m, v, id);
    }
    assert m2.claims == m.claims && m2.forgot == m.forgot;
    HeardInv(m2, c, v, seen);
  }

  lemma StatusInv(m: Mesh, c: nat, status: Status)
    requires Inv(m) && Live(m, c) && status != Running
    requires status == Done(Ok(())) ==> |m.claims[c].granted| >= Threshold(m)
    ensures Inv(m.(claims := m.claims[c := m.claims[c].(status := status)]))
  {
    hide L.Load, L.Fits, L.Terminated, Held, GiveBack, ReadBack, Durable;
    WeakenInv(m, c, m.claims[c].(status := status));
  }

  /** Dropping a reservation that no standing reserve relies on lapses nothing. */
  lemma DropInv(m: Mesh, v: nat, b: Bucket, id: string)
    requires Inv(m) && v < |m.nodes| && b.consumed == m.nodes[v].b.consumed
    requires m.nodes[v].b.reserved.Keys - {id} <= b.reserved.Keys
    requires forall d :: 0 <= d < |m.claims| && m.claims[d].id == id && Holding(m.claims[d]) && v in m.claims[d].granted ==>
               (v, id) in m.lapsed
    ensures Inv(m.(nodes := m.nodes[v := m.nodes[v].(b := b)]))
  {
    hide L.Load, L.Fits, L.Terminated, Held, GiveBack, ReadBack;
    var m' := m.(nodes := m.nodes[v := m.nodes[v].(b := b)]);
    assert Durable(m.nodes[v]);
    forall q | 0 <= q < |m.reqs| ensures ReqInv(m', m.reqs[q]) {
      assert ReqInv(m, m.reqs[q]);
    }
    forall d | 0 <= d < |m.claims| ensures ClaimInv(m', m.claims[d]) && Remembered(m', m.claims[d]) {
      assert ClaimInv(m, m.claims[d]) && Remembered(m, m.claims[d]);
    }
    forall d, e | 0 <= d < e < |m.claims| ensures Exclusive(m', m.claims[d], m.claims[e]) {
      assert Exclusive(m, m.claims[d], m.claims[e]);
    }
  }

  /** While a claim runs, no other standing reserve of its id holds the word of its own node, unless that lapsed. */
  lemma OwnNodeFree(m: Mesh, c: nat)
    requires Inv(m) && Live(m, c) && m.claims[c].phase.Reserving?
    ensures forall d | 0 <= d < |m.claims| && d != c && m.claims[d].id == m.claims[c].id && Holding(m.claims[d]) ::
              m.claims[c].node in m.claims[d].granted ==> (m.claims[c].node, m.claims[c].id) in m.lapsed
  {
    hide L.Load, L.Fits, L.Terminated, Held, GiveBack, ReadBack, Durable, Remembered;
    assert ClaimInv(m, m.claims[c]);
    forall d | 0 <= d < |m.claims| && d != c && m.claims[d].id == m.claims[c].id && Holding(m.claims[d]) &&
      m.claims[c].node in m.claims[d].granted
      ensures (m.claims[c].node, m.claims[c].id) in m.lapsed
    {
      assert Exclusive(m, m.claims[if c < d then c else d], m.claims[if c < d then d else c]);
    }
  }

  lemma FinishInv(m: Mesh, c: nat)
    requires Inv(m) && Live(m, c) && m.claims[c].todo == {}
    ensures m.claims[c].node < |m.nodes| && Inv(Concluded(m, c))
  {
    hide L.Load, L.Fits, L.Terminated, Held, GiveBack, ReadBack, Durable, Remembered, Exclusive, Range;
    var cl := m.claims[c];
    assert ClaimInv(m, cl);
    var verdict := Settle(cl.acks, Threshold(m));
    if true !in cl.acks {
      assert cl.granted == (cl.granted - {cl.node}) + {cl.node};
    }
    StatusInv(m, c, Done(verdict));
    var m' := m.(claims := m.claims[c := cl.(status := Done(verdict))]);
    if cl.phase.Reserving? && verdict.Err? {
      OwnNodeFree(m, c);
      DropInv(m', cl.node, Release(m.nodes[cl.node].b, cl.id, cl.phase.kind, cl.phase.amount), cl.id);
    }
  }

  lemma KilledClaim(m: Mesh, m': Mesh, c: Claim, v: nat)
    requires m.nodes != [] && m'.nodes == m.nodes && m'.forgot == m.forgot && m'.lapsed == m.lapsed
    requires ClaimInv(m, c) && Remembered(m, c)
    ensures ClaimInv(m', KillClaim(c, v)) && Remembered(m', KillClaim(c, v))
  {
    hide L.Fits, Range;
  }

  lemma KilledPair(m: Mesh, m': Mesh, c: Claim, d: Claim, v: nat)
    requires m'.forgot == m.forgot && m'.lapsed == m.lapsed && Exclusive(m, c, d)
    ensures Exclusive(m', KillClaim(c, v), KillClaim(d, v))
  {
    hide L.Fits;
  }

  lemma KilledReq(m: Mesh, m': Mesh, q: Req, v: nat)
    requires m' == Killed(m, v) && ReqInv(m, q)
    ensures ReqInv(m', KillReq(q, v))
  {
    hide L.Fits, ReadBack;
  }

  lemma KilledInv(m: Mesh, v: nat)
    requires Inv(m)
    ensures Inv(Killed(m, v))
  {
    hide L.Load, L.Fits, L.Terminated, Held, GiveBack, ReadBack, Durable, KillClaim, KillReq, ClaimInv, Remembered, Exclusive, ReqInv;
    var m' := Killed(m, v);
    forall q | 0 <= q < |m.reqs| ensures ReqInv(m', m'.reqs[q]) {
      KilledReq(m, m', m.reqs[q], v);
    }
    forall d | 0 <= d < |m.claims| ensures ClaimInv(m', m'.claims[d]) && Remembered(m', m'.claims[d]) {
      KilledClaim(m, m', m.claims[d], v);
    }
    forall d, e | 0 <= d < e < |m.claims| ensures Exclusive(m', m'.claims[d], m'.claims[e]) {
      KilledPair(m, m', m.claims[d], m.claims[e], v);
    }
  }

  lemma ForgotInv(m: Mesh, v: nat)
    requires Inv(m) && |m.forgot + {v}| <= m.budget
    ensures Inv(m.(forgot := m.forgot + {v}))
  {
    hide L.Load, L.Fits, L.Terminated, Held, GiveBack, ReadBack, Durable;
    var m' := m.(forgot := m.forgot + {v});
    forall q | 0 <= q < |m.reqs| ensures ReqInv(m', m.reqs[q]) {
      assert ReqInv(m, m.reqs[q]);
    }
    forall d | 0 <= d < |m.claims| ensures ClaimInv(m', m.claims[d]) && Remembered(m', m.claims[d]) {
      assert ClaimInv(m, m.claims[d]) && Remembered(m, m.claims[d]);
    }
    forall d, e | 0 <= d < e < |m.claims| ensures Exclusive(m', m.claims[d], m.claims[e]) {
      assert Exclusive(m, m.claims[d], m.claims[e]);
    }
  }

  lemma BootInv(m: Mesh, v: nat, log: string)
    requires Inv(m) && v < |m.nodes|
    requires log == m.nodes[v].log || (log == "" && v in m.forgot)
    ensures Inv(SetNode(Killed(m, v), v, BootNode(m.nodes[v].b.policies, log)))
  {
    L.LoadEmpty(true);
    hide L.Load, L.Fits, L.Terminated, Held, GiveBack, ClaimInv, Remembered, Exclusive;
    assert Durable(m.nodes[v]);
    KilledInv(m, v);
    SetNodeInv(Killed(m, v), v, BootNode(m.nodes[v].b.policies, log));
  }

  lemma StepInv(m: Mesh, e: Event)
    requires Inv(m)
    ensures Inv(Step(m, e))
  {
    hide L.Load, L.Fits, L.Terminated, Held, GiveBack, ReadBack, Durable, ClaimInv, Remembered, Exclusive,
      DoOpenReserve, DoSoftAsk, DoCommit, DoWrite, DoInsert, Killed, Concluded, Answer, SetNode, Inv;
    var n := |m.nodes|;
    match e {
      case OpenReserve(v, id, k, amount, now, valid) =>
        if v < n { OpenReserveInv(m, v, id, k, amount, now, valid); }
      case SoftAsk(c, p, now, delivered) =>
        if Live(m, c) && m.claims[c].phase.Reserving? && p in m.claims[c].todo && p < n {
          SoftAskInv(m, c, p, now, delivered);
        }
      case OpenConsume(v, id) => if v < n { OpenConsumeInv(m, v, id); }
      case CommitReserved(c) => if c < |m.claims| && m.claims[c].node < n { CommitInv(m, c); }
      case Ask(c, p, delivered) =>
        if c < |m.claims| && p < n && m.claims[c].phase.Consuming? { AskInv(m, c, p, delivered); }
      case Write(q, disk) => if q < |m.reqs| && m.reqs[q].stage == Checked { WriteInv(m, q, disk); }
      case Insert(q, delivered) => if q < |m.reqs| && m.reqs[q].stage == Appended { InsertInv(m, q, delivered); }
      case Skip(c, p) => if Live(m, c) && p != m.claims[c].node { SkipInv(m, c, p); }
      case Finish(c) => if Live(m, c) && m.claims[c].todo == {} { FinishInv(m, c); }
      case Fail(c) => if Live(m, c) { StatusInv(m, c, Done(Err(Error.Threshold))); }
      case ReleaseAt(v, id, k, amount) => if v < n { SoftNodeInv(m, v, Release(m.nodes[v].b, id, k, amount)); }
      case Reload(v) => if v < n { BootInv(m, v, m.nodes[v].log); }
      case Forget(v) =>
        if v < n && |m.forgot + {v}| <= m.budget {
          ForgotInv(m, v);
          BootInv(m.(forgot := m.forgot + {v}), v, "");
          KilledForgot(m, v);
        }
    }
  }

  lemma KilledForgot(m: Mesh, v: nat)
    ensures Killed(m, v).(forgot := m.forgot + {v}) == Killed(m.(forgot := m.forgot + {v}), v)
  {
  }

  lemma SkipInv(m: Mesh, c: nat, p: nat)
    requires Inv(m) && Live(m, c) && p != m.claims[c].node
    ensures Inv(m.(claims := m.claims[c := m.claims[c].(todo := m.claims[c].todo - {p})]))
  {
    hide L.Load, L.Fits, L.Terminated, Held, GiveBack, ReadBack, Durable;
    WeakenInv(m, c, m.claims[c].(todo := m.claims[c].todo - {p}));
  }

  lemma StepFrame(m: Mesh, e: Event)
    ensures |Step(m, e).nodes| == |m.nodes| && Step(m, e).budget == m.budget
    ensures |m.claims| <= |Step(m, e).claims|
    ensures m.forgot <= Step(m, e).forgot && m.lapsed <= Step(m, e).lapsed
  {
    hide Held, GiveBack, L.Load, Range, SoftHold, LocalReserve, Sweep, Logged, Consume, Release, BootNode, Blocked;
  }

  lemma InitInv(n: nat, policies: map<Kind, Policy>, budget: nat)
    requires n > 0
    ensures Inv(Init(n, policies, budget))
  {
    L.LoadEmpty(true);
    hide L.Load, L.Terminated;
  }

  lemma {:induction false} RunInv(n: nat, policies: map<Kind, Policy>, budget: nat, evs: seq<Event>)
    requires n > 0
    ensures var m := Run(Init(n, policies, budget), evs);
            Inv(m) && |m.nodes| == n && m.budget == budget
  {
    hide Inv, Step;
    if evs == [] {
      InitInv(n, policies, budget);
    } else {
      RunInv(n, policies, budget, evs[..|evs| - 1]);
      StepInv(Run(Init(n, policies, budget), evs[..|evs| - 1]), evs[|evs| - 1]);
      StepFrame(Run(Init(n, policies, budget), evs[..|evs| - 1]), evs[|evs| - 1]);
    }
  }

  // ---------- theorems ----------

  predicate Succeeded(m: Mesh, c: nat, id: string) {
    c < |m.claims| && m.claims[c].id == id && m.claims[c].status == Done(Ok(()))
  }

  predicate Consumed(m: Mesh, c: nat, id: string) {
    Succeeded(m, c, id) && m.claims[c].phase.Consuming?
  }

  predicate Reserved(m: Mesh, c: nat, id: string) {
    Succeeded(m, c, id) && m.claims[c].phase.Reserving?
  }

  /**
   No double spend: over every interleaving, although a durable prepare is not atomic, at most one
   consume claim of a fitting id succeeds on the whole mesh, even if up to `2t - n - 1` nodes lose
   their log.
   */
  lemma SingleConsume(n: nat, policies: map<Kind, Policy>, budget: nat, evs: seq<Event>, id: string, c: nat, d: nat)
    requires n > 0 && budget < 2 * ClaimQuorum(n - 1) - n && L.Fits(id, true)
    requires Consumed(Run(Init(n, policies, budget), evs), c, id)
    requires Consumed(Run(Init(n, policies, budget), evs), d, id)
    ensures c == d
  {
    hide L.Load, L.Fits, L.Terminated, Held, GiveBack, Step, ReadBack, Range;
    var m := Run(Init(n, policies, budget), evs);
    RunInv(n, policies, budget, evs);
    if c != d {
      assert Exclusive(m, m.claims[if c < d then c else d], m.claims[if c < d then d else c]);
      assert ClaimInv(m, m.claims[c]) && ClaimInv(m, m.claims[d]);
      var v := ReliableWitness(Range(0, n), m.claims[c].granted, m.claims[d].granted, m.forgot, Threshold(m));
    }
  }

  /** The nodes that lost a reservation of the id. */
  function LapsedAt(m: Mesh, id: string): set<nat> {
    set v | v in Range(0, |m.nodes|) && (v, id) in m.lapsed
  }

  /**
   Reserve-phase exclusion: while fewer than `2t - n` nodes have lost a reservation of the id (to a TTL,
   an explicit release or a reboot), at most one reserve of it succeeds on the whole mesh, whatever
   other reserves failed and released meanwhile.
   */
  lemma SingleReserve(n: nat, policies: map<Kind, Policy>, budget: nat, evs: seq<Event>, id: string, c: nat, d: nat)
    requires n > 0
    requires |LapsedAt(Run(Init(n, policies, budget), evs), id)| < 2 * ClaimQuorum(n - 1) - n
    requires Reserved(Run(Init(n, policies, budget), evs), c, id)
    requires Reserved(Run(Init(n, policies, budget), evs), d, id)
    ensures c == d
  {
    hide L.Load, L.Fits, L.Terminated, Held, GiveBack, Step, ReadBack;
    var m := Run(Init(n, policies, budget), evs);
    RunInv(n, policies, budget, evs);
    if c != d {
      assert Exclusive(m, m.claims[if c < d then c else d], m.claims[if c < d then d else c]);
      assert ClaimInv(m, m.claims[c]) && ClaimInv(m, m.claims[d]);
      var v := ReliableWitness(Range(0, n), m.claims[c].granted, m.claims[d].granted, LapsedAt(m, id), Threshold(m));
    }
  }

  /** A soft "not seen" or a local hold says the id was not consumed. */
  lemma SoftFresh(b: Bucket, id: string, now: nat, k: Kind, amount: nat, valid: bool)
    ensures !SoftHold(b, id, now).1 ==> id !in b.consumed
    ensures LocalReserve(b, id, k, amount, now, Gatekeeper(valid)).1.Ok? ==> id !in b.consumed
  {
    hide Held, GiveBack;
  }

  /** Answers, verdicts and reboots leave a claim's identity alone. */
  lemma ClaimKeeps(m: Mesh, e: Event, d: nat)
    requires d < |m.claims|
    ensures d < |Step(m, e).claims|
    ensures var c, c' := m.claims[d], Step(m, e).claims[d];
            && c'.id == c.id && c'.phase == c.phase && c'.node == c.node
            && (c.status != Running ==> c' == c)
            && (c.phase.Reserving? && !e.SoftAsk? && !e.Insert? ==> c'.granted == c.granted)
  {
    hide Held, GiveBack, L.Load, L.Fits, L.Terminated, Range, SoftHold, LocalReserve, Sweep, Logged, Consume, Release,
      BootNode, Blocked, Settle;
  }

  lemma FreshGrants(m: Mesh, e: Event, d: nat)
    requires d < |m.claims| && (e.SoftAsk? || e.Insert?)
    ensures d < |Step(m, e).claims|
    ensures forall p :: p in Step(m, e).claims[d].granted && p !in m.claims[d].granted && p < |m.nodes| ==>
              m.claims[d].id !in m.nodes[p].b.consumed
  {
    hide SoftHold, Sweep, Blocked, Range, Consume;
    if e.SoftAsk? && e.peer < |m.nodes| {
      SoftFresh(m.nodes[e.peer].b, m.claims[d].id, e.now, Users, 0, true);
    }
  }

  /** What one event can do to an existing claim. */
  lemma ClaimEvolves(m: Mesh, e: Event, d: nat)
    requires d < |m.claims|
    ensures d < |Step(m, e).claims|
    ensures var c, c' := m.claims[d], Step(m, e).claims[d];
            && c'.id == c.id && c'.phase == c.phase && c'.node == c.node
            && (c.status != Running ==> c' == c)
            && (c.phase.Reserving? ==>
                  forall p :: p in c'.granted && p !in c.granted && p < |m.nodes| ==> c.id !in m.nodes[p].b.consumed)
  {
    hide Step;
    ClaimKeeps(m, e, d);
    if e.SoftAsk? || e.Insert? {
      FreshGrants(m, e, d);
    }
  }

  /** What one event can open. */
  lemma ClaimOpens(m: Mesh, e: Event)
    ensures |Step(m, e).claims| <= |m.claims| + 1
    ensures |Step(m, e).claims| == |m.claims| + 1 && Step(m, e).claims[|m.claims|].phase.Reserving? ==>
              var c := Step(m, e).claims[|m.claims|];
              forall p :: p in c.granted && p < |m.nodes| ==> c.id !in m.nodes[p].b.consumed
  {
    hide Held, GiveBack, L.Load, L.Fits, L.Terminated, Range, SoftHold, LocalReserve, Sweep, Logged, Consume, Release,
      BootNode, Blocked;
    if e.OpenReserve? && e.node < |m.nodes| {
      SoftFresh(m.nodes[e.node].b, e.id, e.now, e.kind, e.amount, e.valid);
    }
  }

  /** Claims from index `k` on were opened after claim `c` succeeded; none gets a word `c` still holds. */
  ghost predicate Barred(m: Mesh, c: nat, k: nat) {
    && c < k <= |m.claims| && Consumed(m, c, m.claims[c].id)
    && forall d :: k <= d < |m.claims| && m.claims[d].id == m.claims[c].id && m.claims[d].phase.Reserving? ==>
         m.claims[d].granted * m.claims[c].granted <= m.forgot
  }

  lemma BarredStep(m: Mesh, e: Event, c: nat, k: nat)
    requires Inv(m) && Barred(m, c, k) && L.Fits(m.claims[c].id, true)
    ensures Barred(Step(m, e), c, k) && Step(m, e).claims[c] == m.claims[c]
  {
    hide L.Load, L.Fits, L.Terminated, Held, GiveBack, ReadBack, Durable, Exclusive, Range, Step;
    var m' := Step(m, e);
    ClaimEvolves(m, e, c);
    StepFrame(m, e);
    assert Remembered(m, m.claims[c]) && ClaimInv(m, m.claims[c]);
    forall d | k <= d < |m'.claims| && m'.claims[d].id == m'.claims[c].id && m'.claims[d].phase.Reserving?
      ensures m'.claims[d].granted * m'.claims[c].granted <= m'.forgot
    {
      ClaimOpens(m, e);
      if d < |m.claims| {
        ClaimEvolves(m, e, d);
      }
    }
  }

  lemma {:induction false} BarredRun(m: Mesh, evs: seq<Event>, c: nat, k: nat)
    requires Inv(m) && Barred(m, c, k) && L.Fits(m.claims[c].id, true)
    ensures Inv(Run(m, evs)) && Barred(Run(m, evs), c, k) && Run(m, evs).claims[c] == m.claims[c]
    ensures |Run(m, evs).nodes| == |m.nodes| && Run(m, evs).budget == m.budget
  {
    hide L.Fits, Inv, Step, Barred;
    if evs != [] {
      var before := Run(m, evs[..|evs| - 1]);
      BarredRun(m, evs[..|evs| - 1], c, k);
      StepInv(before, evs[|evs| - 1]);
      StepFrame(before, evs[|evs| - 1]);
      BarredStep(before, evs[|evs| - 1], c, k);
    }
  }

  /**
   Once a consume claim of an id has succeeded, no reserve and no consume of it opened later on any
   node succeeds, whatever expires, is released or reboots in between.
   */
  lemma NothingAfterConsume(n: nat, policies: map<Kind, Policy>, budget: nat, past: seq<Event>, future: seq<Event>,
                            id: string, c: nat, d: nat)
    requires n > 0 && budget < 2 * ClaimQuorum(n - 1) - n && L.Fits(id, true)
    requires Consumed(Run(Init(n, policies, budget), past), c, id)
    requires d >= |Run(Init(n, policies, budget), past).claims|
    ensures !Succeeded(Run(Init(n, policies, budget), past + future), d, id)
  {
    hide L.Load, L.Fits, L.Terminated, Held, GiveBack, Step, ReadBack, Range, Run;
    var m := Run(Init(n, policies, budget), past);
    var m' := Run(Init(n, policies, budget), past + future);
    RunInv(n, policies, budget, past);
    RunApp(Init(n, policies, budget), past, future);
    BarredRun(m, future, c, |m.claims|);
    if Consumed(m', d, id) {
      SingleConsume(n, policies, budget, past + future, id, c, d);
    } else if Reserved(m', d, id) {
      assert ClaimInv(m', m'.claims[c]) && ClaimInv(m', m'.claims[d]);
      var v := ReliableWitness(Range(0, n), m'.claims[c].granted, m'.claims[d].granted, m'.forgot, Threshold(m'));
    }
  }

  lemma {:induction false} RunApp(m: Mesh, past: seq<Event>, future: seq<Event>)
    ensures Run(m, past + future) == Run(Run(m, past), future)
  {
    hide Step;
    if future == [] {
      assert past + future == past;
    } else {
      var all := past + future;
      assert all[..|all| - 1] == past + future[..|future| - 1];
      RunApp(m, past, future[..|future| - 1]);
    }
  }
}
