/**
 One call of the quorum reserve is one run of the intent mesh: hold here, ask the peers in order, give up on
 those that do not answer, decide, and release the hold when refused.
 */
module IntentCalls {
  import opened Wrappers
  import opened Quorum
  import opened Sets
  import opened BucketLedger
  import opened QuorumBucket
  import opened IntentMesh
  import L = LineLog

  /** The peers that answer, in the order they do. */
  predicate Peers(m: Mesh, v: nat, order: seq<nat>) {
    && (forall i :: 0 <= i < |order| ==> order[i] < |m.nodes| && order[i] != v)
    && (forall i, j :: 0 <= i < j < |order| ==> order[i] != order[j])
  }

  /** What they answer at a time: consumed, or held and not expired. */
  function Answers(m: Mesh, id: string, now: nat, order: seq<nat>): (acks: seq<bool>)
    requires forall i :: 0 <= i < |order| ==> order[i] < |m.nodes|
    ensures |acks| == |order|
    ensures forall i :: 0 <= i < |order| ==> acks[i] == Seen(m.nodes[order[i]].b, id, now)
  {
    seq(|order|, i requires 0 <= i < |order| => Seen(m.nodes[order[i]].b, id, now))
  }

  predicate Seen(b: Bucket, id: string, now: nat) {
    id in b.consumed || (id in b.reserved && b.reserved[id].expires > now)
  }

  function Asks(c: nat, now: nat, order: seq<nat>): seq<Event> {
    if order == [] then [] else Asks(c, now, order[..|order| - 1]) + [SoftAsk(c, order[|order| - 1], now, true)]
  }

  /** A running reserve, with what the run needs to know of it. */
  predicate Reserving(m: Mesh, c: nat, v: nat, id: string) {
    c < |m.claims| && m.claims[c].status == Running && m.claims[c].phase.Reserving? && m.claims[c].id == id && m.claims[c].node == v
  }

  ghost predicate Asked(m: Mesh, m': Mesh, c: nat, v: nat, id: string, now: nat, order: seq<nat>)
    requires Peers(m, v, order)
  {
    && |m'.nodes| == |m.nodes| && |m'.claims| == |m.claims| && Reserving(m', c, v, id) && c < |m.claims|
    && m'.claims[c].phase == m.claims[c].phase
    && m'.claims[c].acks == m.claims[c].acks + Answers(m, id, now, order)
    && m'.claims[c].todo == m.claims[c].todo - (set p | p in order)
    && (forall p :: 0 <= p < |m.nodes| && p !in order ==> m'.nodes[p] == m.nodes[p])
  }

  lemma AskStep(m: Mesh, c: nat, v: nat, id: string, p: nat, now: nat)
    requires Reserving(m, c, v, id) && p in m.claims[c].todo && p < |m.nodes| && p != v
    ensures var m' := Step(m, SoftAsk(c, p, now, true));
            && |m'.nodes| == |m.nodes| && |m'.claims| == |m.claims| && Reserving(m', c, v, id)
            && m'.claims[c].phase == m.claims[c].phase
            && m'.claims[c].acks == m.claims[c].acks + [Seen(m.nodes[p].b, id, now)]
            && m'.claims[c].todo == m.claims[c].todo - {p}
            && (forall q :: 0 <= q < |m.nodes| && q != p ==> m'.nodes[q] == m.nodes[q])
  {
    hide Held, GiveBack, L.Load, Blocked;
  }

  lemma PeersInit(m: Mesh, v: nat, order: seq<nat>)
    requires Peers(m, v, order) && order != []
    ensures var init, p := order[..|order| - 1], order[|order| - 1];
            Peers(m, v, init) && p in order && p !in init && p < |m.nodes| && p != v
            && (forall q :: q in init ==> q in order) && (forall q :: q in order <==> q in init || q == p)
  {
    assert order == order[..|order| - 1] + [order[|order| - 1]];
  }

  lemma PeersIn(m: Mesh, v: nat, order: seq<nat>)
    requires Peers(m, v, order)
    ensures forall i :: 0 <= i < |order| ==> order[i] < |m.nodes|
    ensures v !in order
  {
  }

  lemma AnswersNext(m: Mesh, id: string, now: nat, order: seq<nat>)
    requires order != [] && forall i :: 0 <= i < |order| ==> order[i] < |m.nodes|
    ensures Answers(m, id, now, order) ==
            Answers(m, id, now, order[..|order| - 1]) + [Seen(m.nodes[order[|order| - 1]].b, id, now)]
  {
  }

  lemma AskedNext(m: Mesh, mid: Mesh, c: nat, v: nat, id: string, now: nat, order: seq<nat>)
    requires Peers(m, v, order) && order != [] && Peers(m, v, order[..|order| - 1])
    requires Asked(m, mid, c, v, id, now, order[..|order| - 1]) && order[|order| - 1] in m.claims[c].todo
    ensures Asked(m, Step(mid, SoftAsk(c, order[|order| - 1], now, true)), c, v, id, now, order)
  {
    hide Step, Answers, Peers, Seen;
    PeersInit(m, v, order);
    PeersIn(m, v, order);
    AnswersNext(m, id, now, order);
    var init, p := order[..|order| - 1], order[|order| - 1];
    assert mid.nodes[p] == m.nodes[p];
    AskStep(mid, c, v, id, p, now);
    assert (set q | q in order) == (set q | q in init) + {p};
    var x := Seen(m.nodes[p].b, id, now);
    assert m.claims[c].acks + (Answers(m, id, now, init) + [x]) == (m.claims[c].acks + Answers(m, id, now, init)) + [x];
  }

  lemma {:induction false} AskRun(m: Mesh, c: nat, v: nat, id: string, now: nat, order: seq<nat>)
    requires Reserving(m, c, v, id) && Peers(m, v, order)
    requires forall p :: p in order ==> p in m.claims[c].todo
    ensures Asked(m, Run(m, Asks(c, now, order)), c, v, id, now, order)
  {
    hide Step;
    if order == [] {
      assert m.claims[c].acks + [] == m.claims[c].acks;
    } else {
      hide Asked, Peers;
      PeersInit(m, v, order);
      AskRun(m, c, v, id, now, order[..|order| - 1]);
      var all := Asks(c, now, order);
      assert all[..|all| - 1] == Asks(c, now, order[..|order| - 1]);
      AskedNext(m, Run(m, all[..|all| - 1]), c, v, id, now, order);
    }
  }

  lemma OneStep(m: Mesh, e: Event)
    ensures Run(m, [e]) == Step(m, e)
  {
    hide Step;
    assert [e][..0] == [] && Run(m, []) == m;
  }

  /** Giving up on everyone left changes nothing but what is left to do. */
  lemma {:induction false} SkipRun(m: Mesh, c: nat) returns (evs: seq<Event>)
    requires Live(m, c) && m.claims[c].node !in m.claims[c].todo
    ensures Run(m, evs) == m.(claims := m.claims[c := m.claims[c].(todo := {})])
    decreases m.claims[c].todo
  {
    if m.claims[c].todo == {} {
      evs := [];
      assert m.claims[c := m.claims[c].(todo := {})] == m.claims;
    } else {
      var p :| p in m.claims[c].todo;
      var m1 := Step(m, Skip(c, p));
      assert m1 == m.(claims := m.claims[c := m.claims[c].(todo := m.claims[c].todo - {p})]);
      var rest := SkipRun(m1, c);
      evs := [Skip(c, p)] + rest;
      OneStep(m, Skip(c, p));
      RunApp(m, [Skip(c, p)], rest);
    }
  }

  /** The validator's answer on today's total, as the mesh carries it. */
  ghost predicate SaysIt(b: Bucket, k: Kind, now: nat, validate: Validator, valid: bool) {
    k in b.policies ==> (validate(b.policies[k], Tot(Sweep(b, now).spent, k)).Ok? <==> valid)
  }

  lemma SameReserve(b: Bucket, id: string, k: Kind, amount: nat, now: nat, validate: Validator, valid: bool)
    requires SaysIt(b, k, now, validate, valid)
    ensures var here := LocalReserve(b, id, k, amount, now, validate);
            var there := LocalReserve(b, id, k, amount, now, Gatekeeper(valid));
            here.0 == there.0 && (here.1.Ok? <==> there.1.Ok?)
  {
    hide Held, GiveBack, HoldIt;
  }

  lemma OpenStep(m: Mesh, v: nat, id: string, k: Kind, amount: nat, now: nat, valid: bool)
    requires v < |m.nodes|
    ensures var m' := Step(m, OpenReserve(v, id, k, amount, now, valid));
            var (b, r) := LocalReserve(m.nodes[v].b, id, k, amount, now, Gatekeeper(valid));
            && m'.nodes == m.nodes[v := m.nodes[v].(b := b)]
            && m'.claims == m.claims + [
                 if r.Ok? then Claim(v, id, Phase.Reserving(k, amount), Range(0, |m.nodes|) - {v}, [], {v}, Running)
                 else Claim(v, id, Phase.Reserving(k, amount), {}, [], {}, Done(Err(IntentReplay)))]
  {
    hide LocalReserve, Sweep, Blocked;
  }

  /** A reserve the local ledger turns down is refused at once, in the mesh as in the call. */
  lemma RefusedReserve(m: Mesh, v: nat, id: string, k: Kind, amount: nat, now: nat, validate: Validator, valid: bool,
                       acks: Result<seq<bool>>)
    requires v < |m.nodes| && SaysIt(m.nodes[v].b, k, now, validate, valid)
    requires LocalReserve(m.nodes[v].b, id, k, amount, now, validate).1.Err?
    ensures var (b, r) := QuorumReserve(m.nodes[v].b, id, k, amount, now, validate, acks, IntentMesh.Threshold(m));
            var m' := Step(m, OpenReserve(v, id, k, amount, now, valid));
            r.Err? && m'.nodes[v].b == b && |m'.claims| == |m.claims| + 1
            && m'.claims[|m.claims|].status.Done? && m'.claims[|m.claims|].status.verdict.Err?
  {
    hide Step, LocalReserve, Range;
    SameReserve(m.nodes[v].b, id, k, amount, now, validate, valid);
    OpenStep(m, v, id, k, amount, now, valid);
  }

  /** The answers come in: the local bucket keeps its hold meanwhile. */
  lemma AskedReserve(m: Mesh, v: nat, id: string, k: Kind, amount: nat, now: nat, valid: bool, order: seq<nat>) returns (m2: Mesh)
    requires v < |m.nodes| && Peers(m, v, order)
    requires LocalReserve(m.nodes[v].b, id, k, amount, now, Gatekeeper(valid)).1.Ok?
    ensures m2 == Run(Step(m, OpenReserve(v, id, k, amount, now, valid)), Asks(|m.claims|, now, order))
    ensures Reserving(m2, |m.claims|, v, id) && m2.claims[|m.claims|].phase == Phase.Reserving(k, amount)
    ensures m2.claims[|m.claims|].acks == Answers(m, id, now, order) && v !in m2.claims[|m.claims|].todo
    ensures |m2.nodes| == |m.nodes| && |m2.claims| == |m.claims| + 1
    ensures m2.nodes[v].b == LocalReserve(m.nodes[v].b, id, k, amount, now, Gatekeeper(valid)).0
  {
    hide Step, Run, LocalReserve;
    OpenStep(m, v, id, k, amount, now, valid);
    var m1 := Step(m, OpenReserve(v, id, k, amount, now, valid));
    assert Peers(m1, v, order) && Answers(m1, id, now, order) == Answers(m, id, now, order);
    AskRun(m1, |m.claims|, v, id, now, order);
    m2 := Run(m1, Asks(|m.claims|, now, order));
    assert [] + Answers(m, id, now, order) == Answers(m, id, now, order);
    PeersIn(m, v, order);
    assert m2.nodes[v] == m1.nodes[v];
  }

  lemma FinishReserve(m: Mesh, c: nat, v: nat, id: string)
    requires Reserving(m, c, v, id) && m.claims[c].todo == {} && v < |m.nodes|
    ensures var m' := Step(m, Finish(c));
            var (k, amount) := (m.claims[c].phase.kind, m.claims[c].phase.amount);
            var verdict := Settle(m.claims[c].acks, IntentMesh.Threshold(m));
            && |m'.claims| == |m.claims| && m'.claims[c].status == Done(verdict) && |m'.nodes| == |m.nodes|
            && m'.nodes[v].b == if verdict.Ok? then m.nodes[v].b else Release(m.nodes[v].b, id, k, amount)
  {
    hide Settle, Release;
  }

  /**
   For every mesh, intent and choice of peers that answer, in any order, the run OpenReserve, one SoftAsk
   each, Skip for the others, Finish ends with exactly the verdict and the local ledger of the call on the
   answers those peers give.
   */
  lemma ReserveIsRun(m: Mesh, v: nat, id: string, k: Kind, amount: nat, now: nat, validate: Validator, valid: bool,
                     order: seq<nat>) returns (evs: seq<Event>)
    requires v < |m.nodes| && Peers(m, v, order) && SaysIt(m.nodes[v].b, k, now, validate, valid)
    requires LocalReserve(m.nodes[v].b, id, k, amount, now, validate).1.Ok?
    ensures var (b, r) := QuorumReserve(m.nodes[v].b, id, k, amount, now, validate, Ok(Answers(m, id, now, order)), IntentMesh.Threshold(m));
            var m' := Run(m, evs);
            |m'.claims| == |m.claims| + 1 && m'.claims[|m.claims|].status == Done(r) && |m'.nodes| == |m.nodes| && m'.nodes[v].b == b
  {
    PeersIn(m, v, order);
    hide Step, Run, LocalReserve, Peers, Answers, Asks, Settle, Release;
    var c, open := |m.claims|, OpenReserve(v, id, k, amount, now, valid);
    SameReserve(m.nodes[v].b, id, k, amount, now, validate, valid);
    var m2 := AskedReserve(m, v, id, k, amount, now, valid, order);
    var skips := SkipRun(m2, c);
    FinishReserve(Run(m2, skips), c, v, id);
    evs := [open] + (Asks(c, now, order) + (skips + [Finish(c)]));
    OneStep(m, open);
    OneStep(Run(m2, skips), Finish(c));
    RunApp(m, [open], Asks(c, now, order) + (skips + [Finish(c)]));
    RunApp(Step(m, open), Asks(c, now, order), skips + [Finish(c)]);
    RunApp(m2, skips, [Finish(c)]);
  }

  /** A transport error keeps the hold, in the mesh as in the call. */
  lemma FailedReserve(m: Mesh, v: nat, id: string, k: Kind, amount: nat, now: nat, validate: Validator, valid: bool)
    requires v < |m.nodes| && SaysIt(m.nodes[v].b, k, now, validate, valid)
    requires LocalReserve(m.nodes[v].b, id, k, amount, now, validate).1.Ok?
    ensures var (b, r) := QuorumReserve(m.nodes[v].b, id, k, amount, now, validate, Err(Error.Threshold), IntentMesh.Threshold(m));
            var m' := Step(Step(m, OpenReserve(v, id, k, amount, now, valid)), Fail(|m.claims|));
            |m'.claims| == |m.claims| + 1 && m'.claims[|m.claims|].status == Done(r) && m'.nodes[v].b == b
  {
    hide LocalReserve, Range, Sweep, Blocked, DoOpenReserve;
    SameReserve(m.nodes[v].b, id, k, amount, now, validate, valid);
    OpenStep(m, v, id, k, amount, now, valid);
  }
}
