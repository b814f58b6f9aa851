/**
 One call of the claim is one run of the mesh: burn here, ask the peers in order, give up on those that do
 not answer, decide. So what is proved of the mesh holds of the calls.
 */
module ClaimCalls {
  import opened Wrappers
  import opened Quorum
  import opened Sets
  import opened AntiNonce
  import opened ClaimMesh

  /** The peers that answer, in the order they do. */
  predicate Peers(m: Mesh, v: nat, order: seq<nat>) {
    && (forall i :: 0 <= i < |order| ==> order[i] < |m.stores| && order[i] != v)
    && (forall i, j :: 0 <= i < j < |order| ==> order[i] != order[j])
  }

  /** What they answer: whether they had seen the id. */
  function Answers(m: Mesh, id: string, order: seq<nat>): (acks: seq<bool>)
    requires forall i :: 0 <= i < |order| ==> order[i] < |m.stores|
    ensures |acks| == |order| && forall i :: 0 <= i < |order| ==> acks[i] == (id in m.stores[order[i]].seen)
  {
    seq(|order|, i requires 0 <= i < |order| => id in m.stores[order[i]].seen)
  }

  function Contacts(c: nat, order: seq<nat>): seq<Event> {
    if order == [] then [] else Contacts(c, order[..|order| - 1]) + [Contact(c, order[|order| - 1], true, Synced)]
  }

  lemma {:induction false} RunApp(m: Mesh, past: seq<Event>, future: seq<Event>)
    ensures Run(m, past + future) == Run(Run(m, past), future)
  {
    hide Step;
    if future == [] {
      assert past + future == past;
    } else {
      var all := past + future;
      assert all[..|all| - 1] == past + future[..|future| - 1];
      RunApp(m, past, future[..|future| - 1]);
    }
  }

  /** The claim after it has heard from `order`. */
  ghost predicate Heard(m: Mesh, m': Mesh, c: nat, v: nat, id: string, order: seq<nat>)
    requires Peers(m, v, order)
  {
    && |m'.stores| == |m.stores| && |m'.claims| == |m.claims| && c < |m.claims|
    && m'.claims[c].status == Running && m'.claims[c].id == id && m'.claims[c].node == v
    && m'.claims[c].acks == m.claims[c].acks + Answers(m, id, order)
    && m'.claims[c].todo == m.claims[c].todo - (set p | p in order)
    && (forall p :: 0 <= p < |m.stores| && p !in order ==> m'.stores[p] == m.stores[p])
  }

  lemma ContactStep(m: Mesh, c: nat, p: nat)
    requires Live(m, c) && p in m.claims[c].todo && p < |m.stores|
    ensures var m' := Step(m, Contact(c, p, true, Synced));
            var cl := m.claims[c];
            && |m'.stores| == |m.stores| && |m'.claims| == |m.claims|
            && m'.claims[c].status == Running && m'.claims[c].id == cl.id && m'.claims[c].node == cl.node
            && m'.claims[c].acks == cl.acks + [cl.id in m.stores[p].seen] && m'.claims[c].todo == cl.todo - {p}
            && (forall q :: 0 <= q < |m.stores| && q != p ==> m'.stores[q] == m.stores[q])
  {
  }

  lemma PeersInit(m: Mesh, v: nat, order: seq<nat>)
    requires Peers(m, v, order) && order != []
    ensures var init, p := order[..|order| - 1], order[|order| - 1];
            Peers(m, v, init) && p in order && p !in init && p < |m.stores| && p != v
            && (forall q :: q in init ==> q in order) && (forall q :: q in order <==> q in init || q == p)
  {
    assert order == order[..|order| - 1] + [order[|order| - 1]];
  }

  lemma AnswersNext(m: Mesh, id: string, order: seq<nat>)
    requires order != [] && forall i :: 0 <= i < |order| ==> order[i] < |m.stores|
    ensures Answers(m, id, order) == Answers(m, id, order[..|order| - 1]) + [id in m.stores[order[|order| - 1]].seen]
  {
  }

  /** One more answer. */
  lemma HeardNext(m: Mesh, mid: Mesh, c: nat, v: nat, id: string, order: seq<nat>)
    requires Peers(m, v, order) && order != [] && Peers(m, v, order[..|order| - 1])
    requires Heard(m, mid, c, v, id, order[..|order| - 1])
    requires order[|order| - 1] in m.claims[c].todo
    ensures Heard(m, Step(mid, Contact(c, order[|order| - 1], true, Synced)), c, v, id, order)
  {
    hide Step, Answers, Peers;
    PeersInit(m, v, order);
    PeersIn(m, v, order);
    AnswersNext(m, id, order);
    var init, p := order[..|order| - 1], order[|order| - 1];
    assert mid.stores[p] == m.stores[p];
    ContactStep(mid, c, p);
    assert (set q | q in order) == (set q | q in init) + {p};
    var x := id in m.stores[p].seen;
    assert m.claims[c].acks + (Answers(m, id, init) + [x]) == (m.claims[c].acks + Answers(m, id, init)) + [x];
  }

  lemma PeersIn(m: Mesh, v: nat, order: seq<nat>)
    requires Peers(m, v, order)
    ensures forall i :: 0 <= i < |order| ==> order[i] < |m.stores|
  {
  }

  lemma {:induction false} ContactRun(m: Mesh, c: nat, v: nat, id: string, order: seq<nat>)
    requires Live(m, c) && m.claims[c].id == id && m.claims[c].node == v && Peers(m, v, order)
    requires forall p :: p in order ==> p in m.claims[c].todo
    ensures Heard(m, Run(m, Contacts(c, order)), c, v, id, order)
  {
    hide Step;
    if order == [] {
      assert m.claims[c].acks + [] == m.claims[c].acks;
    } else {
      hide Heard, Peers;
      PeersInit(m, v, order);
      ContactRun(m, c, v, id, order[..|order| - 1]);
      var all := Contacts(c, order);
      assert all[..|all| - 1] == Contacts(c, order[..|order| - 1]);
      HeardNext(m, Run(m, all[..|all| - 1]), c, v, id, order);
    }
  }

  /** Giving up on everyone left changes nothing but what is left to do. */
  lemma {:induction false} SkipRun(m: Mesh, c: nat) returns (evs: seq<Event>)
    requires Live(m, c)
    ensures Run(m, evs) == m.(claims := m.claims[c := m.claims[c].(todo := {})])
    decreases m.claims[c].todo
  {
    if m.claims[c].todo == {} {
      evs := [];
      assert m.claims[c := m.claims[c].(todo := {})] == m.claims;
    } else {
      var p :| p in m.claims[c].todo;
      var m1 := Step(m, Skip(c, p));
      var rest := SkipRun(m1, c);
      evs := [Skip(c, p)] + rest;
      OneStep(m, Skip(c, p));
      RunApp(m, [Skip(c, p)], rest);
    }
  }

  lemma OneStep(m: Mesh, e: Event)
    ensures Run(m, [e]) == Step(m, e)
  {
    hide Step;
    assert [e][..0] == [] && Run(m, []) == m;
  }

  /** A claim the local store turns down is settled at once, in the mesh as in the call. */
  lemma RefusedCall(m: Mesh, v: nat, id: string, disk: Disk, acks: Result<seq<bool>>)
    requires v < |m.stores| && BurnId(m.stores[v], id, disk).1 != Ok(false)
    ensures var (w, r) := QuorumClaim(m.stores[v], id, disk, acks, ClaimMesh.Threshold(m));
            var m' := Step(m, Begin(v, id, disk));
            m'.stores == m.stores[v := w] && m'.claims == m.claims + [m'.claims[|m.claims|]] && m'.claims[|m.claims|].status == Done(r)
  {
  }

  /** After Begin the answers are what they were before it, and they end up as the claim's acks. */
  lemma AskedCall(m: Mesh, v: nat, id: string, order: seq<nat>) returns (m2: Mesh)
    requires v < |m.stores| && id !in m.stores[v].seen && Peers(m, v, order)
    ensures m2 == Run(Step(m, Begin(v, id, Synced)), Contacts(|m.claims|, order))
    ensures Live(m2, |m.claims|) && m2.claims[|m.claims|].acks == Answers(m, id, order) && |m2.claims| == |m.claims| + 1
    ensures |m2.stores| == |m.stores| && m2.stores[v] == BurnId(m.stores[v], id, Synced).0
  {
    hide Step, Run, BurnId;
    BeginCall(m, v, id);
    var m1 := Step(m, Begin(v, id, Synced));
    assert Peers(m1, v, order) && Answers(m1, id, order) == Answers(m, id, order);
    ContactRun(m1, |m.claims|, v, id, order);
    m2 := Run(m1, Contacts(|m.claims|, order));
    assert [] + Answers(m, id, order) == Answers(m, id, order);
    assert v !in order && m2.stores[v] == m1.stores[v];
  }

  /**
   For every mesh and every choice of peers that answer, in any order, the run Begin, one Contact each,
   Skip for the others, Finish ends with exactly the verdict and the local store of the call on the acks
   those peers give.
   */
  lemma CallIsRun(m: Mesh, v: nat, id: string, order: seq<nat>) returns (evs: seq<Event>)
    requires v < |m.stores| && id !in m.stores[v].seen && Peers(m, v, order)
    ensures var (w, r) := QuorumClaim(m.stores[v], id, Synced, Ok(Answers(m, id, order)), ClaimMesh.Threshold(m));
            var m' := Run(m, evs);
            |m'.claims| == |m.claims| + 1 && m'.claims[|m.claims|].status == Done(r)
            && |m'.stores| == |m.stores| && m'.stores[v] == w
  {
    PeersIn(m, v, order);
    hide Step, Run, BurnId, Peers, Answers, Contacts, QuorumClaim, Verdict;
    var c := |m.claims|;
    var m2 := AskedCall(m, v, id, order);
    var skips := SkipRun(m2, c);
    FinishCall(Run(m2, skips), c);
    CallVerdict(m.stores[v], id, Answers(m, id, order), ClaimMesh.Threshold(m));
    evs := [Begin(v, id, Synced)] + (Contacts(c, order) + (skips + [Finish(c)]));
    OneStep(m, Begin(v, id, Synced));
    OneStep(Run(m2, skips), Finish(c));
    RunApp(m, [Begin(v, id, Synced)], Contacts(c, order) + (skips + [Finish(c)]));
    RunApp(Step(m, Begin(v, id, Synced)), Contacts(c, order), skips + [Finish(c)]);
    RunApp(m2, skips, [Finish(c)]);
  }

  lemma BeginCall(m: Mesh, v: nat, id: string)
    requires v < |m.stores| && id !in m.stores[v].seen
    ensures var m' := Step(m, Begin(v, id, Synced));
            && m'.stores == m.stores[v := BurnId(m.stores[v], id, Synced).0]
            && m'.claims == m.claims + [Claim(v, id, Range(0, |m.stores|) - {v}, [], {v}, Running)]
  {
  }

  lemma FinishCall(m: Mesh, c: nat)
    requires Live(m, c) && m.claims[c].todo == {} && m.stores != []
    ensures Step(m, Finish(c)) ==
            m.(claims := m.claims[c := m.claims[c].(status := Done(Verdict(m.claims[c].acks, ClaimMesh.Threshold(m))))])
  {
  }

  lemma CallVerdict(s: Store, id: string, acks: seq<bool>, t: nat)
    requires id !in s.seen
    ensures QuorumClaim(s, id, Synced, Ok(acks), t) == (BurnId(s, id, Synced).0, Verdict(acks, t))
  {
  }

  /** A transport error fails a claim that has burned, in the mesh as in the call. */
  lemma FailedCall(m: Mesh, c: nat, s: Store, id: string, t: nat)
    requires Live(m, c) && id !in s.seen
    ensures Step(m, Fail(c)).claims[c].status == Done(QuorumClaim(s, id, Synced, Err(Error.Threshold), t).1)
  {
  }
}
