/**
 The durable ledger of one node and the quorum ledger on top of it: two-phase
 reserve / commit / release against peer prepares.
 */
module QuorumBucket {
  import opened Wrappers
  import opened Quorum
  import opened BucketLedger
  import opened AntiNonce
  import L = LineLog

  /** One node: its in-memory ledger and the text of its consumed-intent log. */
  datatype Node = Node(b: Bucket, log: string)

  function ReadBack(log: string): set<string> {
    L.Load(log, true)
  }

  /** Boot: caps from the constitution, consumed ids from the log, no spend and no reservation. */
  function BootNode(policies: map<Kind, Policy>, log: string): Node {
    Node(Bucket(policies, map[], ReadBack(log), map[]), log)
  }

  function Logged(s: Node, id: string, disk: Disk): Node {
    if disk.Unwritten? then s else s.(log := L.Append(s.log, id))
  }

  /** Durable check-and-insert; Ok(true) means "already consumed". */
  function BurnIntent(s: Node, id: string, disk: Disk): (Node, Result<bool>) {
    if id in s.b.consumed then (s, Ok(true))
    else
      var w := Logged(s, id, disk);
      if disk.Synced? then (w.(b := Consume(s.b, id)), Ok(false)) else (w, Err(Threshold))
  }

  /** Soft peer prepare: a zero-amount reservation, or "already seen". */
  ghost function SoftHold(b0: Bucket, id: string, now: nat): (Bucket, bool) {
    var b := Sweep(b0, now);
    if id in b.consumed || id in b.reserved then (b, true)
    else (b.(reserved := b.reserved[id := Hold(Users, 0, now + RESERVE_TTL)]), false)
  }

  ghost function PersistCommit(s: Node, id: string, now: nat, disk: Disk): (Node, Result<()>) {
    var b := Sweep(s.b, now);
    var s' := s.(b := b);
    if id in b.consumed then (s', Ok(()))
    else if id !in b.reserved then (s', Err(ReservationMissing))
    else
      var (w, r) := BurnIntent(s', id, disk);
      (w, if r == Ok(false) then Ok(()) else Err(Threshold))
  }

  /** Spend and consume in memory, then append; a failed append rolls both back. Reservations are not consulted. */
  function PersistAuthorize(s: Node, id: string, k: Kind, amount: nat, disk: Disk, validate: Validator): (Node, Result<()>) {
    var gate := Gate(s.b, k, validate);
    if id in s.b.consumed then (s, Err(IntentReplay))
    else if gate.Err? then (s, gate)
    else
      var spent := Credit(s.b, k, amount);
      var w := Logged(s, id, disk);
      if disk.Synced? then (w.(b := spent.(consumed := spent.consumed + {id})), Ok(()))
      else (w.(b := Refund(spent, k, amount)), Err(Threshold))
  }

  // ---------- quorum operations ----------

  /** The decision over the acks of one fan-out (true = already seen). */
  function Settle(acks: seq<bool>, t: nat): Result<()> {
    if true in acks then Err(IntentReplay)
    else if 1 + |acks| < t then Err(QuorumNotMet(1 + |acks|, t))
    else Ok(())
  }

  ghost function LocalReserve(b0: Bucket, id: string, k: Kind, amount: nat, now: nat, validate: Validator): (Bucket, Result<()>) {
    var b := Sweep(b0, now);
    if id in b.consumed || id in b.reserved then (b, Err(IntentReplay))
    else
      var gate := Gate(b, k, validate);
      if gate.Err? then (b, gate) else (HoldIt(b, id, k, amount, now), Ok(()))
  }

  /** Reserve locally, then ask the peers; a refusal releases the local hold, a transport error does not. */
  ghost function QuorumReserve(b0: Bucket, id: string, k: Kind, amount: nat, now: nat, validate: Validator,
                               acks: Result<seq<bool>>, t: nat): (Bucket, Result<()>)
  {
    var (b, r) := LocalReserve(b0, id, k, amount, now, validate);
    if r.Err? then (b, r)
    else match acks
      case Err(e) => (b, Err(e))
      case Ok(a) => (if Settle(a, t).Ok? then b else Release(b, id, k, amount), Settle(a, t))
  }

  function QuorumConsume(s: Node, id: string, disk: Disk, acks: Result<seq<bool>>, t: nat): (Node, Result<()>) {
    var (w, r) := BurnIntent(s, id, disk);
    match r
    case Err(e) => (w, Err(e))
    case Ok(seen) =>
      if seen then (w, Err(IntentReplay))
      else match acks
        case Err(e) => (w, Err(e))
        case Ok(a) => (w, Settle(a, t))
  }

  function QuorumCommit(s: Node, id: string, disk: Disk, acks: Result<seq<bool>>, t: nat): (Node, Result<()>) {
    if id in s.b.consumed then (s, Ok(())) else QuorumConsume(s, id, disk, acks, t)
  }

  ghost function QuorumAuthorize(s: Node, id: string, k: Kind, amount: nat, now: nat, validate: Validator,
                                 acks: Result<seq<bool>>, disk: Disk, burns: Result<seq<bool>>, t: nat): (Node, Result<()>)
  {
    var (b, r) := QuorumReserve(s.b, id, k, amount, now, validate, acks, t);
    if r.Err? then (s.(b := b), r)
    else
      var (w, c) := QuorumCommit(s.(b := b), id, disk, burns, t);
      if c.Ok? then (w, c) else (w.(b := Release(w.b, id, k, amount)), c)
  }

  /** The reserve phase got past the local ledger and died in the transport. */
  ghost predicate LostInTransport(b0: Bucket, id: string, k: Kind, amount: nat, now: nat, validate: Validator,
                                  acks: Result<seq<bool>>)
  {
    LocalReserve(b0, id, k, amount, now, validate).1.Ok? && acks.Err?
  }

  lemma HoldThenRefund(b: Bucket, id: string, k: Kind, amount: nat, now: nat)
    requires id !in b.reserved && Tot(b.spent, k) + amount <= U64_MAX
    ensures var h := HoldIt(b, id, k, amount, now);
            && (forall j :: Tot(Release(h, id, k, amount).spent, j) == Tot(b.spent, j))
            && (forall j :: Tot(Release(Consume(h, id), id, k, amount).spent, j) == Tot(b.spent, j))
            && Release(h, id, k, amount).reserved == b.reserved
  {
    assert HoldIt(b, id, k, amount, now).reserved - {id} == b.reserved;
  }

  /**
   Accounting of a quorum authorize, relative to the ledger as its opening sweep leaves it. Ok means
   the id is consumed and exactly the amount was spent; every error restores what was spent, even when
   the id stays burned, except a transport error in the reserve phase, which leaves exactly one live
   hold of the amount.
   */
  lemma AuthorizeAccounting(s: Node, id: string, k: Kind, amount: nat, now: nat, validate: Validator,
                            acks: Result<seq<bool>>, disk: Disk, burns: Result<seq<bool>>, t: nat)
    requires Tot(Sweep(s.b, now).spent, k) + amount <= U64_MAX
    ensures var b := Sweep(s.b, now);
            var (w, r) := QuorumAuthorize(s, id, k, amount, now, validate, acks, disk, burns, t);
            var lost := LostInTransport(s.b, id, k, amount, now, validate, acks);
            && (forall j :: Tot(w.b.spent, j) == Tot(b.spent, j) + (if j == k && (r.Ok? || lost) then amount else 0))
            && (r.Ok? ==> id in w.b.consumed && id !in b.consumed && !lost)
            && (lost ==> r == Err(acks.error) && w.b == HoldIt(b, id, k, amount, now))
            && (!lost ==> w.b.reserved == b.reserved)
            && b.consumed <= w.b.consumed <= b.consumed + {id}
            && (r.Ok? ==> w.log == L.Append(s.log, id))
  {
    hide Held, GiveBack, Sweep, L.Append, Gate;
    var b := Sweep(s.b, now);
    var (c, r) := LocalReserve(s.b, id, k, amount, now, validate);
    if r.Ok? {
      HoldThenRefund(b, id, k, amount, now);
      assert Consume(c, id).reserved == b.reserved;
    }
  }

  /** `commit_consume` is idempotent: on a consumed id it answers Ok and changes nothing, without asking any peer. */
  lemma CommitTwice(s: Node, id: string, disk: Disk, acks: Result<seq<bool>>, disk2: Disk, acks2: Result<seq<bool>>, t: nat)
    requires QuorumCommit(s, id, disk, acks, t).1.Ok?
    ensures var w := QuorumCommit(s, id, disk, acks, t).0;
            QuorumCommit(w, id, disk2, acks2, t) == (w, Ok(())) && (id !in s.b.consumed ==> QuorumConsume(w, id, disk2, acks2, t).1 == Err(IntentReplay))
  {
  }

  /**
   A commit that burned the id here and then failed, by its quorum, a peer that had seen the id or a
   transport error, is answered Ok when it is repeated, without any peer being asked.
   */
  lemma CommitAfterFailure(s: Node, id: string, disk: Disk, acks: Result<seq<bool>>, disk2: Disk, acks2: Result<seq<bool>>, t: nat)
    requires id !in s.b.consumed
    ensures var (w, r) := QuorumCommit(s, id, disk, acks, t);
            && (r.Err? && QuorumCommit(w, id, disk2, acks2, t).1.Ok? && id in w.b.consumed <==>
                  disk.Synced? && (acks.Err? || Settle(acks.value, t).Err?))
            && (id in w.b.consumed ==> QuorumCommit(w, id, disk2, acks2, t) == (w, Ok(())))
  {
  }

  /** An Ok commit means that this call's own claim succeeded if and only if the id was not consumed here before. */
  lemma CommitExact(s: Node, id: string, disk: Disk, acks: Result<seq<bool>>, t: nat)
    ensures (QuorumCommit(s, id, disk, acks, t).1.Ok? ==> QuorumConsume(s, id, disk, acks, t).1.Ok?) <==> id !in s.b.consumed
  {
  }

  /** The durable authorize keeps consumed and reserved apart exactly when the id was not reserved. */
  lemma PersistAuthorizeExact(s: Node, id: string, k: Kind, amount: nat, disk: Disk, validate: Validator)
    requires s.b.consumed !! s.b.reserved.Keys
    requires PersistAuthorize(s, id, k, amount, disk, validate).1.Ok?
    ensures var b := PersistAuthorize(s, id, k, amount, disk, validate).0.b;
            b.consumed !! b.reserved.Keys <==> id !in s.b.reserved
  {
    assert id in PersistAuthorize(s, id, k, amount, disk, validate).0.b.consumed;
  }

  // ---------- the classes ----------

  class PersistedBucketLedger {
    const inner: InMemoryBucketLedger
    var log: string

    ghost function State(): Node
      reads this, inner
    {
      Node(inner.State(), log)
    }

    constructor (policies: map<Kind, Policy>, text: string)
      ensures State() == BootNode(policies, text) && fresh(inner)
    {
      inner := new InMemoryBucketLedger(policies);
      log := text;
      new;
      inner.consumed := L.LoadIds(text, true);
    }

    method PrepareConsume(id: string, disk: Disk) returns (r: Result<bool>)
      modifies this, inner`reserved, inner`consumed
      ensures (State(), r) == BurnIntent(old(State()), id, disk)
    {
      if id in inner.consumed {
        return Ok(true);
      }
      if disk.Unwritten? {
        return Err(Threshold);
      }
      log := L.Append(log, id);
      if disk.Unsynced? {
        return Err(Threshold);
      }
      inner.reserved := inner.reserved - {id};
      inner.consumed := inner.consumed + {id};
      return Ok(false);
    }

    method TryConsume(id: string, disk: Disk) returns (r: Result<()>)
      modifies this, inner`reserved, inner`consumed
      ensures State() == BurnIntent(old(State()), id, disk).0
      ensures r == if id in old(inner.consumed) then Err(IntentReplay) else if disk.Synced? then Ok(()) else Err(Threshold)
    {
      if id in inner.consumed {
        return Err(IntentReplay);
      }
      if disk.Unwritten? {
        return Err(Threshold);
      }
      log := L.Append(log, id);
      if disk.Unsynced? {
        return Err(Threshold);
      }
      inner.reserved := inner.reserved - {id};
      inner.consumed := inner.consumed + {id};
      return Ok(());
    }

    method PrepareSoft(id: string, now: nat) returns (seen: bool)
      modifies inner`spentToday, inner`reserved
      ensures (inner.State(), seen) == SoftHold(old(inner.State()), id, now)
    {
      inner.SweepExpired(now);
      if id in inner.consumed || id in inner.reserved {
        return true;
      }
      inner.reserved := inner.reserved[id := Hold(Users, 0, now + RESERVE_TTL)];
      return false;
    }

    method CommitConsume(id: string, now: nat, disk: Disk) returns (r: Result<()>)
      modifies this, inner
      ensures (State(), r) == PersistCommit(old(State()), id, now, disk)
    {
      inner.SweepExpired(now);
      if id in inner.consumed {
        return Ok(());
      }
      if id !in inner.reserved {
        return Err(ReservationMissing);
      }
      var p := PrepareConsume(id, disk);
      return if p == Ok(false) then Ok(()) else Err(Threshold);
    }

    method AuthorizeSpendAndConsume(id: string, k: Kind, amount: nat, disk: Disk, validate: Validator) returns (r: Result<()>)
      modifies this, inner
      ensures (State(), r) == PersistAuthorize(old(State()), id, k, amount, disk, validate)
    {
      if id in inner.consumed {
        return Err(IntentReplay);
      }
      if k !in inner.policies {
        return Err(InvalidBucket);
      }
      var spent := if k in inner.spentToday then inner.spentToday[k] else 0;
      var gate := validate(inner.policies[k], spent);
      if gate.Err? {
        return gate;
      }
      inner.spentToday := inner.spentToday[k := SatAdd(spent, amount)];
      inner.consumed := inner.consumed + {id};
      if !disk.Unwritten? {
        log := L.Append(log, id);
      }
      if !disk.Synced? {
        inner.consumed := inner.consumed - {id};
        assert inner.consumed == old(inner.consumed);
        inner.spentToday := inner.spentToday[k := SatSub(inner.spentToday[k], amount)];
        return Err(Threshold);
      }
      return Ok(());
    }
  }

  class QuorumBucketLedger {
    const local: PersistedBucketLedger
    const peerCount: nat
    const quorumT: nat

    constructor (local: PersistedBucketLedger, peerCount: nat)
      ensures this.local == local && quorumT == ClaimQuorum(peerCount)
    {
      this.local, this.peerCount, quorumT := local, peerCount, ClaimQuorum(peerCount);
    }

    method ReserveSpend(id: string, k: Kind, amount: nat, now: nat, validate: Validator, acks: Result<seq<bool>>)
        returns (r: Result<()>)
      modifies local.inner
      ensures (local.inner.State(), r) ==
              QuorumReserve(old(local.inner.State()), id, k, amount, now, validate, acks, quorumT)
    {
      var g := local.inner;
      g.SweepExpired(now);
      if id in g.consumed || id in g.reserved {
        return Err(IntentReplay);
      }
      if k !in g.policies {
        return Err(InvalidBucket);
      }
      var spent := if k in g.spentToday then g.spentToday[k] else 0;
      var gate := validate(g.policies[k], spent);
      if gate.Err? {
        return gate;
      }
      g.spentToday := g.spentToday[k := SatAdd(spent, amount)];
      g.reserved := g.reserved[id := Hold(k, amount, now + RESERVE_TTL)];
      if acks.Err? {
        return Err(acks.error);
      }
      if true in acks.value {
        g.ReleaseReservation(id, k, amount);
        return Err(IntentReplay);
      }
      var have := 1 + |acks.value|;
      if have < quorumT {
        g.ReleaseReservation(id, k, amount);
        return Err(QuorumNotMet(have, quorumT));
      }
      return Ok(());
    }

    method ClaimConsume(id: string, disk: Disk, acks: Result<seq<bool>>) returns (r: Result<()>)
      modifies local, local.inner
      ensures (local.State(), r) == QuorumConsume(old(local.State()), id, disk, acks, quorumT)
    {
      var p := local.PrepareConsume(id, disk);
      if p.Err? {
        return Err(p.error);
      }
      if p.value {
        return Err(IntentReplay);
      }
      if acks.Err? {
        return Err(acks.error);
      }
      if true in acks.value {
        return Err(IntentReplay);
      }
      var have := 1 + |acks.value|;
      if have < quorumT {
        return Err(QuorumNotMet(have, quorumT));
      }
      return Ok(());
    }

    method CommitConsume(id: string, disk: Disk, acks: Result<seq<bool>>) returns (r: Result<()>)
      modifies local, local.inner
      ensures (local.State(), r) == QuorumCommit(old(local.State()), id, disk, acks, quorumT)
    {
      if id in local.inner.consumed {
        return Ok(());
      }
      r := ClaimConsume(id, disk, acks);
    }

    method AuthorizeSpendAndConsume(id: string, k: Kind, amount: nat, now: nat, validate: Validator,
                                    acks: Result<seq<bool>>, disk: Disk, burns: Result<seq<bool>>)
        returns (r: Result<()>)
      modifies local, local.inner
      ensures (local.State(), r) ==
              QuorumAuthorize(old(local.State()), id, k, amount, now, validate, acks, disk, burns, quorumT)
    {
      r := ReserveSpend(id, k, amount, now, validate, acks);
      if r.Err? {
        return;
      }
      r := CommitConsume(id, disk, burns);
      if r.Err? {
        local.inner.ReleaseReservation(id, k, amount);
      }
    }
  }
}
