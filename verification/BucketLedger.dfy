/**
 One node's treasury ledger: spend caps, soft reservations with a TTL, durable consumption.
 Every operation is a function on the ledger's value; the class below it performs the same
 operation field by field.
 */
module BucketLedger {
  import opened Wrappers
  import L = LineLog

  datatype Kind = Users | Profit | Miners | Channels | Infra

  const U64_MAX: nat := 0xFFFF_FFFF_FFFF_FFFF
  const RESERVE_TTL: nat := 300_000  // milliseconds

  function SatAdd(a: nat, b: nat): nat {
    if a + b > U64_MAX then U64_MAX else a + b
  }

  function SatSub(a: nat, b: nat): nat {
    if a < b then 0 else a - b
  }

  datatype Policy = Policy(kind: Kind, maxPerTx: nat, maxPerDay: nat, allowlist: set<string>)

  datatype Hold = Hold(kind: Kind, amount: nat, expires: nat)

  type Validator = (Policy, nat) -> Result<()>

  datatype Bucket = Bucket(
    policies: map<Kind, Policy>,
    spent: map<Kind, nat>,
    consumed: set<string>,
    reserved: map<string, Hold>)

  function Tot(m: map<Kind, nat>, k: Kind): nat {
    if k in m then m[k] else 0
  }

  // ---------- what the reservations hold ----------

  function Share(h: Hold, k: Kind): nat {
    if h.kind == k then h.amount else 0
  }

  /** Sum of the reservations of one kind. */
  ghost function Held(m: map<string, Hold>, k: Kind): nat {
    if m == map[] then 0
    else
      var id :| id in m;
      Share(m[id], k) + Held(m - {id}, k)
  }

  lemma {:induction false} HeldRemove(m: map<string, Hold>, k: Kind, id: string)
    requires id in m
    ensures Held(m, k) == Share(m[id], k) + Held(m - {id}, k)
    decreases |m|
  {
    var x :| x in m && Held(m, k) == Share(m[x], k) + Held(m - {x}, k);
    if x != id {
      HeldRemove(m - {x}, k, id);
      HeldRemove(m - {id}, k, x);
      assert m - {x} - {id} == m - {id} - {x};
    }
  }

  lemma HeldInsert(m: map<string, Hold>, k: Kind, id: string, h: Hold)
    requires id !in m
    ensures Held(m[id := h], k) == Share(h, k) + Held(m, k)
  {
    HeldRemove(m[id := h], k, id);
    assert m[id := h] - {id} == m;
  }

  function Expired(m: map<string, Hold>, now: nat): map<string, Hold> {
    map id | id in m && m[id].expires <= now :: m[id]
  }

  function Unexpired(m: map<string, Hold>, now: nat): map<string, Hold> {
    map id | id in m && m[id].expires > now :: m[id]
  }

  lemma SplitRemove(m: map<string, Hold>, id: string, now: nat)
    requires id in m
    ensures Expired(m - {id}, now) == Expired(m, now) - {id}
    ensures Unexpired(m - {id}, now) == Unexpired(m, now) - {id}
    ensures m[id].expires <= now ==> id in Expired(m, now) && Unexpired(m, now) - {id} == Unexpired(m, now)
    ensures m[id].expires > now ==> id in Unexpired(m, now) && Expired(m, now) - {id} == Expired(m, now)
  {
  }

  /** Sweeping splits what is held into what goes and what stays. */
  lemma {:induction false} HeldSplit(m: map<string, Hold>, k: Kind, now: nat)
    ensures Held(m, k) == Held(Expired(m, now), k) + Held(Unexpired(m, now), k)
    decreases |m|
  {
    if m == map[] {
      assert Expired(m, now) == map[] && Unexpired(m, now) == map[];
    } else {
      var id :| id in m;
      HeldRemove(m, k, id);
      HeldSplit(m - {id}, k, now);
      SplitRemove(m, id, now);
      HeldRemove(if m[id].expires <= now then Expired(m, now) else Unexpired(m, now), k, id);
    }
  }

  // ---------- operations on the in-memory ledger ----------

  /** Give back what the reservations in `gone` held. */
  ghost function GiveBack(spent: map<Kind, nat>, gone: map<string, Hold>): map<Kind, nat> {
    map k | k in spent :: SatSub(spent[k], Held(gone, k))
  }

  lemma GiveBackOne(spent: map<Kind, nat>, gone: map<string, Hold>, id: string, h: Hold)
    requires id !in gone
    ensures var part := GiveBack(spent, gone);
            GiveBack(spent, gone[id := h]) ==
            if h.kind in part then part[h.kind := SatSub(part[h.kind], h.amount)] else part
  {
    hide Held;
    forall k ensures Held(gone[id := h], k) == Share(h, k) + Held(gone, k) {
      HeldInsert(gone, k, id, h);
    }
  }

  lemma GiveBackNone(spent: map<Kind, nat>)
    ensures GiveBack(spent, map[]) == spent
  {
  }

  lemma Partition(all: map<string, Hold>, gone: map<string, Hold>, rest: map<string, Hold>, now: nat)
    requires gone.Keys !! rest.Keys && gone + rest == all
    requires forall id :: id in gone ==> gone[id].expires <= now
    requires forall id :: id in rest ==> rest[id].expires > now
    ensures gone == Expired(all, now) && rest == Unexpired(all, now)
  {
    assert forall id :: id in gone ==> id in all && all[id] == gone[id];
    assert forall id :: id in rest ==> id in all && all[id] == rest[id];
  }

  /** Expired reservations go and give their amounts back. */
  ghost function Sweep(b: Bucket, now: nat): Bucket {
    b.(spent := GiveBack(b.spent, Expired(b.reserved, now)), reserved := Unexpired(b.reserved, now))
  }

  function Credit(b: Bucket, k: Kind, amount: nat): Bucket {
    b.(spent := b.spent[k := SatAdd(Tot(b.spent, k), amount)])
  }

  function Refund(b: Bucket, k: Kind, amount: nat): Bucket {
    if k in b.spent then b.(spent := b.spent[k := SatSub(b.spent[k], amount)]) else b
  }

  /** Cap check shared by all spending paths. */
  function Gate(b: Bucket, k: Kind, validate: Validator): Result<()> {
    if k !in b.policies then Err(InvalidBucket) else validate(b.policies[k], Tot(b.spent, k))
  }

  function HoldIt(b: Bucket, id: string, k: Kind, amount: nat, now: nat): Bucket {
    var c := Credit(b, k, amount);
    c.(reserved := c.reserved[id := Hold(k, amount, now + RESERVE_TTL)])
  }

  /** Move an id to the consumed set; a reservation of it disappears without a refund. */
  function Consume(b: Bucket, id: string): Bucket {
    b.(reserved := b.reserved - {id}, consumed := b.consumed + {id})
  }

  ghost function Reserve(b0: Bucket, id: string, k: Kind, amount: nat, now: nat, validate: Validator): (Bucket, Result<()>) {
    var b := Sweep(b0, now);
    if id in b.consumed then (b, Err(IntentReplay))
    else if id in b.reserved then
      (b, if b.reserved[id].kind == k && b.reserved[id].amount == amount then Ok(()) else Err(IntentReplay))
    else
      var gate := Gate(b, k, validate);
      if gate.Err? then (b, gate) else (HoldIt(b, id, k, amount, now), Ok(()))
  }

  ghost function Commit(b0: Bucket, id: string, now: nat): (Bucket, Result<()>) {
    var b := Sweep(b0, now);
    if id in b.consumed then (b, Ok(()))
    else if id !in b.reserved then (b, Err(ReservationMissing))
    else (Consume(b, id), Ok(()))
  }

  ghost function ConsumeNew(b0: Bucket, id: string, now: nat): (Bucket, Result<()>) {
    var b := Sweep(b0, now);
    if id in b.consumed then (b, Err(IntentReplay)) else (Consume(b, id), Ok(()))
  }

  /** No sweep here; without a live reservation the caller's amount is given back instead. */
  function Release(b: Bucket, id: string, k: Kind, amount: nat): Bucket {
    if id in b.reserved
    then Refund(b, b.reserved[id].kind, b.reserved[id].amount).(reserved := b.reserved - {id})
    else Refund(b, k, amount)
  }

  ghost function Authorize(b0: Bucket, id: string, k: Kind, amount: nat, now: nat, validate: Validator): (Bucket, Result<()>) {
    var b := Sweep(b0, now);
    if id in b.consumed || id in b.reserved then (b, Err(IntentReplay))
    else
      var gate := Gate(b, k, validate);
      if gate.Err? then (b, gate)
      else (Credit(b, k, amount).(consumed := b.consumed + {id}), Ok(()))
  }

  class InMemoryBucketLedger {
    var policies: map<Kind, Policy>
    var spentToday: map<Kind, nat>
    var consumed: set<string>
    var reserved: map<string, Hold>

    ghost function State(): Bucket
      reads this
    {
      Bucket(policies, spentToday, consumed, reserved)
    }

    constructor (policies: map<Kind, Policy>)
      ensures State() == Bucket(policies, map[], {}, map[])
    {
      this.policies, spentToday, consumed, reserved := policies, map[], {}, map[];
    }

    /** Remove the expired reservations one by one, in whatever order the map yields them. */
    method SweepExpired(now: nat)
      modifies this`spentToday, this`reserved
      ensures State() == Sweep(old(State()), now)
    {
      hide GiveBack, Held, Expired, Unexpired;
      var expired := set id | id in reserved && reserved[id].expires <= now;
      ghost var gone: map<string, Hold> := map[];
      GiveBackNone(spentToday);
      while expired != {}
        invariant forall id :: id in expired <==> id in reserved && reserved[id].expires <= now
        invariant gone.Keys !! reserved.Keys && gone + reserved == old(reserved)
        invariant forall id :: id in gone ==> gone[id].expires <= now
        invariant spentToday == GiveBack(old(spentToday), gone)
        decreases expired
      {
        var id :| id in expired;
        expired := expired - {id};
        var h := reserved[id];
        reserved := reserved - {id};
        GiveBackOne(old(spentToday), gone, id, h);
        if h.kind in spentToday {
          spentToday := spentToday[h.kind := SatSub(spentToday[h.kind], h.amount)];
        }
        gone := gone[id := h];
      }
      Partition(old(reserved), gone, reserved, now);
    }

    method RecordSpend(k: Kind, amount: nat)
      modifies this`spentToday
      ensures State() == Credit(old(State()), k, amount)
    {
      var spent := if k in spentToday then spentToday[k] else 0;
      spentToday := spentToday[k := SatAdd(spent, amount)];
    }

    method MarkConsumed(id: string)
      modifies this`consumed
      ensures State() == old(State()).(consumed := old(consumed) + {id})
    {
      consumed := consumed + {id};
    }

    method HasReservation(id: string, now: nat) returns (live: bool)
      modifies this`spentToday, this`reserved
      ensures State() == Sweep(old(State()), now)
      ensures live <==> id in old(reserved) && old(reserved)[id].expires > now
    {
      SweepExpired(now);
      live := id in reserved;
    }

    method ReserveSpend(id: string, k: Kind, amount: nat, now: nat, validate: Validator) returns (r: Result<()>)
      modifies this`spentToday, this`reserved
      ensures (State(), r) == Reserve(old(State()), id, k, amount, now, validate)
    {
      SweepExpired(now);
      if id in consumed {
        return Err(IntentReplay);
      }
      if id in reserved {
        if reserved[id].kind == k && reserved[id].amount == amount {
          return Ok(());
        }
        return Err(IntentReplay);
      }
      if k !in policies {
        return Err(InvalidBucket);
      }
      var spent := if k in spentToday then spentToday[k] else 0;
      var gate := validate(policies[k], spent);
      if gate.Err? {
        return gate;
      }
      spentToday := spentToday[k := SatAdd(spent, amount)];
      reserved := reserved[id := Hold(k, amount, now + RESERVE_TTL)];
      return Ok(());
    }

    method CommitConsume(id: string, now: nat) returns (r: Result<()>)
      modifies this
      ensures (State(), r) == Commit(old(State()), id, now)
    {
      SweepExpired(now);
      if id in consumed {
        return Ok(());
      }
      if id !in reserved {
        return Err(ReservationMissing);
      }
      reserved := reserved - {id};
      consumed := consumed + {id};
      return Ok(());
    }

    method TryConsume(id: string, now: nat) returns (r: Result<()>)
      modifies this
      ensures (State(), r) == ConsumeNew(old(State()), id, now)
    {
      SweepExpired(now);
      if id in consumed {
        return Err(IntentReplay);
      }
      reserved := reserved - {id};
      consumed := consumed + {id};
      return Ok(());
    }

    method ReleaseReservation(id: string, k: Kind, amount: nat)
      modifies this`spentToday, this`reserved
      ensures State() == Release(old(State()), id, k, amount)
    {
      if id in reserved {
        var h := reserved[id];
        reserved := reserved - {id};
        if h.kind in spentToday {
          spentToday := spentToday[h.kind := SatSub(spentToday[h.kind], h.amount)];
        }
      } else if k in spentToday {
        spentToday := spentToday[k := SatSub(spentToday[k], amount)];
      }
    }

    method AuthorizeSpendAndConsume(id: string, k: Kind, amount: nat, now: nat, validate: Validator) returns (r: Result<()>)
      modifies this
      ensures (State(), r) == Authorize(old(State()), id, k, amount, now, validate)
    {
      SweepExpired(now);
      if id in consumed || id in reserved {
        return Err(IntentReplay);
      }
      if k !in policies {
        return Err(InvalidBucket);
      }
      var spent := if k in spentToday then spentToday[k] else 0;
      var gate := validate(policies[k], spent);
      if gate.Err? {
        return gate;
      }
      spentToday := spentToday[k := SatAdd(spent, amount)];
      consumed := consumed + {id};
      return Ok(());
    }
  }
}
