/**
 Accounting over whole runs of the in-memory ledger, with the intent gate as validator:
 what is spent is what is committed plus what live reservations hold, and what is committed
 stays under the daily cap.
 */
module BucketAccounting {
  import opened Wrappers
  import opened BucketLedger

  datatype Intent = Intent(id: string, bucket: Kind, destination: string, amount: nat, policyHash: string)

  /** What the gate reads besides the ledger: active policy hash, address parser, eligible operators. */
  datatype Env = Env(activeHash: string, parses: string -> bool, operators: set<string>)

  /** Caps, allowlist and bucket isolation of one intent against one policy. */
  function EvaluateIntent(i: Intent, p: Policy, spentToday: nat, activeHash: string, parses: string -> bool): Result<()> {
    if p.kind != i.bucket then Err(InvalidIntent)
    else if i.policyHash != activeHash then Err(InvalidIntent)
    else if i.amount == 0 then Err(InvalidIntent)
    else if i.amount > p.maxPerTx then Err(CapExceeded(i.amount, p.maxPerTx))
    else if SatAdd(spentToday, i.amount) > p.maxPerDay then Err(CapExceeded(SatAdd(spentToday, i.amount), p.maxPerDay))
    else if i.destination in p.allowlist || (p.kind == Channels && parses(i.destination)) then Ok(())
    else Err(DestinationNotAllowed)
  }

  /** The validator the gate hands to the ledger: operators are admitted on a copy of the policy. */
  function Check(i: Intent, env: Env): Validator {
    (p: Policy, spentToday: nat) =>
      EvaluateIntent(i, p.(allowlist := p.allowlist + env.operators), spentToday, env.activeHash, env.parses)
  }

  datatype Event =
    | DoReserve(i: Intent, now: nat, env: Env)
    | DoCommit(id: string, now: nat)
    | DoAuthorize(i: Intent, now: nat, env: Env)
    | DoConsume(id: string, now: nat)
    | DoSweep(now: nat)
    | DoRelease(id: string, k: Kind, amount: nat)

  /** The ledger with the amounts that left it for good. */
  datatype Account = Account(b: Bucket, committed: map<Kind, nat>)

  function Paid(committed: map<Kind, nat>, k: Kind, amount: nat): map<Kind, nat> {
    committed[k := Tot(committed, k) + amount]
  }

  function PaidHold(committed: map<Kind, nat>, reserved: map<string, Hold>, id: string): map<Kind, nat> {
    if id in reserved then Paid(committed, reserved[id].kind, reserved[id].amount) else committed
  }

  /** Consuming an id pays out whatever its reservation held at that moment. */
  ghost function Consuming(a: Account, id: string, now: nat, r: (Bucket, Result<()>)): Account {
    var b := Sweep(a.b, now);
    Account(r.0, if r.1.Ok? && id !in b.consumed then PaidHold(a.committed, b.reserved, id) else a.committed)
  }

  ghost function Step(a: Account, e: Event): Account {
    match e
    case DoReserve(i, now, env) => a.(b := Reserve(a.b, i.id, i.bucket, i.amount, now, Check(i, env)).0)
    case DoCommit(id, now) => Consuming(a, id, now, Commit(a.b, id, now))
    case DoConsume(id, now) => Consuming(a, id, now, ConsumeNew(a.b, id, now))
    case DoAuthorize(i, now, env) =>
      var (b, r) := Authorize(a.b, i.id, i.bucket, i.amount, now, Check(i, env));
      Account(b, if r.Ok? then Paid(a.committed, i.bucket, i.amount) else a.committed)
    case DoSweep(now) => a.(b := Sweep(a.b, now))
    case DoRelease(id, k, amount) => if id in a.b.reserved then a.(b := Release(a.b, id, k, amount)) else a
  }

  ghost function Run(policies: map<Kind, Policy>, evs: seq<Event>): Account {
    if evs == [] then Account(Bucket(policies, map[], {}, map[]), map[])
    else Step(Run(policies, evs[..|evs| - 1]), evs[|evs| - 1])
  }

  // ---------- conservation ----------

  ghost predicate Balanced(a: Account) {
    forall k :: Tot(a.b.spent, k) == Tot(a.committed, k) + Held(a.b.reserved, k)
  }

  function DayCap(policies: map<Kind, Policy>, k: Kind): nat {
    if k in policies then policies[k].maxPerDay else 0
  }

  predicate Capped(b: Bucket) {
    && (forall k :: Tot(b.spent, k) <= DayCap(b.policies, k))
    && (forall k :: DayCap(b.policies, k) < U64_MAX)
  }

  ghost predicate Inv(a: Account) {
    Balanced(a) && Capped(a.b) && a.b.consumed !! a.b.reserved.Keys
  }

  /** A u64 operation of the step would leave the u64 range, so that saturation loses value. */
  ghost predicate Clamps(b: Bucket, e: Event) {
    match e
    case DoRelease(id, _, _) => id in b.reserved && b.reserved[id].amount > Tot(b.spent, b.reserved[id].kind)
    case DoReserve(i, now, _) =>
      ClampsSweep(b, now) || (Step(Account(b, map[]), e).b.reserved != Sweep(b, now).reserved && Overflows(b, i, now))
    case DoAuthorize(i, now, _) =>
      ClampsSweep(b, now) || (Step(Account(b, map[]), e).b.consumed != Sweep(b, now).consumed && Overflows(b, i, now))
    case DoCommit(_, now) => ClampsSweep(b, now)
    case DoConsume(_, now) => ClampsSweep(b, now)
    case DoSweep(now) => ClampsSweep(b, now)
  }

  ghost predicate ClampsSweep(b: Bucket, now: nat) {
    exists k :: Held(Expired(b.reserved, now), k) > Tot(b.spent, k)
  }

  ghost predicate Overflows(b: Bucket, i: Intent, now: nat) {
    Tot(Sweep(b, now).spent, i.bucket) + i.amount > U64_MAX
  }

  lemma SweepInv(a: Account, now: nat)
    requires Inv(a)
    ensures Inv(a.(b := Sweep(a.b, now))) && !ClampsSweep(a.b, now)
  {
    forall k
      ensures Held(a.b.reserved, k) == Held(Expired(a.b.reserved, now), k) + Held(Unexpired(a.b.reserved, now), k)
    {
      HeldSplit(a.b.reserved, k, now);
    }
    forall k ensures Tot(Sweep(a.b, now).spent, k) == SatSub(Tot(a.b.spent, k), Held(Expired(a.b.reserved, now), k)) {
    }
  }

  lemma GateBound(b: Bucket, i: Intent, env: Env)
    requires Capped(b) && Gate(b, i.bucket, Check(i, env)).Ok?
    ensures Tot(b.spent, i.bucket) + i.amount <= DayCap(b.policies, i.bucket) && i.amount > 0
    ensures Capped(Credit(b, i.bucket, i.amount))
  {
  }

  lemma HoldInv(a: Account, i: Intent, env: Env, now: nat)
    requires Inv(a) && i.id !in a.b.reserved && i.id !in a.b.consumed
    requires Gate(a.b, i.bucket, Check(i, env)).Ok?
    ensures Inv(a.(b := HoldIt(a.b, i.id, i.bucket, i.amount, now)))
  {
    GateBound(a.b, i, env);
    var h := Hold(i.bucket, i.amount, now + RESERVE_TTL);
    forall k ensures Held(a.b.reserved[i.id := h], k) == Share(h, k) + Held(a.b.reserved, k) {
      HeldInsert(a.b.reserved, k, i.id, h);
    }
  }

  lemma ConsumeInv(a: Account, id: string)
    requires Inv(a)
    ensures Inv(Account(Consume(a.b, id), PaidHold(a.committed, a.b.reserved, id)))
  {
    if id in a.b.reserved {
      forall k ensures Held(a.b.reserved, k) == Share(a.b.reserved[id], k) + Held(a.b.reserved - {id}, k) {
        HeldRemove(a.b.reserved, k, id);
      }
    } else {
      assert a.b.reserved - {id} == a.b.reserved;
    }
  }

  lemma ReleaseInv(a: Account, id: string, k: Kind, amount: nat)
    requires Inv(a) && id in a.b.reserved
    ensures Inv(a.(b := Release(a.b, id, k, amount)))
    ensures a.b.reserved[id].amount <= Tot(a.b.spent, a.b.reserved[id].kind)
  {
    forall j ensures Held(a.b.reserved, j) == Share(a.b.reserved[id], j) + Held(a.b.reserved - {id}, j) {
      HeldRemove(a.b.reserved, j, id);
    }
  }

  lemma StepInv(a: Account, e: Event)
    requires Inv(a)
    ensures Inv(Step(a, e)) && !Clamps(a.b, e)
    ensures Step(a, e).b.policies == a.b.policies
  {
    hide Held, Inv;
    match e {
      case DoRelease(id, k, amount) =>
        if id in a.b.reserved { ReleaseInv(a, id, k, amount); }
      case DoSweep(now) => SweepInv(a, now);
      case DoCommit(id, now) =>
        SweepInv(a, now);
        ConsumeInv(a.(b := Sweep(a.b, now)), id);
      case DoConsume(id, now) =>
        SweepInv(a, now);
        ConsumeInv(a.(b := Sweep(a.b, now)), id);
      case DoReserve(i, now, env) => ReserveInv(a, i, now, env);
      case DoAuthorize(i, now, env) => AuthorizeInv(a, i, now, env);
    }
  }

  lemma ReserveInv(a: Account, i: Intent, now: nat, env: Env)
    requires Inv(a)
    ensures Inv(Step(a, DoReserve(i, now, env))) && !Clamps(a.b, DoReserve(i, now, env))
  {
    hide Held;
    SweepInv(a, now);
    var s := a.(b := Sweep(a.b, now));
    if i.id !in s.b.consumed && i.id !in s.b.reserved && Gate(s.b, i.bucket, Check(i, env)).Ok? {
      GateBound(s.b, i, env);
      HoldInv(s, i, env, now);
    }
  }

  lemma PaidInv(a: Account, i: Intent, env: Env)
    requires Inv(a) && i.id !in a.b.reserved && Gate(a.b, i.bucket, Check(i, env)).Ok?
    ensures var c := Credit(a.b, i.bucket, i.amount);
            Inv(Account(c.(consumed := c.consumed + {i.id}), Paid(a.committed, i.bucket, i.amount)))
  {
    hide Held;
    GateBound(a.b, i, env);
  }

  lemma AuthorizeInv(a: Account, i: Intent, now: nat, env: Env)
    requires Inv(a)
    ensures Inv(Step(a, DoAuthorize(i, now, env))) && !Clamps(a.b, DoAuthorize(i, now, env))
  {
    SweepInv(a, now);
    var s := a.(b := Sweep(a.b, now));
    if i.id !in s.b.consumed && i.id !in s.b.reserved && Gate(s.b, i.bucket, Check(i, env)).Ok? {
      GateNoOverflow(s.b, i, env);
      PaidInv(s, i, env);
    }
    hide Held, Inv, Check, Sweep, ClampsSweep, Gate, Paid;
  }

  lemma GateNoOverflow(b: Bucket, i: Intent, env: Env)
    requires Capped(b) && Gate(b, i.bucket, Check(i, env)).Ok?
    ensures Tot(b.spent, i.bucket) + i.amount <= U64_MAX
  {
    GateBound(b, i, env);
  }

  /**
   Spend conservation and cap, over every run of reserve, commit, authorize, consume, sweep and
   release of a live reservation: what is spent is what was committed plus what is held, nothing
   saturates, the commitments stay under the daily cap, and no id is both consumed and reserved.
   */
  lemma {:induction false} Conservation(policies: map<Kind, Policy>, evs: seq<Event>)
    requires forall k :: k in policies ==> policies[k].maxPerDay < U64_MAX
    ensures var a := Run(policies, evs);
            && Balanced(a)
            && a.b.consumed !! a.b.reserved.Keys
            && a.b.policies == policies
            && (forall k :: Tot(a.committed, k) <= DayCap(policies, k))
            && (forall e :: !Clamps(a.b, e))
    ensures Inv(Run(policies, evs))
  {
    if evs != [] {
      Conservation(policies, evs[..|evs| - 1]);
      StepInv(Run(policies, evs[..|evs| - 1]), evs[|evs| - 1]);
    }
    var a := Run(policies, evs);
    forall e ensures !Clamps(a.b, e) {
      StepInv(a, e);
    }
  }

  // ---------- where the guards are needed ----------

  /** Releasing keeps the books balanced exactly when the reservation is live (or nothing is given back). */
  lemma ReleaseExact(a: Account, id: string, k: Kind, amount: nat)
    requires Inv(a)
    ensures Balanced(a.(b := Release(a.b, id, k, amount))) <==>
            id in a.b.reserved || amount == 0 || Tot(a.b.spent, k) == 0
  {
    if id in a.b.reserved {
      ReleaseInv(a, id, k, amount);
    } else if amount > 0 && Tot(a.b.spent, k) > 0 {
      assert Tot(Release(a.b, id, k, amount).spent, k) < Tot(a.b.spent, k);
    }
  }

  /** A hold is booked exactly when the day total still fits a u64; a daily cap of 2^64 - 1 admits one that does not. */
  lemma HoldExact(a: Account, id: string, k: Kind, amount: nat, now: nat)
    requires Balanced(a) && id !in a.b.reserved && Tot(a.b.spent, k) <= U64_MAX
    ensures Balanced(a.(b := HoldIt(a.b, id, k, amount, now))) <==> Tot(a.b.spent, k) + amount <= U64_MAX
  {
    var h := Hold(k, amount, now + RESERVE_TTL);
    forall j ensures Held(a.b.reserved[id := h], j) == Share(h, j) + Held(a.b.reserved, j) {
      HeldInsert(a.b.reserved, j, id, h);
    }
    if Tot(a.b.spent, k) + amount > U64_MAX {
      assert Tot(HoldIt(a.b, id, k, amount, now).spent, k) < Tot(a.b.spent, k) + amount;
    }
  }

  /** With the largest daily cap the gate lets a total through that the ledger cannot book. */
  lemma CapTooLarge()
    ensures exists i: Intent, env: Env, p: Policy, spentToday: nat ::
              && spentToday <= U64_MAX && spentToday + i.amount > U64_MAX
              && EvaluateIntent(i, p, spentToday, env.activeHash, env.parses) == Ok(())
  {
    var i := Intent("i", Users, "d", 1, "h");
    var env := Env("h", (_: string) => false, {});
    var p := Policy(Users, 1, U64_MAX, {"d"});
    assert EvaluateIntent(i, p, U64_MAX, env.activeHash, env.parses) == Ok(());
  }

  /** Marking an id consumed while it is reserved breaks the separation of the two sets. */
  lemma MarkConsumedExact(b: Bucket, id: string)
    requires b.consumed !! b.reserved.Keys
    ensures (b.consumed + {id}) !! b.reserved.Keys <==> id !in b.reserved
  {
  }
}
