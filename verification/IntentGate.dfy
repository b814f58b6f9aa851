/**
 What the intent gate lets through, over whole runs of the ledger: every held or spent intent meets every
 rule of its policy, and every intent that meets them is held or spent.
 */
module IntentGate {
  import opened Wrappers
  import opened BucketLedger
  import opened BucketAccounting
  import O = LedgerOutcomes

  /** The payment may go there: listed, an eligible operator, or for channels any parseable address. */
  predicate MayPay(i: Intent, p: Policy, env: Env) {
    i.destination in p.allowlist || i.destination in env.operators || (p.kind == Channels && env.parses(i.destination))
  }

  /** The day's cap; at 2^64 - 1 the saturating total always fits it. */
  predicate WithinDay(i: Intent, p: Policy, total: nat) {
    total + i.amount <= p.maxPerDay || p.maxPerDay >= U64_MAX
  }

  /** Every rule of the policy at today's total. */
  predicate Admitted(i: Intent, p: Policy, total: nat, env: Env) {
    && i.bucket == p.kind && i.policyHash == env.activeHash
    && 0 < i.amount <= p.maxPerTx && WithinDay(i, p, total) && MayPay(i, p, env)
  }

  /** The intent names this bucket, the active policy and an amount. */
  predicate Bound(i: Intent, p: Policy, env: Env) {
    i.bucket == p.kind && i.policyHash == env.activeHash && i.amount > 0
  }

  /** The gate answers Ok exactly for an admitted intent; otherwise it names the first rule that fails. */
  lemma GateExact(i: Intent, p: Policy, total: nat, env: Env)
    requires p.maxPerDay <= U64_MAX
    ensures var r := Check(i, env)(p, total);
            && (r.Ok? <==> Admitted(i, p, total, env))
            && (r.Err? ==> r.error == if !Bound(i, p, env) then InvalidIntent
                                      else if i.amount > p.maxPerTx then CapExceeded(i.amount, p.maxPerTx)
                                      else if !WithinDay(i, p, total) then CapExceeded(SatAdd(total, i.amount), p.maxPerDay)
                                      else DestinationNotAllowed)
  {
    var wider := p.(allowlist := p.allowlist + env.operators);
    assert i.destination in wider.allowlist <==> i.destination in p.allowlist || i.destination in env.operators;
  }

  predicate Caps64(policies: map<Kind, Policy>) {
    forall k :: k in policies ==> policies[k].maxPerDay <= U64_MAX
  }

  /** The intent asks a known bucket and is admitted at today's total. */
  ghost predicate AdmittedAt(b: Bucket, i: Intent, now: nat, env: Env) {
    i.bucket in b.policies && Admitted(i, b.policies[i.bucket], O.Total(b, i.bucket, now), env)
  }

  ghost predicate Fresh(b: Bucket, id: string, now: nat) {
    id !in b.consumed && !O.LiveHold(b, id, now)
  }

  lemma PassesAdmitted(b: Bucket, i: Intent, now: nat, env: Env)
    requires Caps64(b.policies)
    ensures O.Passes(b, i.bucket, now, Check(i, env)) <==> AdmittedAt(b, i, now, env)
  {
    hide Check, Admitted;
    if i.bucket in b.policies {
      GateExact(i, b.policies[i.bucket], O.Total(b, i.bucket, now), env);
    }
  }

  /** A fresh admitted intent is held by a reserve and consumed by an authorize; any other fresh intent is neither. */
  lemma AdmittedIffTaken(a: Account, i: Intent, now: nat, env: Env)
    requires Caps64(a.b.policies) && Fresh(a.b, i.id, now)
    ensures var held := Step(a, DoReserve(i, now, env)).b;
            var spent := Step(a, DoAuthorize(i, now, env)).b;
            && held.policies == spent.policies == a.b.policies
            && (if AdmittedAt(a.b, i, now, env)
                then O.Booked(a.b, held, i.id, i.bucket, i.amount, now) && O.Burned(a.b, spent, i.id, i.bucket, i.amount, now)
                else O.Aged(a.b, held, now) && held.consumed == a.b.consumed && O.Aged(a.b, spent, now) && spent.consumed == a.b.consumed)
  {
    hide O.Total, O.Passes, O.Refusal, AdmittedAt, Reserve, Authorize, Check;
    PassesAdmitted(a.b, i, now, env);
    O.ReserveOutcome(a.b, i.id, i.bucket, i.amount, now, Check(i, env));
    O.AuthorizeOutcome(a.b, i.id, i.bucket, i.amount, now, Check(i, env));
  }

  // ---------- over runs ----------

  /** Event `j` of a run takes an intent with this id, admitted in the state it found. */
  ghost predicate TakesAt(policies: map<Kind, Policy>, evs: seq<Event>, j: nat, id: string) {
    && j < |evs| && (evs[j].DoReserve? || evs[j].DoAuthorize?) && evs[j].i.id == id
    && AdmittedAt(Run(policies, evs[..j]).b, evs[j].i, evs[j].now, evs[j].env)
  }

  /** A hold is one that an admitted reserve booked, with its own bucket and amount. */
  ghost predicate HeldFor(policies: map<Kind, Policy>, evs: seq<Event>, id: string, h: Hold) {
    exists j: nat :: TakesAt(policies, evs, j, id) && evs[j].DoReserve?
      && h == Hold(evs[j].i.bucket, evs[j].i.amount, evs[j].now + 300_000)
  }

  /** A consumed id was taken from an admitted intent, or consumed without any spend. */
  ghost predicate ConsumedFor(policies: map<Kind, Policy>, evs: seq<Event>, id: string) {
    || (exists j: nat :: TakesAt(policies, evs, j, id))
    || (exists j :: 0 <= j < |evs| && evs[j].DoConsume? && evs[j].id == id)
  }

  lemma TakesMore(policies: map<Kind, Policy>, evs: seq<Event>, e: Event, j: nat, id: string)
    requires TakesAt(policies, evs, j, id)
    ensures TakesAt(policies, evs + [e], j, id)
  {
    hide Run, AdmittedAt;
    assert (evs + [e])[..j] == evs[..j];
  }

  lemma HeldMore(policies: map<Kind, Policy>, evs: seq<Event>, e: Event, id: string, h: Hold)
    requires HeldFor(policies, evs, id, h)
    ensures HeldFor(policies, evs + [e], id, h)
  {
    hide Run, AdmittedAt;
    var j: nat :| TakesAt(policies, evs, j, id) && evs[j].DoReserve? && h == Hold(evs[j].i.bucket, evs[j].i.amount, evs[j].now + 300_000);
    TakesMore(policies, evs, e, j, id);
    assert (evs + [e])[j] == evs[j];
  }

  lemma ConsumedMore(policies: map<Kind, Policy>, evs: seq<Event>, e: Event, id: string)
    requires ConsumedFor(policies, evs, id)
    ensures ConsumedFor(policies, evs + [e], id)
  {
    hide Run, AdmittedAt;
    if j: nat :| TakesAt(policies, evs, j, id) {
      TakesMore(policies, evs, e, j, id);
    } else {
      var j :| 0 <= j < |evs| && evs[j].DoConsume? && evs[j].id == id;
      assert (evs + [e])[j] == evs[j];
    }
  }

  /** What one event can add to the holds: the hold of an admitted reserve, and nothing else. */
  lemma StepHolds(a: Account, e: Event, id: string)
    requires Caps64(a.b.policies) && id in Step(a, e).b.reserved
    ensures var h := Step(a, e).b.reserved[id];
            || (id in a.b.reserved && h == a.b.reserved[id])
            || (e.DoReserve? && e.i.id == id && AdmittedAt(a.b, e.i, e.now, e.env)
                && h == Hold(e.i.bucket, e.i.amount, e.now + 300_000))
  {
    hide Reserve, Commit, ConsumeNew, Authorize, Release, Sweep, O.Total, O.Passes, O.Refusal, AdmittedAt, Check;
    match e
    case DoReserve(i, now, env) =>
      PassesAdmitted(a.b, i, now, env);
      O.ReserveOutcome(a.b, i.id, i.bucket, i.amount, now, Check(i, env));
    case DoAuthorize(i, now, env) => O.AuthorizeOutcome(a.b, i.id, i.bucket, i.amount, now, Check(i, env));
    case DoCommit(i, now) => KeptHolds(a.b, i, now);
    case DoConsume(i, now) => KeptHolds(a.b, i, now);
    case DoSweep(now) => O.SweepAges(a.b, now);
    case DoRelease(i, k, amount) => O.ReleaseOutcome(a.b, i, k, amount);
  }

  lemma KeptHolds(b: Bucket, id: string, now: nat)
    ensures forall i :: i in Commit(b, id, now).0.reserved ==> i in b.reserved && Commit(b, id, now).0.reserved[i] == b.reserved[i]
    ensures forall i :: i in ConsumeNew(b, id, now).0.reserved ==>
              i in b.reserved && ConsumeNew(b, id, now).0.reserved[i] == b.reserved[i]
    ensures Commit(b, id, now).0.policies == b.policies && ConsumeNew(b, id, now).0.policies == b.policies
  {
    O.SweepAges(b, now);
    hide Sweep;
  }

  /** What one event can add to the consumed ids. */
  lemma StepConsumes(a: Account, e: Event, id: string)
    requires Caps64(a.b.policies) && id in Step(a, e).b.consumed && id !in a.b.consumed
    ensures || (e.DoAuthorize? && e.i.id == id && AdmittedAt(a.b, e.i, e.now, e.env))
            || (e.DoConsume? && e.id == id)
            || (e.DoCommit? && e.id == id && id in a.b.reserved)
  {
    hide Reserve, Authorize, Release, Sweep, O.Total, O.Passes, O.Refusal, AdmittedAt, Check, Held;
    match e
    case DoReserve(i, now, env) => O.ReserveOutcome(a.b, i.id, i.bucket, i.amount, now, Check(i, env));
    case DoAuthorize(i, now, env) =>
      PassesAdmitted(a.b, i, now, env);
      O.AuthorizeOutcome(a.b, i.id, i.bucket, i.amount, now, Check(i, env));
    case DoCommit(i, now) => O.SweepAges(a.b, now);
    case DoConsume(i, now) => O.SweepAges(a.b, now);
    case DoSweep(now) => O.SweepAges(a.b, now);
    case DoRelease(i, k, amount) => O.ReleaseOutcome(a.b, i, k, amount);
  }

  lemma StepPolicies(a: Account, e: Event)
    ensures Step(a, e).b.policies == a.b.policies
  {
    hide Held, Check;
  }

  lemma {:induction false} RunPolicies(policies: map<Kind, Policy>, evs: seq<Event>)
    ensures Run(policies, evs).b.policies == policies
  {
    hide Step;
    if evs != [] {
      RunPolicies(policies, evs[..|evs| - 1]);
      StepPolicies(Run(policies, evs[..|evs| - 1]), evs[|evs| - 1]);
    }
  }

  lemma TakesLast(policies: map<Kind, Policy>, evs: seq<Event>, e: Event, id: string)
    requires (e.DoReserve? || e.DoAuthorize?) && e.i.id == id && AdmittedAt(Run(policies, evs).b, e.i, e.now, e.env)
    ensures TakesAt(policies, evs + [e], |evs|, id)
  {
    hide Run, AdmittedAt;
    assert (evs + [e])[..|evs|] == evs;
  }

  /**
   Over every run: whatever is held was booked by a reserve of an intent that met every rule of its policy
   at that moment, with that bucket and amount; whatever is consumed came from such an intent or from a
   plain consume.
   */
  lemma {:induction false} OnlyAdmittedTaken(policies: map<Kind, Policy>, evs: seq<Event>)
    requires Caps64(policies)
    ensures var b := Run(policies, evs).b;
            && (forall id :: id in b.reserved ==> HeldFor(policies, evs, id, b.reserved[id]))
            && (forall id :: id in b.consumed ==> ConsumedFor(policies, evs, id))
  {
    if evs != [] {
      var init, e := evs[..|evs| - 1], evs[|evs| - 1];
      assert evs == init + [e];
      OnlyAdmittedTaken(policies, init);
      RunPolicies(policies, init);
      var a := Run(policies, init);
      var b := Run(policies, evs).b;
      hide Run, Step, HeldFor, ConsumedFor, AdmittedAt;
      assert b == Step(a, e).b by { RunLast(policies, evs); }
      forall id | id in b.reserved ensures HeldFor(policies, evs, id, b.reserved[id]) {
        StepHolds(a, e, id);
        if id in a.b.reserved && b.reserved[id] == a.b.reserved[id] {
          HeldMore(policies, init, e, id, b.reserved[id]);
        } else {
          TakesLast(policies, init, e, id);
          HeldNow(policies, init, e, id, b.reserved[id]);
        }
      }
      forall id | id in b.consumed ensures ConsumedFor(policies, evs, id) {
        if id in a.b.consumed {
          ConsumedMore(policies, init, e, id);
        } else {
          StepConsumes(a, e, id);
          if e.DoAuthorize? {
            TakesLast(policies, init, e, id);
          } else if e.DoCommit? {
            HeldConsumed(policies, init, e, id, a.b.reserved[id]);
          }
          ConsumedNow(policies, init, e, id);
        }
      }
    }
  }

  lemma RunLast(policies: map<Kind, Policy>, evs: seq<Event>)
    requires evs != []
    ensures Run(policies, evs) == Step(Run(policies, evs[..|evs| - 1]), evs[|evs| - 1])
  {
  }

  lemma HeldNow(policies: map<Kind, Policy>, evs: seq<Event>, e: Event, id: string, h: Hold)
    requires e.DoReserve? && TakesAt(policies, evs + [e], |evs|, id)
    requires h == Hold(e.i.bucket, e.i.amount, e.now + 300_000)
    ensures HeldFor(policies, evs + [e], id, h)
  {
    hide Run, AdmittedAt;
    assert (evs + [e])[|evs|] == e;
  }

  lemma HeldConsumed(policies: map<Kind, Policy>, evs: seq<Event>, e: Event, id: string, h: Hold)
    requires HeldFor(policies, evs, id, h)
    ensures ConsumedFor(policies, evs + [e], id)
  {
    hide Run, AdmittedAt;
    var j: nat :| TakesAt(policies, evs, j, id);
    TakesMore(policies, evs, e, j, id);
  }

  lemma ConsumedNow(policies: map<Kind, Policy>, evs: seq<Event>, e: Event, id: string)
    requires ConsumedFor(policies, evs + [e], id) || TakesAt(policies, evs + [e], |evs|, id) || (e.DoConsume? && e.id == id)
    ensures ConsumedFor(policies, evs + [e], id)
  {
    hide Run, AdmittedAt;
    assert (evs + [e])[|evs|] == e;
  }
}
