/**
 What the ledger operations answer and leave, read off the ledger as it was: who is consumed, which holds
 have not expired, and today's totals once the expired holds have given their amounts back.
 */
module LedgerOutcomes {
  import opened Wrappers
  import opened Quorum
  import opened BucketLedger
  import opened QuorumBucket
  import opened AntiNonce

  // ---------- what can be read off a ledger ----------

  predicate LiveHold(b: Bucket, id: string, now: nat) {
    id in b.reserved && b.reserved[id].expires > now
  }

  /** Today's total of a bucket at a time. */
  ghost function Total(b: Bucket, k: Kind, now: nat): nat {
    SatSub(Tot(b.spent, k), Held(map id | id in b.reserved && b.reserved[id].expires <= now :: b.reserved[id], k))
  }

  /** The bucket exists and its policy admits the spend on top of today's total. */
  ghost predicate Passes(b: Bucket, k: Kind, now: nat, validate: Validator) {
    k in b.policies && validate(b.policies[k], Total(b, k, now)).Ok?
  }

  ghost function Refusal(b: Bucket, k: Kind, now: nat, validate: Validator): Result<()> {
    if k !in b.policies then Err(InvalidBucket) else validate(b.policies[k], Total(b, k, now))
  }

  /** Only what time itself changes: expired holds are gone, and their amounts with them. */
  ghost predicate Aged(b: Bucket, c: Bucket, now: nat) {
    && c.policies == b.policies
    && (forall id :: id in c.reserved <==> LiveHold(b, id, now))
    && (forall id :: id in c.reserved ==> c.reserved[id] == b.reserved[id])
    && (forall j :: Tot(c.spent, j) == Total(b, j, now))
  }

  /** Besides, one hold of the amount is booked. */
  ghost predicate Booked(b: Bucket, c: Bucket, id: string, k: Kind, amount: nat, now: nat) {
    && c.policies == b.policies && c.consumed == b.consumed
    && (forall i :: i in c.reserved <==> LiveHold(b, i, now) || i == id)
    && (forall i :: i in c.reserved && i != id ==> c.reserved[i] == b.reserved[i])
    && c.reserved[id] == Hold(k, amount, now + 300_000)
    && (forall j :: Tot(c.spent, j) == if j == k then SatAdd(Total(b, j, now), amount) else Total(b, j, now))
  }

  /** Besides, an id has moved to the consumed ones; `spent` is what it added to bucket `k`. */
  ghost predicate Burned(b: Bucket, c: Bucket, id: string, k: Kind, spent: nat, now: nat) {
    && c.policies == b.policies && c.consumed == b.consumed + {id}
    && (forall i :: i in c.reserved <==> LiveHold(b, i, now) && i != id)
    && (forall i :: i in c.reserved ==> c.reserved[i] == b.reserved[i])
    && (forall j :: Tot(c.spent, j) == if j == k then SatAdd(Total(b, j, now), spent) else Total(b, j, now))
  }

  lemma SweepAges(b: Bucket, now: nat)
    ensures Aged(b, Sweep(b, now), now) && Sweep(b, now).consumed == b.consumed
  {
    hide Held;
    assert Expired(b.reserved, now) == map id | id in b.reserved && b.reserved[id].expires <= now :: b.reserved[id];
    forall j ensures Tot(Sweep(b, now).spent, j) == Total(b, j, now) {
    }
  }

  lemma GateRefuses(b: Bucket, k: Kind, now: nat, validate: Validator)
    ensures Gate(Sweep(b, now), k, validate) == Refusal(b, k, now, validate)
    ensures Gate(Sweep(b, now), k, validate).Ok? <==> Passes(b, k, now, validate)
  {
    SweepAges(b, now);
    hide Sweep;
    assert Tot(Sweep(b, now).spent, k) == Total(b, k, now);
  }

  lemma HoldBooks(b: Bucket, s: Bucket, id: string, k: Kind, amount: nat, now: nat)
    requires Aged(b, s, now) && s.consumed == b.consumed && !LiveHold(b, id, now)
    ensures Booked(b, HoldIt(s, id, k, amount, now), id, k, amount, now)
  {
    hide Total;
  }

  // ---------- one node in memory ----------

  lemma ReserveOutcome(b: Bucket, id: string, k: Kind, amount: nat, now: nat, validate: Validator)
    ensures var (c, r) := Reserve(b, id, k, amount, now, validate);
            var again := LiveHold(b, id, now) && b.reserved[id].kind == k && b.reserved[id].amount == amount;
            && (r.Ok? <==> id !in b.consumed && (again || (!LiveHold(b, id, now) && Passes(b, k, now, validate))))
            && (r.Err? ==> r == if id in b.consumed || LiveHold(b, id, now) then Err(IntentReplay) else Refusal(b, k, now, validate))
            && (if r.Ok? && !again then Booked(b, c, id, k, amount, now) else Aged(b, c, now) && c.consumed == b.consumed)
  {
    SweepAges(b, now);
    GateRefuses(b, k, now, validate);
    hide Sweep, Gate, HoldIt, Total, Booked, Passes, Refusal;
    if id !in b.consumed && !LiveHold(b, id, now) && Passes(b, k, now, validate) {
      HoldBooks(b, Sweep(b, now), id, k, amount, now);
    }
  }

  lemma CommitOutcome(b: Bucket, id: string, now: nat, k: Kind)
    requires forall j :: Tot(b.spent, j) <= U64_MAX
    ensures var (c, r) := Commit(b, id, now);
            && (r.Ok? <==> id in b.consumed || LiveHold(b, id, now))
            && (r.Err? ==> r == Err(ReservationMissing))
            && (if r.Ok? && id !in b.consumed then Burned(b, c, id, k, 0, now) else Aged(b, c, now) && c.consumed == b.consumed)
  {
    SweepAges(b, now);
    hide Sweep;
  }

  lemma ConsumeOutcome(b: Bucket, id: string, now: nat, k: Kind)
    requires forall j :: Tot(b.spent, j) <= U64_MAX
    ensures var (c, r) := ConsumeNew(b, id, now);
            && (r.Ok? <==> id !in b.consumed)
            && (r.Err? ==> r == Err(IntentReplay))
            && (if r.Ok? then Burned(b, c, id, k, 0, now) else Aged(b, c, now) && c.consumed == b.consumed)
  {
    SweepAges(b, now);
    hide Sweep;
  }

  lemma AuthorizeOutcome(b: Bucket, id: string, k: Kind, amount: nat, now: nat, validate: Validator)
    ensures var (c, r) := Authorize(b, id, k, amount, now, validate);
            && (r.Ok? <==> id !in b.consumed && !LiveHold(b, id, now) && Passes(b, k, now, validate))
            && (r.Err? ==> r == if id in b.consumed || LiveHold(b, id, now) then Err(IntentReplay) else Refusal(b, k, now, validate))
            && (if r.Ok? then Burned(b, c, id, k, amount, now) else Aged(b, c, now) && c.consumed == b.consumed)
  {
    SweepAges(b, now);
    GateRefuses(b, k, now, validate);
    hide Sweep, Gate, Total, Passes, Refusal;
  }

  /** A release takes a hold away with its own amount, expired or not; without a hold it takes the caller's amount. */
  lemma ReleaseOutcome(b: Bucket, id: string, k: Kind, amount: nat)
    ensures var c := Release(b, id, k, amount);
            var (kind, back) := if id in b.reserved then (b.reserved[id].kind, b.reserved[id].amount) else (k, amount);
            && c.policies == b.policies && c.consumed == b.consumed
            && (forall i :: i in c.reserved <==> i in b.reserved && i != id)
            && (forall i :: i in c.reserved ==> c.reserved[i] == b.reserved[i])
            && (forall j :: Tot(c.spent, j) == if j == kind then SatSub(Tot(b.spent, j), back) else Tot(b.spent, j))
  {
  }

  // ---------- the durable node ----------

  /** The durable check-and-insert: Ok(false) exactly for a new id whose line is synced. */
  lemma BurnOutcome(s: Node, id: string, disk: Disk)
    ensures var (w, r) := BurnIntent(s, id, disk);
            && (r == Ok(true) <==> id in s.b.consumed) && (r == Ok(false) <==> id !in s.b.consumed && disk.Synced?)
            && (r.Err? ==> r == Err(Threshold))
            && w.b.policies == s.b.policies && w.b.spent == s.b.spent
            && w.log == (if id in s.b.consumed || disk.Unwritten? then s.log else s.log + id + "\n")
            && w.b.consumed == (if r == Ok(false) then s.b.consumed + {id} else s.b.consumed)
            && (forall i :: i in w.b.reserved <==> i in s.b.reserved && (r == Ok(false) ==> i != id))
            && (forall i :: i in w.b.reserved ==> w.b.reserved[i] == s.b.reserved[i])
  {
  }

  lemma SoftOutcome(b: Bucket, id: string, now: nat)
    requires forall j :: Tot(b.spent, j) <= U64_MAX
    ensures var (c, seen) := SoftHold(b, id, now);
            && (seen <==> id in b.consumed || LiveHold(b, id, now))
            && (if seen then Aged(b, c, now) && c.consumed == b.consumed else Booked(b, c, id, Users, 0, now))
  {
    SweepAges(b, now);
    hide Sweep;
  }

  lemma PersistCommitOutcome(s: Node, id: string, now: nat, disk: Disk, k: Kind)
    requires forall j :: Tot(s.b.spent, j) <= U64_MAX
    ensures var (w, r) := PersistCommit(s, id, now, disk);
            && (r.Ok? <==> id in s.b.consumed || (LiveHold(s.b, id, now) && disk.Synced?))
            && (r.Err? ==> r == if LiveHold(s.b, id, now) then Err(Threshold) else Err(ReservationMissing))
            && (if r.Ok? && id !in s.b.consumed then Burned(s.b, w.b, id, k, 0, now) else Aged(s.b, w.b, now) && w.b.consumed == s.b.consumed)
            && (r.Ok? && id !in s.b.consumed ==> w.log == s.log + id + "\n")
  {
    SweepAges(s.b, now);
    hide Sweep;
  }

  /** The durable authorize neither sweeps nor looks at reservations. */
  lemma PersistAuthorizeOutcome(s: Node, id: string, k: Kind, amount: nat, disk: Disk, validate: Validator)
    requires Tot(s.b.spent, k) + amount <= U64_MAX
    ensures var (w, r) := PersistAuthorize(s, id, k, amount, disk, validate);
            var passes := k in s.b.policies && validate(s.b.policies[k], Tot(s.b.spent, k)).Ok?;
            && (r.Ok? <==> id !in s.b.consumed && passes && disk.Synced?)
            && (r.Err? ==> r == if id in s.b.consumed then Err(IntentReplay)
                                else if k !in s.b.policies then Err(InvalidBucket)
                                else if !passes then validate(s.b.policies[k], Tot(s.b.spent, k)) else Err(Threshold))
            && w.b.reserved == s.b.reserved && w.b.policies == s.b.policies
            && w.b.consumed == (if r.Ok? then s.b.consumed + {id} else s.b.consumed)
            && (forall j :: Tot(w.b.spent, j) == Tot(s.b.spent, j) + (if r.Ok? && j == k then amount else 0))
            && (r.Ok? ==> w.log == s.log + id + "\n")
  {
  }

  // ---------- the quorum ledger ----------

  predicate SeenBySome(acks: seq<bool>) {
    exists i :: 0 <= i < |acks| && acks[i]
  }

  /** The peers' answers arrived, none says "seen", and with this node they are two thirds of the mesh. */
  predicate Backed(acks: Result<seq<bool>>, peers: nat) {
    acks.Ok? && !SeenBySome(acks.value) && 3 * (1 + |acks.value|) >= 2 * (peers + 1)
  }

  function Unbacked(acks: Result<seq<bool>>, peers: nat): Error
    requires !Backed(acks, peers)
  {
    if acks.Err? then acks.error
    else if SeenBySome(acks.value) then IntentReplay
    else QuorumNotMet(1 + |acks.value|, ClaimQuorum(peers))
  }

  lemma SettleBacked(acks: seq<bool>, peers: nat)
    ensures Settle(acks, ClaimQuorum(peers)).Ok? <==> Backed(Ok(acks), peers)
    ensures !Backed(Ok(acks), peers) ==> Settle(acks, ClaimQuorum(peers)) == Err(Unbacked(Ok(acks), peers))
  {
    assert SeenBySome(acks) <==> true in acks;
  }

  /** Taking a fresh hold back leaves the ledger as time alone does. */
  lemma BookedReleased(b: Bucket, c: Bucket, id: string, k: Kind, amount: nat, now: nat)
    requires Booked(b, c, id, k, amount, now) && !LiveHold(b, id, now) && Total(b, k, now) + amount <= U64_MAX
    ensures Aged(b, Release(c, id, k, amount), now) && Release(c, id, k, amount).consumed == b.consumed
  {
    hide Total;
  }

  /**
   Exactly when a quorum reserve answers Ok, which error each other case gives, and what stays: Ok, and a
   transport error after the local hold, leave that one hold and amount; "seen" and a short quorum leave
   the ledger as time alone does (as long as today's total with the amount fits 64 bits).
   */
  lemma QuorumReserveOutcome(b: Bucket, id: string, k: Kind, amount: nat, now: nat, validate: Validator,
                             acks: Result<seq<bool>>, peers: nat)
    ensures var (c, r) := QuorumReserve(b, id, k, amount, now, validate, acks, ClaimQuorum(peers));
            var held := id !in b.consumed && !LiveHold(b, id, now) && Passes(b, k, now, validate);
            && (r.Ok? <==> held && Backed(acks, peers))
            && (r.Err? ==> r == if id in b.consumed || LiveHold(b, id, now) then Err(IntentReplay)
                                else if !held then Refusal(b, k, now, validate) else Err(Unbacked(acks, peers)))
            && (held && (r.Ok? || acks.Err?) ==> Booked(b, c, id, k, amount, now))
            && (!held ==> Aged(b, c, now) && c.consumed == b.consumed)
            && (held && acks.Ok? && r.Err? && Total(b, k, now) + amount <= U64_MAX ==> Aged(b, c, now) && c.consumed == b.consumed)
  {
    SweepAges(b, now);
    GateRefuses(b, k, now, validate);
    hide Sweep, Gate, HoldIt, Total, Booked, Aged, Passes, Refusal, Release, Settle, Backed;
    if acks.Ok? {
      SettleBacked(acks.value, peers);
    } else {
      NotBacked(acks, peers);
    }
    if id !in b.consumed && !LiveHold(b, id, now) && Passes(b, k, now, validate) {
      SweptHold(b, id, now);
      HoldBooks(b, Sweep(b, now), id, k, amount, now);
      if Total(b, k, now) + amount <= U64_MAX {
        BookedReleased(b, HoldIt(Sweep(b, now), id, k, amount, now), id, k, amount, now);
      }
    } else {
      SweptHold(b, id, now);
    }
  }

  lemma NotBacked(acks: Result<seq<bool>>, peers: nat)
    requires acks.Err?
    ensures !Backed(acks, peers)
  {
  }

  lemma SweptHold(b: Bucket, id: string, now: nat)
    ensures id in Sweep(b, now).reserved <==> LiveHold(b, id, now)
  {
  }

  /** Exactly when a quorum claim answers Ok; a new id whose line is synced stays burned whatever the answer. */
  lemma QuorumConsumeOutcome(s: Node, id: string, disk: Disk, acks: Result<seq<bool>>, peers: nat)
    ensures var (w, r) := QuorumConsume(s, id, disk, acks, ClaimQuorum(peers));
            && w == BurnIntent(s, id, disk).0
            && (r.Ok? <==> id !in s.b.consumed && disk.Synced? && Backed(acks, peers))
            && (r.Err? ==> r == if id in s.b.consumed then Err(IntentReplay)
                                else if !disk.Synced? then Err(Threshold) else Err(Unbacked(acks, peers)))
            && (id !in s.b.consumed && disk.Synced? ==> id in w.b.consumed)
  {
    if acks.Ok? {
      SettleBacked(acks.value, peers);
    }
    hide Settle;
  }

  /** Exactly when a quorum authorize answers Ok, and which stage an error comes from. */
  lemma QuorumAuthorizeOutcome(s: Node, id: string, k: Kind, amount: nat, now: nat, validate: Validator,
                               acks: Result<seq<bool>>, disk: Disk, burns: Result<seq<bool>>, peers: nat)
    ensures var (w, r) := QuorumAuthorize(s, id, k, amount, now, validate, acks, disk, burns, ClaimQuorum(peers));
            var reserve := QuorumReserve(s.b, id, k, amount, now, validate, acks, ClaimQuorum(peers)).1;
            && (r.Ok? <==> && id !in s.b.consumed && !LiveHold(s.b, id, now) && Passes(s.b, k, now, validate)
                           && Backed(acks, peers) && disk.Synced? && Backed(burns, peers))
            && (r.Err? ==> r == if reserve.Err? then reserve
                                else if !disk.Synced? then Err(Threshold) else Err(Unbacked(burns, peers)))
  {
    QuorumReserveOutcome(s.b, id, k, amount, now, validate, acks, peers);
    var b := QuorumReserve(s.b, id, k, amount, now, validate, acks, ClaimQuorum(peers)).0;
    QuorumConsumeOutcome(s.(b := b), id, disk, burns, peers);
    hide QuorumReserve, QuorumConsume, Backed, Passes, Total, Release, Aged;
  }
}
