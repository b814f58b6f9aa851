/**
 The durable "burn once" store of one vault and the quorum claim built on it:
 `PersistedAntiNonce`, its HTTP fan-out loop and `QuorumAntiNonce::claim_session`.
 */
module AntiNonce {
  import opened Wrappers
  import opened Quorum
  import L = LineLog

  /** How one append+fsync of a line can end. A line may reach the file although the call fails. */
  datatype Disk = Synced | Unwritten | Unsynced

  /** What one node holds: the text of its log and the in-memory set. */
  datatype Store = Store(log: string, seen: set<string>)

  const EMPTY: Store := Store("", {})

  function Fetch(log: string): set<string> {
    L.Load(log, false)
  }

  /** Atomic durable check-and-insert of one node; Ok(true) means "already seen". */
  function BurnId(s: Store, id: string, disk: Disk): (Store, Result<bool>) {
    if id in s.seen then (s, Ok(true))
    else match disk
      case Synced => (Store(L.Append(s.log, id), s.seen + {id}), Ok(false))
      case Unwritten => (s, Err(Threshold))
      case Unsynced => (s.(log := L.Append(s.log, id)), Err(Threshold))
  }

  /** A crash loses the memory; the next boot reads the log. */
  function Reboot(s: Store): Store {
    s.(seen := Fetch(s.log))
  }

  /** Every id in memory that fits the line format is also on disk. */
  ghost predicate Durable(s: Store) {
    && L.Terminated(s.log)
    && forall id :: id in s.seen && L.Fits(id, false) ==> id in Fetch(s.log)
  }

  lemma PrepareDurable(s: Store, id: string, disk: Disk)
    requires Durable(s)
    ensures Durable(BurnId(s, id, disk).0)
    ensures s.seen <= BurnId(s, id, disk).0.seen
    ensures Fetch(s.log) <= Fetch(BurnId(s, id, disk).0.log)
  {
    hide L.Load, L.Fits, L.Terminated;
    L.AppendKeeps(s.log, id, false);
    if L.Fits(id, false) {
      L.AppendFits(s.log, id, false);
    }
  }

  /** The decision of a claim over its collected acks (true = already seen). */
  function Verdict(acks: seq<bool>, t: nat): Result<()> {
    if true in acks then Err(NonceReuse)
    else if 1 + |acks| < t then Err(QuorumNotMet(1 + |acks|, t))
    else Ok(())
  }

  // ---------- runs of one store ----------

  datatype StoreEvent = Burn(id: string, disk: Disk) | Crash

  function StoreStep(s: Store, e: StoreEvent): Store {
    match e
    case Burn(id, disk) => BurnId(s, id, disk).0
    case Crash => Reboot(s)
  }

  function StoreRun(s: Store, evs: seq<StoreEvent>): Store {
    if evs == [] then s else StoreStep(StoreRun(s, evs[..|evs| - 1]), evs[|evs| - 1])
  }

  /** The ids some call acknowledged as freshly burned. */
  function Acked(s: Store, evs: seq<StoreEvent>): set<string> {
    if evs == [] then {}
    else
      var e := evs[|evs| - 1];
      var before := StoreRun(s, evs[..|evs| - 1]);
      Acked(s, evs[..|evs| - 1]) +
      (if e.Burn? && BurnId(before, e.id, e.disk).1 == Ok(false) then {e.id} else {})
  }

  function Attempted(evs: seq<StoreEvent>): set<string> {
    if evs == [] then {}
    else Attempted(evs[..|evs| - 1]) + (if evs[|evs| - 1].Burn? then {evs[|evs| - 1].id} else {})
  }

  lemma {:induction false} RunDurable(evs: seq<StoreEvent>)
    ensures Durable(StoreRun(EMPTY, evs))
  {
    if evs != [] {
      RunDurable(evs[..|evs| - 1]);
      var e := evs[|evs| - 1];
      if e.Burn? {
        PrepareDurable(StoreRun(EMPTY, evs[..|evs| - 1]), e.id, e.disk);
      }
    }
  }

  /**
   Acknowledged implies durable: wherever a run is cut, a reboot reads back every
   acknowledged id that fits the line format.
   */
  lemma {:induction false} AckedSurvives(evs: seq<StoreEvent>, id: string)
    requires id in Acked(EMPTY, evs) && L.Fits(id, false)
    ensures id in Reboot(StoreRun(EMPTY, evs)).seen
  {
    hide L.Load, L.Fits, L.Terminated;
    var init, e := evs[..|evs| - 1], evs[|evs| - 1];
    var s := StoreRun(EMPTY, init);
    RunDurable(init);
    if e.Burn? {
      PrepareDurable(s, e.id, e.disk);
    }
    if id in Acked(EMPTY, init) {
      AckedSurvives(init, id);
    } else {
      L.AppendFits(s.log, id, false);
    }
  }

  /** When every attempted id fits, a reboot reads back attempted ids only. */
  lemma {:induction false} OnlyAttempted(evs: seq<StoreEvent>)
    requires forall id :: id in Attempted(evs) ==> L.Fits(id, false)
    ensures Reboot(StoreRun(EMPTY, evs)).seen <= Attempted(evs)
    ensures StoreRun(EMPTY, evs).seen <= Attempted(evs)
  {
    hide L.Load, L.Fits, L.Terminated;
    L.LoadEmpty(false);
    if evs != [] {
      var init, e := evs[..|evs| - 1], evs[|evs| - 1];
      assert Attempted(init) <= Attempted(evs);
      OnlyAttempted(init);
      RunDurable(init);
      if e.Burn? {
        L.AppendFits(StoreRun(EMPTY, init).log, e.id, false);
      }
    }
  }

  /** An id is claimable at most once per node over any run, exactly because it fits the log. */
  lemma ReusableIffUnfit(id: string)
    ensures BurnId(Reboot(BurnId(EMPTY, id, Synced).0), id, Synced).1 == Ok(false) <==> !L.Fits(id, false)
  {
    L.SurvivesIffFits("", id, false);
  }

  // ---------- the store as the source writes it ----------

  class PersistedAntiNonce {
    var log: string
    var inner: set<string>
    var soft: map<string, nat>  // id -> expiry instant

    ghost function State(): Store
      reads this
    {
      Store(log, inner)
    }

    constructor (text: string)
      ensures State() == Reboot(Store(text, {}))
      ensures soft == map[]
    {
      var ids := L.LoadIds(text, false);
      log, inner, soft := text, ids, map[];
    }

    method Prepare(id: string, disk: Disk) returns (r: Result<bool>)
      modifies this
      ensures (State(), r) == BurnId(old(State()), id, disk)
      ensures soft == if r == Ok(false) then old(soft) - {id} else old(soft)
    {
      if id in inner {
        return Ok(true);
      }
      if disk.Unwritten? {
        return Err(Threshold);
      }
      log := L.Append(log, id);
      if disk.Unsynced? {
        return Err(Threshold);
      }
      inner := inner + {id};
      soft := soft - {id};
      return Ok(false);
    }

    /** Soft TTL reservation: blocked by a burn or by a live soft entry; never burns. */
    method PrepareSoft(id: string, now: nat, ttl: nat) returns (blocked: bool)
      modifies this`soft
      ensures blocked <==> id in inner || (id in old(soft) && old(soft)[id] > now)
      ensures id in inner ==> soft == old(soft)
      ensures id !in inner ==>
                var live := map i | i in old(soft) && old(soft)[i] > now :: old(soft)[i];
                soft == if blocked then live else live[id := now + ttl]
    {
      if id in inner {
        return true;
      }
      soft := map i | i in soft && soft[i] > now :: soft[i];
      if id in soft {
        return true;
      }
      soft := soft[id := now + ttl];
      return false;
    }
  }

  /** What the transport sees of one HTTP attempt against one peer. */
  datatype Reply =
    | Answered(body: Option<bool>)  // success status; None when `already_seen` does not parse
    | Failed(retry: bool)           // error status, retryable or not
    | Unreachable

  function Line(net: (nat, nat) -> Reply, peer: nat): nat -> Reply {
    (attempt: nat) => net(peer, attempt)
  }

  /** The reply that decides one peer: the first answer or final status within the attempts left. */
  function Decisive(net: nat -> Reply, attempt: nat, attempts: nat): Option<Option<bool>>
    decreases attempts - attempt
  {
    if attempt >= attempts then None
    else match net(attempt)
      case Answered(body) => Some(body)
      case Failed(retry) => if !retry then None else Decisive(net, attempt + 1, attempts)
      case Unreachable => Decisive(net, attempt + 1, attempts)
  }

  /** Acks of a whole fan-out, in peer order; None is the fail-closed parse error. */
  function Fanout(net: (nat, nat) -> Reply, peers: nat, attempts: nat): Option<seq<bool>> {
    if peers == 0 then Some([])
    else
      var rest := Fanout(net, peers - 1, attempts);
      if rest.None? then None
      else match Decisive(Line(net, peers - 1), 0, attempts)
        case None => rest
        case Some(None) => None
        case Some(Some(seen)) => Some(rest.value + [seen])
  }

  function Answering(net: (nat, nat) -> Reply, peers: nat, attempts: nat): set<nat> {
    set p: nat | p < peers && Decisive(Line(net, p), 0, attempts).Some?
  }

  /** Attempts before `k` were all worth repeating. */
  predicate Retried(net: nat -> Reply, attempt: nat, k: nat) {
    forall j: nat :: attempt <= j < k ==> net(j) == Failed(true) || net(j) == Unreachable
  }

  /** A peer's deciding answer is its first answer, reached through repeatable failures within the attempts. */
  lemma {:induction false} DecisiveExact(net: nat -> Reply, attempt: nat, attempts: nat, body: Option<bool>)
    ensures Decisive(net, attempt, attempts) == Some(body) <==>
            exists k: nat :: attempt <= k < attempts && net(k) == Answered(body) && Retried(net, attempt, k)
    decreases attempts - attempt
  {
    if attempt < attempts {
      if net(attempt) == Failed(true) || net(attempt) == Unreachable {
        DecisiveExact(net, attempt + 1, attempts, body);
        if k: nat :| attempt <= k < attempts && net(k) == Answered(body) && Retried(net, attempt, k) {
          assert Retried(net, attempt + 1, k);
        }
        if k: nat :| attempt + 1 <= k < attempts && net(k) == Answered(body) && Retried(net, attempt + 1, k) {
          assert Retried(net, attempt, k);
        }
      } else {
        assert Retried(net, attempt, attempt);
        if k: nat :| attempt <= k < attempts && net(k) == Answered(body) && Retried(net, attempt, k) {
          assert k > attempt ==> net(attempt) == Failed(true) || net(attempt) == Unreachable;
        }
      }
    }
  }

  /** Every ack stands for one distinct peer that really answered within its attempts. */
  lemma {:induction false} FanoutCounts(net: (nat, nat) -> Reply, peers: nat, attempts: nat)
    requires Fanout(net, peers, attempts).Some?
    ensures |Fanout(net, peers, attempts).value| == |Answering(net, peers, attempts)|
  {
    hide Decisive, Line;
    if peers > 0 {
      FanoutCounts(net, peers - 1, attempts);
      AnsweringNext(net, peers - 1, attempts);
      hide Answering;
    }
  }

  lemma AnsweringNext(net: (nat, nat) -> Reply, peers: nat, attempts: nat)
    ensures |Answering(net, peers + 1, attempts)| ==
            |Answering(net, peers, attempts)| + if Decisive(Line(net, peers), 0, attempts).Some? then 1 else 0
  {
    hide Decisive, Line;
    var before, after := Answering(net, peers, attempts), Answering(net, peers + 1, attempts);
    assert after == if Decisive(Line(net, peers), 0, attempts).Some? then before + {peers} else before;
  }

  /** The acks in peer order: the one at place `|Answering(..p..)|` is what peer `p`'s deciding answer said. */
  lemma {:induction false} FanoutAcks(net: (nat, nat) -> Reply, peers: nat, attempts: nat, p: nat)
    requires Fanout(net, peers, attempts).Some? && p < peers
    requires Decisive(Line(net, p), 0, attempts).Some?
    ensures var acks, k := Fanout(net, peers, attempts).value, |Answering(net, p, attempts)|;
            k < |acks| && Decisive(Line(net, p), 0, attempts) == Some(Some(acks[k]))
  {
    hide Decisive, Line, Answering;
    FanoutCounts(net, peers - 1, attempts);
    if p < peers - 1 {
      FanoutAcks(net, peers - 1, attempts, p);
    }
  }

  /** A fan-out fails closed exactly when some peer's deciding answer does not parse. */
  lemma {:induction false} FanoutFailsClosed(net: (nat, nat) -> Reply, peers: nat, attempts: nat) returns (p: nat)
    requires Fanout(net, peers, attempts).None?
    ensures p < peers && Decisive(Line(net, p), 0, attempts) == Some(None)
  {
    if Fanout(net, peers - 1, attempts).None? {
      p := FanoutFailsClosed(net, peers - 1, attempts);
    } else {
      p := peers - 1;
    }
  }

  method PrepareOnPeers(net: (nat, nat) -> Reply, peers: nat, maxRetries: nat) returns (r: Result<seq<bool>>)
    ensures r == match Fanout(net, peers, if maxRetries == 0 then 1 else maxRetries)
                 case Some(acks) => Ok(acks)
                 case None => Err(Threshold)
  {
    var attempts := if maxRetries == 0 then 1 else maxRetries;
    var out := [];
    var p := 0;
    while p < peers
      invariant p <= peers
      invariant Fanout(net, p, attempts) == Some(out)
    {
      var ack: Option<bool> := None;
      var attempt := 0;
      ghost var mine := Line(net, p);
      var done := false;
      while attempt < attempts && !done
        invariant attempt <= attempts
        invariant !done ==> ack == None && Decisive(mine, 0, attempts) == Decisive(mine, attempt, attempts)
        invariant done ==> Decisive(mine, 0, attempts) == if ack.Some? then Some(ack) else None
        decreases attempts - attempt, !done
      {
        match net(p, attempt) {
          case Answered(body) =>
            if body.None? {
              FanoutVoid(net, p, peers, attempts);
              return Err(Threshold);
            }
            ack, done := body, true;
          case Failed(retry) =>
            if !retry || attempt + 1 >= attempts {
              done := true;
            } else {
              attempt := attempt + 1;
            }
          case Unreachable =>
            if attempt + 1 >= attempts {
              done := true;
            } else {
              attempt := attempt + 1;
            }
        }
      }
      if ack.Some? {
        out := out + [ack.value];
      }
      p := p + 1;
    }
    return Ok(out);
  }

  lemma {:induction false} FanoutVoid(net: (nat, nat) -> Reply, p: nat, peers: nat, attempts: nat)
    requires p < peers
    requires Decisive(Line(net, p), 0, attempts) == Some(None)
    ensures Fanout(net, peers, attempts) == None
  {
    if p < peers - 1 {
      FanoutVoid(net, p, peers - 1, attempts);
    }
  }

  /** `claim_session`: burn here first, then decide over what the transport brings. */
  function QuorumClaim(s: Store, id: string, disk: Disk, acks: Result<seq<bool>>, t: nat): (Store, Result<()>) {
    var (w, r) := BurnId(s, id, disk);
    match r
    case Err(e) => (w, Err(e))
    case Ok(seen) =>
      if seen then (w, Err(NonceReuse))
      else match acks
        case Err(e) => (w, Err(e))
        case Ok(a) => (w, Verdict(a, t))
  }

  /** Some peer answered "already seen". */
  predicate SeenSomewhere(acks: seq<bool>) {
    exists i :: 0 <= i < |acks| && acks[i]
  }

  /**
   Exactly when a claim succeeds and what every other case answers, in terms of the old store and what
   came in: two thirds of the `peers + 1` nodes are what it needs. A synced fresh call leaves the id
   burned whatever it answers.
   */
  lemma ClaimExact(s: Store, id: string, disk: Disk, acks: Result<seq<bool>>, peers: nat)
    ensures var (w, r) := QuorumClaim(s, id, disk, acks, ClaimQuorum(peers));
            && (r == Ok(()) <==>
                  && id !in s.seen && disk.Synced? && acks.Ok?
                  && !SeenSomewhere(acks.value) && 3 * (1 + |acks.value|) >= 2 * (peers + 1))
            && (id in s.seen ==> w == s && r == Err(NonceReuse))
            && (id !in s.seen && disk.Unwritten? ==> w == s && r == Err(Threshold))
            && (id !in s.seen && disk.Unsynced? ==> w == Store(s.log + id + "\n", s.seen) && r == Err(Threshold))
            && (id !in s.seen && disk.Synced? ==>
                  && w == Store(s.log + id + "\n", s.seen + {id})
                  && (acks.Err? ==> r == Err(acks.error))
                  && (acks.Ok? && SeenSomewhere(acks.value) ==> r == Err(NonceReuse))
                  && (acks.Ok? && !SeenSomewhere(acks.value) && 3 * (1 + |acks.value|) < 2 * (peers + 1) ==>
                        r == Err(QuorumNotMet(1 + |acks.value|, ClaimQuorum(peers)))))
  {
    if acks.Ok? {
      assert SeenSomewhere(acks.value) <==> true in acks.value;
    }
  }

  class QuorumAntiNonce {
    const local: PersistedAntiNonce
    const peerCount: nat
    const quorumT: nat

    constructor (local: PersistedAntiNonce, peerCount: nat)
      ensures this.local == local && this.peerCount == peerCount && quorumT == ClaimQuorum(peerCount)
    {
      this.local, this.peerCount, quorumT := local, peerCount, ClaimQuorum(peerCount);
    }

    method ClaimSession(id: string, disk: Disk, acks: Result<seq<bool>>) returns (r: Result<()>)
      modifies local
      ensures (local.State(), r) == QuorumClaim(old(local.State()), id, disk, acks, quorumT)
    {
      var here := local.Prepare(id, disk);
      if here.Err? {
        return Err(here.error);
      }
      if here.value {
        return Err(NonceReuse);
      }
      if acks.Err? {
        return Err(acks.error);
      }
      if true in acks.value {
        return Err(NonceReuse);
      }
      var have := 1 + |acks.value|;
      if have < quorumT {
        return Err(QuorumNotMet(have, quorumT));
      }
      return Ok(());
    }
  }

  /**
   The same over in-memory peers whose writes succeed. It succeeds exactly when the id was new here and on
   every peer and the mesh size meets the quorum; the id is burned wherever it was asked.
   */
  method ClaimAmongPeers(local: PersistedAntiNonce, peers: seq<PersistedAntiNonce>, peerCount: nat, id: string)
      returns (r: Result<()>)
    requires local !in peers
    requires forall i, j :: 0 <= i < j < |peers| ==> peers[i] != peers[j]
    modifies local, peers
    ensures r == Ok(()) <==>
            && id !in old(local.inner)
            && (forall i :: 0 <= i < |peers| ==> id !in old(peers[i].inner))
            && 1 + |peers| >= ClaimQuorum(peerCount)
    ensures id in local.inner
    ensures id !in old(local.inner) ==> forall i :: 0 <= i < |peers| ==> id in peers[i].inner
    ensures local.State() == BurnId(old(local.State()), id, Synced).0
    ensures id in old(local.inner) ==> r == Err(NonceReuse) && unchanged(peers)
  {
    var here := local.Prepare(id, Synced);
    if here == Ok(true) {
      return Err(NonceReuse);
    }
    var acks: seq<bool> := [];
    var i := 0;
    while i < |peers|
      invariant i <= |peers| == |peers|
      invariant |acks| == i
      invariant forall k :: 0 <= k < i ==> acks[k] == (id in old(peers[k].inner))
      invariant forall k :: 0 <= k < i ==> id in peers[k].inner
      invariant forall k :: i <= k < |peers| ==> peers[k].inner == old(peers[k].inner)
      invariant local.State() == BurnId(old(local.State()), id, Synced).0
      invariant id in local.inner
    {
      var seen := peers[i].Prepare(id, Synced);
      acks := acks + [seen.value];
      i := i + 1;
    }
    if true in acks {
      return Err(NonceReuse);
    }
    assert forall k :: 0 <= k < |peers| ==> !acks[k];
    if 1 + |acks| < ClaimQuorum(peerCount) {
      return Err(QuorumNotMet(1 + |acks|, ClaimQuorum(peerCount)));
    }
    return Ok(());
  }
}
