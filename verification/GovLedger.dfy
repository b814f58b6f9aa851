/**
 The governance ledger: an append-only hash chain written by the active set, and epoch advances
 voted by proposal.
 */
module GovLedger {
  import opened Wrappers
  import opened Text

  datatype Kind = Genesis | EpochAdvanced | VoteRecorded | DayAdvanced | ReshareCompleted | GovernanceRewardAccrued | ProfitAllocated

  datatype Entry = Entry(index: nat, epoch: nat, kind: Kind, payloadHash: string, writer: string, prev: string, hash: string)

  datatype Proposal = Proposal(id: string, from: nat, to: nat, terms: string, proposer: string, votes: seq<string>, closed: bool)

  /** What of the constitution the ledger uses: its hash, the group size and the governance threshold. */
  datatype Constitution = Constitution(hash: string, signingN: nat, governanceT: nat, valid: bool)

  datatype Epoch = Epoch(number: nat, terms: string, active: seq<string>)

  datatype Ledger = Ledger(constitution: Constitution, epoch: Epoch, entries: seq<Entry>, proposals: map<string, Proposal>)

  /** The text hash and the renderings, as functions. */
  datatype Env = Env(hash: string -> string, render: Proposal -> string, renderAdvance: (nat, string) -> string)

  const GENESIS_PREV: string := "genesis-prev"

  function KindName(k: Kind): string {
    match k
    case Genesis => "Genesis"
    case EpochAdvanced => "EpochAdvanced"
    case VoteRecorded => "VoteRecorded"
    case DayAdvanced => "DayAdvanced"
    case ReshareCompleted => "ReshareCompleted"
    case GovernanceRewardAccrued => "GovernanceRewardAccrued"
    case ProfitAllocated => "ProfitAllocated"
  }

  /** The text whose hash seals an entry: its fields with bars between them. */
  function Material(index: nat, epoch: nat, kind: Kind, payloadHash: string, writer: string, prev: string): string {
    Decimal(index) + "|" + (Decimal(epoch) + "|" + (KindName(kind) + "|" + (payloadHash + "|" + (writer + "|" + prev))))
  }

  function Chain(env: Env, index: nat, epoch: nat, kind: Kind, payload: string, writer: string, prev: string): Entry {
    var ph := env.hash(payload);
    Entry(index, epoch, kind, ph, writer, prev, env.hash(Material(index, epoch, kind, ph, writer, prev)))
  }

  function Open(env: Env, c: Constitution, active: seq<string>, writer: string, payload: string): Result<Ledger> {
    if !c.valid || |active| != c.signingN then Err(LedgerConflict)
    else Ok(Ledger(c, Epoch(0, c.hash, active), [Chain(env, 0, 0, Genesis, payload, writer, GENESIS_PREV)], map[]))
  }

  function Append(l: Ledger, e: Entry): (Ledger, Result<()>) {
    var n := |l.entries|;
    if n > 0 && e.index != l.entries[n - 1].index + 1 then (l, Err(LedgerConflict))
    else if n > 0 && e.prev != l.entries[n - 1].hash then (l, Err(LedgerConflict))
    else if n == 0 && e.index != 0 then (l, Err(LedgerConflict))
    else if e.writer !in l.epoch.active then (l, Err(UnauthorizedWriter))
    else (l.(entries := l.entries + [e]), Ok(()))
  }

  function HeadHash(l: Ledger): string {
    if l.entries == [] then GENESIS_PREV else l.entries[|l.entries| - 1].hash
  }

  // ---------- the chain ----------

  function MaterialOf(e: Entry): string {
    Material(e.index, e.epoch, e.kind, e.payloadHash, e.writer, e.prev)
  }

  /** The entry carries the hash of its fields, and its payload hash is one. */
  ghost predicate Sealed(env: Env, e: Entry) {
    e.hash == env.hash(MaterialOf(e)) && exists payload: string :: e.payloadHash == env.hash(payload)
  }

  lemma ChainSealed(env: Env, index: nat, epoch: nat, kind: Kind, payload: string, writer: string, prev: string)
    ensures Sealed(env, Chain(env, index, epoch, kind, payload, writer, prev))
  {
    hide Material;
    assert Chain(env, index, epoch, kind, payload, writer, prev).payloadHash == env.hash(payload);
  }

  /** Gap-free, hash-linked and sealed from its genesis on. */
  ghost predicate Linked(env: Env, entries: seq<Entry>) {
    && entries != [] && entries[0].prev == GENESIS_PREV
    && (forall i :: 0 <= i < |entries| ==> entries[i].index == i && Sealed(env, entries[i]))
    && (forall i :: 0 < i < |entries| ==> entries[i].prev == entries[i - 1].hash)
  }

  ghost predicate ActiveWriters(entries: seq<Entry>, active: seq<string>) {
    forall i :: 0 < i < |entries| ==> entries[i].writer in active
  }

  /** Writers read the head, read the length and append, each a step of its own, in any interleaving. */
  datatype Event =
    | ReadHead(thread: nat)
    | ReadLength(thread: nat)
    | Write(thread: nat, epoch: nat, kind: Kind, payload: string, writer: string)
    | SetNumber(number: nat)
    | Save(proposal: Proposal)

  datatype Race = Race(ledger: Ledger, heads: map<nat, string>, lengths: map<nat, nat>)

  function RaceStep(env: Env, r: Race, e: Event): Race {
    match e
    case ReadHead(t) => r.(heads := r.heads[t := HeadHash(r.ledger)])
    case ReadLength(t) => r.(lengths := r.lengths[t := |r.ledger.entries|])
    case Write(t, epoch, kind, payload, writer) =>
      if t !in r.heads || t !in r.lengths then r
      else r.(ledger := Append(r.ledger, Chain(env, r.lengths[t], epoch, kind, payload, writer, r.heads[t])).0)
    case SetNumber(n) => r.(ledger := r.ledger.(epoch := r.ledger.epoch.(number := n)))
    case Save(p) => r.(ledger := r.ledger.(proposals := r.ledger.proposals[p.id := p]))
  }

  function RaceRun(env: Env, l: Ledger, evs: seq<Event>): Race {
    if evs == [] then Race(l, map[], map[])
    else RaceStep(env, RaceRun(env, l, evs[..|evs| - 1]), evs[|evs| - 1])
  }

  ghost predicate Sound(env: Env, l: Ledger) {
    Linked(env, l.entries) && ActiveWriters(l.entries, l.epoch.active)
  }

  /** Appending a sealed entry, accepted or refused, keeps a sound ledger sound. */
  lemma AppendSound(env: Env, l: Ledger, e: Entry)
    requires Sound(env, l) && Sealed(env, e)
    ensures var l' := Append(l, e).0;
            Sound(env, l') && l.entries <= l'.entries && l' == l.(entries := l'.entries)
  {
    hide Sealed;
  }

  /**
   Under every interleaving of writers the ledger only grows, stays gap-free, hash-linked and
   sealed, and only active-set members write after genesis.
   */
  lemma {:induction false} ChainUnderRaces(env: Env, l: Ledger, evs: seq<Event>)
    requires Sound(env, l)
    ensures var l' := RaceRun(env, l, evs).ledger;
            Sound(env, l') && l.entries <= l'.entries && l'.epoch.active == l.epoch.active
  {
    hide Linked, ActiveWriters, Append;
    if evs != [] {
      var r := RaceRun(env, l, evs[..|evs| - 1]);
      ChainUnderRaces(env, l, evs[..|evs| - 1]);
      match evs[|evs| - 1]
      case Write(t, epoch, kind, payload, writer) =>
        if t in r.heads && t in r.lengths {
          ChainSealed(env, r.lengths[t], epoch, kind, payload, writer, r.heads[t]);
          AppendSound(env, r.ledger, Chain(env, r.lengths[t], epoch, kind, payload, writer, r.heads[t]));
        }
      case _ =>
    }
  }

  /** A new ledger: opened exactly for a valid constitution and an active set of its size, with one sealed genesis entry. */
  lemma OpenExact(env: Env, c: Constitution, active: seq<string>, writer: string, payload: string)
    ensures var r := Open(env, c, active, writer, payload);
            && (r.Ok? <==> c.valid && |active| == c.signingN) && (r.Err? ==> r.error == LedgerConflict)
            && (r.Ok? ==> Sound(env, r.value) && |r.value.entries| == 1 && r.value.entries[0].kind == Genesis)
            && (r.Ok? ==> r.value.epoch.number == 0 && r.value.epoch.active == active && r.value.constitution == c)
            && (r.Ok? ==> r.value.proposals == map[] && r.value.entries[0].payloadHash == env.hash(payload))
  {
    hide Material;
    ChainSealed(env, 0, 0, Genesis, payload, writer, GENESIS_PREV);
  }

  /** On a sound ledger exactly the next index with the last hash is appended, and only for an active writer. */
  lemma AppendExact(env: Env, l: Ledger, e: Entry)
    requires Sound(env, l)
    ensures var (l', r) := Append(l, e);
            var next := e.index == |l.entries| && e.prev == l.entries[|l.entries| - 1].hash;
            && (r.Ok? <==> next && e.writer in l.epoch.active)
            && (r.Err? ==> r.error == if next then UnauthorizedWriter else LedgerConflict)
            && l' == (if r.Ok? then l.(entries := l.entries + [e]) else l)
  {
    hide Sealed;
  }

  /** Of two writers that read the same ledger, at most one appends. */
  lemma StaleAppendRefused(env: Env, l: Ledger, first: Entry, second: Entry)
    requires first.index == second.index && Linked(env, l.entries)
    requires Append(l, first).1.Ok?
    ensures Append(Append(l, first).0, second).1 == Err(LedgerConflict)
  {
  }

  /** Hashes are printed without a bar, as hexadecimal digits are. */
  ghost predicate BarFree(env: Env) {
    forall t :: '|' !in env.hash(t)
  }

  lemma KindNames(k: Kind, k': Kind)
    ensures '|' !in KindName(k)
    ensures KindName(k) == KindName(k') ==> k == k'
  {
    assert |KindName(k)| == match k case Genesis => 7 case EpochAdvanced => 13 case VoteRecorded => 12
                            case DayAdvanced => 11 case ReshareCompleted => 16 case GovernanceRewardAccrued => 23
                            case ProfitAllocated => 15;
  }

  /** The sealed text fixes every field; the writer's id may hold any character, a bar included. */
  lemma MaterialInjective(a: Entry, b: Entry)
    requires '|' !in a.payloadHash && '|' !in b.payloadHash && '|' !in a.prev && '|' !in b.prev
    requires MaterialOf(a) == MaterialOf(b)
    ensures a.(hash := b.hash) == b
  {
    DecimalNoBar(a.index);
    DecimalNoBar(b.index);
    DecimalNoBar(a.epoch);
    DecimalNoBar(b.epoch);
    KindNames(a.kind, b.kind);
    KindNames(b.kind, a.kind);
    hide Decimal, KindName;
    var (wa, wb) := (a.writer + "|" + a.prev, b.writer + "|" + b.prev);
    var (pa, pb) := (a.payloadHash + "|" + wa, b.payloadHash + "|" + wb);
    var (ka, kb) := (KindName(a.kind) + "|" + pa, KindName(b.kind) + "|" + pb);
    FirstSplit(Decimal(a.index), Decimal(a.epoch) + "|" + ka, Decimal(b.index), Decimal(b.epoch) + "|" + kb, '|');
    FirstSplit(Decimal(a.epoch), ka, Decimal(b.epoch), kb, '|');
    FirstSplit(KindName(a.kind), pa, KindName(b.kind), pb, '|');
    FirstSplit(a.payloadHash, wa, b.payloadHash, wb, '|');
    LastSplit(a.writer, a.prev, b.writer, b.prev, '|');
    DecimalInjective(a.index, b.index);
    DecimalInjective(a.epoch, b.epoch);
  }

  /** The parts of a linked entry hold no bar. */
  lemma LinkedBars(env: Env, entries: seq<Entry>, i: nat)
    requires BarFree(env) && Linked(env, entries) && i < |entries|
    ensures '|' !in entries[i].payloadHash && '|' !in entries[i].prev
  {
    hide Material;
    assert Sealed(env, entries[i]);
    if i > 0 {
      assert Sealed(env, entries[i - 1]);
    }
  }

  /** Equal sealed texts at the ends of two ledgers mean equal last entries, so ledgers of one length. */
  lemma LastSealed(env: Env, a: seq<Entry>, b: seq<Entry>)
    requires BarFree(env) && Linked(env, a) && Linked(env, b)
    requires MaterialOf(a[|a| - 1]) == MaterialOf(b[|b| - 1]) && a[|a| - 1].hash == b[|b| - 1].hash
    ensures a[|a| - 1] == b[|b| - 1] && |a| == |b|
  {
    hide Material;
    LinkedBars(env, a, |a| - 1);
    LinkedBars(env, b, |b| - 1);
    MaterialInjective(a[|a| - 1], b[|b| - 1]);
  }

  /** Without its last entry a linked ledger is linked, with the head that entry names. */
  lemma LinkedInit(env: Env, a: seq<Entry>)
    requires Linked(env, a) && |a| > 1
    ensures Linked(env, a[..|a| - 1]) && a[..|a| - 1][|a| - 2].hash == a[|a| - 1].prev
  {
    hide Sealed;
  }

  lemma LastHash(env: Env, a: seq<Entry>)
    requires Linked(env, a)
    ensures a[|a| - 1].hash == env.hash(MaterialOf(a[|a| - 1]))
  {
    hide Material;
    assert Sealed(env, a[|a| - 1]);
  }

  /**
   The head commits to the whole history, with nothing assumed of the hash but that its digits hold no
   bar: two ledgers with equal heads are equal, or two different entry texts with one hash are in hand.
   */
  lemma {:induction false} HeadBindsHistory(env: Env, a: seq<Entry>, b: seq<Entry>) returns (x: string, y: string)
    requires BarFree(env) && Linked(env, a) && Linked(env, b)
    requires a[|a| - 1].hash == b[|b| - 1].hash
    ensures a == b || (x != y && env.hash(x) == env.hash(y))
    decreases |a|
  {
    var (ea, eb) := (a[|a| - 1], b[|b| - 1]);
    hide MaterialOf, Linked, BarFree;
    x, y := MaterialOf(ea), MaterialOf(eb);
    if x == y {
      LastSealed(env, a, b);
      if |a| > 1 {
        LinkedInit(env, a);
        LinkedInit(env, b);
        x, y := HeadBindsHistory(env, a[..|a| - 1], b[..|b| - 1]);
      }
      assert a == a[..|a| - 1] + [ea] && b == b[..|b| - 1] + [eb];
    } else {
      LastHash(env, a);
      LastHash(env, b);
    }
  }

  // ---------- proposals ----------

  function AppendEvent(env: Env, l: Ledger, epoch: nat, kind: Kind, payload: string, writer: string): (Ledger, Result<()>) {
    Append(l, Chain(env, |l.entries|, epoch, kind, payload, writer, HeadHash(l)))
  }

  function Propose(env: Env, l: Ledger, node: string, id: string): (Ledger, Result<Proposal>) {
    if node !in l.epoch.active then (l, Err(UnauthorizedWriter))
    else if id in l.proposals then (l, Err(LedgerConflict))
    else
      var p := Proposal(id, l.epoch.number, l.epoch.number + 1, l.constitution.hash, node, [node], false);
      var (l', r) := AppendEvent(env, l.(proposals := l.proposals[id := p]), l.epoch.number, VoteRecorded, env.render(p), node);
      (l', if r.Ok? then Ok(p) else Err(r.error))
  }

  function AddVote(p: Proposal, voter: string): Result<Proposal> {
    if p.closed then Err(ProposalClosed)
    else if voter in p.votes then Ok(p)
    else Ok(p.(votes := p.votes + [voter]))
  }

  /** The reading half of a vote: the proposal as it stands, with this voter's vote added. */
  function ReadVote(l: Ledger, node: string, id: string): Result<Proposal> {
    if node !in l.epoch.active then Err(UnauthorizedWriter)
    else if id !in l.proposals then Err(UnknownProposal)
    else if l.proposals[id].from != l.epoch.number then Err(EpochMismatch)
    else if l.proposals[id].terms != l.constitution.hash then Err(LedgerConflict)
    else AddVote(l.proposals[id], node)
  }

  function AdvanceEpoch(env: Env, l: Ledger, node: string, p: Proposal): (Ledger, Result<()>) {
    AppendEvent(env, l.(epoch := l.epoch.(number := p.to)), p.to, EpochAdvanced, env.renderAdvance(p.to, p.terms), node)
  }

  /** The writing half: save and record the vote, and with enough votes close the proposal and advance. */
  function WriteVote(env: Env, l: Ledger, node: string, number: nat, p: Proposal): (Ledger, Result<Proposal>) {
    var (l1, r1) := AppendEvent(env, l.(proposals := l.proposals[p.id := p]), number, VoteRecorded, env.render(p), node);
    if r1.Err? then (l1, Err(r1.error))
    else if |p.votes| < l.constitution.governanceT then (l1, Ok(p))
    else
      var q := p.(closed := true);
      var (l2, r2) := AdvanceEpoch(env, l1.(proposals := l1.proposals[q.id := q]), node, q);
      (l2, if r2.Ok? then Ok(q) else Err(r2.error))
  }

  function Vote(env: Env, l: Ledger, node: string, id: string): (Ledger, Result<Proposal>) {
    match ReadVote(l, node, id)
    case Err(e) => (l, Err(e))
    case Ok(p) => WriteVote(env, l, node, l.epoch.number, p)
  }

  // ---------- sequential runs ----------

  datatype Op = DoPropose(node: string, id: string) | DoVote(node: string, id: string)

  function OpStep(env: Env, l: Ledger, op: Op): Ledger {
    match op
    case DoPropose(node, id) => Propose(env, l, node, id).0
    case DoVote(node, id) => Vote(env, l, node, id).0
  }

  function OpRun(env: Env, l: Ledger, ops: seq<Op>): Ledger {
    if ops == [] then l else OpStep(env, OpRun(env, l, ops[..|ops| - 1]), ops[|ops| - 1])
  }

  /** The epochs the EpochAdvanced entries announce, in order. */
  function Announced(entries: seq<Entry>): seq<nat> {
    if entries == [] then []
    else
      var e := entries[|entries| - 1];
      var before := Announced(entries[..|entries| - 1]);
      if e.kind.EpochAdvanced? then before + [e.epoch] else before
  }

  ghost predicate NoDup(s: seq<string>) {
    forall i, j :: 0 <= i < j < |s| ==> s[i] != s[j]
  }

  ghost predicate ProposalInv(l: Ledger, id: string)
    requires id in l.proposals
  {
    var p := l.proposals[id];
    && p.id == id && p.to == p.from + 1 && p.from <= l.epoch.number && p.terms == l.constitution.hash
    && NoDup(p.votes) && p.proposer in p.votes && (forall v :: v in p.votes ==> v in l.epoch.active)
    && (p.closed ==> p.from < l.epoch.number && |p.votes| >= l.constitution.governanceT)
  }

  /** The proposal that advanced an epoch. */
  ghost predicate Advanced(l: Ledger, id: string, from: nat) {
    id in l.proposals && l.proposals[id].closed && l.proposals[id].from == from
  }

  ghost predicate AdvancedBySome(l: Ledger, from: nat) {
    exists id :: Advanced(l, id, from)
  }

  ghost predicate AdvancesInv(l: Ledger) {
    && (forall k: nat :: k < l.epoch.number ==> AdvancedBySome(l, k))
    && (forall a, b, k :: Advanced(l, a, k) && Advanced(l, b, k) ==> a == b)
  }

  ghost predicate NumberInv(l: Ledger) {
    Announced(l.entries) == seq(l.epoch.number, (i: nat) => i + 1)
  }

  ghost predicate GovInv(env: Env, l: Ledger) {
    && Sound(env, l)
    && (forall id :: id in l.proposals ==> ProposalInv(l, id))
    && AdvancesInv(l) && NumberInv(l)
  }

  /** A fresh read always appends: an active writer's event goes to the end of a sound ledger. */
  lemma FreshAppend(env: Env, l: Ledger, epoch: nat, kind: Kind, payload: string, writer: string)
    requires Sound(env, l) && writer in l.epoch.active
    ensures var (l', r) := AppendEvent(env, l, epoch, kind, payload, writer);
            && r.Ok? && l' == l.(entries := l'.entries) && Sound(env, l')
            && Announced(l'.entries) == Announced(l.entries) + (if kind.EpochAdvanced? then [epoch] else [])
  {
    var e := Chain(env, |l.entries|, epoch, kind, payload, writer, HeadHash(l));
    ChainSealed(env, |l.entries|, epoch, kind, payload, writer, HeadHash(l));
    AppendSound(env, l, e);
    assert (l.entries + [e])[..|l.entries|] == l.entries;
  }

  lemma ProposeInv(env: Env, l: Ledger, node: string, id: string)
    requires GovInv(env, l)
    ensures GovInv(env, Propose(env, l, node, id).0)
  {
    hide AppendEvent, Announced, Linked, ActiveWriters;
    if node in l.epoch.active && id !in l.proposals {
      var p := Proposal(id, l.epoch.number, l.epoch.number + 1, l.constitution.hash, node, [node], false);
      var l1 := l.(proposals := l.proposals[id := p]);
      FreshAppend(env, l1, l.epoch.number, VoteRecorded, env.render(p), node);
      forall k: nat | k < l.epoch.number ensures AdvancedBySome(Propose(env, l, node, id).0, k) {
        assert AdvancedBySome(l, k);
        var a :| Advanced(l, a, k);
        assert Advanced(Propose(env, l, node, id).0, a, k);
      }
      forall a, b, k | Advanced(Propose(env, l, node, id).0, a, k) && Advanced(Propose(env, l, node, id).0, b, k) ensures a == b {
        assert Advanced(l, a, k) && Advanced(l, b, k);
      }
    }
  }

  /** One more vote keeps the voters distinct and active. */
  lemma VotedProposal(l: Ledger, node: string, id: string)
    requires (forall i :: i in l.proposals ==> ProposalInv(l, i)) && ReadVote(l, node, id).Ok?
    ensures var p := ReadVote(l, node, id).value;
            && id in l.proposals && p == l.proposals[id].(votes := p.votes) && p.id == id && p.from == l.epoch.number && !p.closed
            && NoDup(p.votes) && p.proposer in p.votes && (forall v :: v in p.votes ==> v in l.epoch.active)
            && (forall v :: v in p.votes <==> v in l.proposals[id].votes || v == node)
  {
    assert ProposalInv(l, id);
  }

  /** What a vote that can be read does. */
  lemma VoteEffect(env: Env, l: Ledger, node: string, id: string)
    requires Sound(env, l) && (forall i :: i in l.proposals ==> ProposalInv(l, i)) && ReadVote(l, node, id).Ok?
    ensures var p := ReadVote(l, node, id).value;
            var (l', r) := Vote(env, l, node, id);
            var closes := |p.votes| >= l.constitution.governanceT;
            var q := if closes then p.(closed := true) else p;
            && r == Ok(q) && Sound(env, l') && l'.constitution == l.constitution
            && l'.proposals == l.proposals[id := q]
            && l'.epoch == l.epoch.(number := if closes then l.epoch.number + 1 else l.epoch.number)
            && Announced(l'.entries) == Announced(l.entries) + (if closes then [l.epoch.number + 1] else [])
  {
    hide AppendEvent, Announced, Linked, ActiveWriters, NoDup;
    VotedProposal(l, node, id);
    assert ProposalInv(l, id);
    var p := ReadVote(l, node, id).value;
    var l0 := l.(proposals := l.proposals[id := p]);
    FreshAppend(env, l0, l.epoch.number, VoteRecorded, env.render(p), node);
    var l1 := AppendEvent(env, l0, l.epoch.number, VoteRecorded, env.render(p), node).0;
    if |p.votes| >= l.constitution.governanceT {
      var q := p.(closed := true);
      var l2 := l1.(proposals := l1.proposals[id := q]).(epoch := l1.epoch.(number := q.to));
      FreshAppend(env, l2, q.to, EpochAdvanced, env.renderAdvance(q.to, q.terms), node);
      assert l1.proposals[id := q] == l.proposals[id := q];
    }
  }

  /** What an accepted event leaves at the end of the ledger. */
  ghost predicate Records(env: Env, e: Entry, kind: Kind, epoch: nat, writer: string, payload: string) {
    e.kind == kind && e.epoch == epoch && e.writer == writer && e.payloadHash == env.hash(payload)
  }

  lemma EventEntry(env: Env, l: Ledger, epoch: nat, kind: Kind, payload: string, writer: string)
    requires Sound(env, l) && writer in l.epoch.active
    ensures var l' := AppendEvent(env, l, epoch, kind, payload, writer).0;
            |l'.entries| == |l.entries| + 1 && l'.entries[..|l.entries|] == l.entries
            && Records(env, l'.entries[|l.entries|], kind, epoch, writer, payload)
  {
    hide Material;
  }

  /**
   A proposal is accepted exactly from an active member with a new id: it starts from the current epoch
   with its proposer's vote, is stored, and one VoteRecorded entry by the proposer tells of it.
   */
  lemma ProposeExact(env: Env, l: Ledger, node: string, id: string)
    requires Sound(env, l)
    ensures var (l', r) := Propose(env, l, node, id);
            var p := Proposal(id, l.epoch.number, l.epoch.number + 1, l.constitution.hash, node, [node], false);
            && (r.Ok? <==> node in l.epoch.active && id !in l.proposals)
            && (r.Err? ==> l' == l && r.error == if node !in l.epoch.active then UnauthorizedWriter else LedgerConflict)
            && (r.Ok? ==> r.value == p && l'.proposals == l.proposals[id := p])
            && (r.Ok? ==> l'.epoch == l.epoch && l'.constitution == l.constitution)
            && (r.Ok? ==> |l'.entries| == |l.entries| + 1 && l'.entries[..|l.entries|] == l.entries)
            && (r.Ok? ==> Records(env, l'.entries[|l.entries|], VoteRecorded, l.epoch.number, node, env.render(p)))
  {
    hide AppendEvent, Linked, ActiveWriters, Announced, Records;
    if node in l.epoch.active && id !in l.proposals {
      var p := Proposal(id, l.epoch.number, l.epoch.number + 1, l.constitution.hash, node, [node], false);
      var l1 := l.(proposals := l.proposals[id := p]);
      FreshAppend(env, l1, l.epoch.number, VoteRecorded, env.render(p), node);
      EventEntry(env, l1, l.epoch.number, VoteRecorded, env.render(p), node);
    }
  }

  /** When a vote is accepted, and what a refusal answers. */
  lemma VoteAccepted(env: Env, l: Ledger, node: string, id: string)
    requires Sound(env, l) && forall i :: i in l.proposals ==> ProposalInv(l, i)
    ensures var (l', r) := Vote(env, l, node, id);
            && (r.Ok? <==> node in l.epoch.active && id in l.proposals && l.proposals[id].from == l.epoch.number)
            && (r.Err? ==> l' == l && r.error == if node !in l.epoch.active then UnauthorizedWriter
                                                 else if id !in l.proposals then UnknownProposal else EpochMismatch)
  {
    hide AppendEvent, Linked, ActiveWriters, Announced, NoDup, WriteVote;
    if id in l.proposals {
      assert ProposalInv(l, id);
    }
    if ReadVote(l, node, id).Ok? {
      VoteEffect(env, l, node, id);
    }
  }

  /** An accepted vote adds one VoteRecorded entry of the voter, and one EpochAdvanced entry when it closes the proposal. */
  lemma VoteEntries(env: Env, l: Ledger, node: string, id: string)
    requires Sound(env, l) && (forall i :: i in l.proposals ==> ProposalInv(l, i)) && ReadVote(l, node, id).Ok?
    ensures var p := ReadVote(l, node, id).value;
            var l' := Vote(env, l, node, id).0;
            var closes := |p.votes| >= l.constitution.governanceT;
            var n := |l.entries|;
            && |l'.entries| == n + (if closes then 2 else 1) && l'.entries[..n] == l.entries
            && Records(env, l'.entries[n], VoteRecorded, l.epoch.number, node, env.render(p))
            && (closes ==> Records(env, l'.entries[n + 1], EpochAdvanced, l.epoch.number + 1, node,
                                   env.renderAdvance(l.epoch.number + 1, l.constitution.hash)))
  {
    hide AppendEvent, Announced, Linked, ActiveWriters, NoDup, Records;
    VotedProposal(l, node, id);
    assert ProposalInv(l, id);
    var p := ReadVote(l, node, id).value;
    var l0 := l.(proposals := l.proposals[id := p]);
    FreshAppend(env, l0, l.epoch.number, VoteRecorded, env.render(p), node);
    EventEntry(env, l0, l.epoch.number, VoteRecorded, env.render(p), node);
    var l1 := AppendEvent(env, l0, l.epoch.number, VoteRecorded, env.render(p), node).0;
    if |p.votes| >= l.constitution.governanceT {
      var q := p.(closed := true);
      var l2 := l1.(proposals := l1.proposals[id := q]).(epoch := l1.epoch.(number := q.to));
      EventEntry(env, l2, q.to, EpochAdvanced, env.renderAdvance(q.to, q.terms), node);
    }
  }

  lemma VoteInv(env: Env, l: Ledger, node: string, id: string)
    requires GovInv(env, l)
    ensures GovInv(env, Vote(env, l, node, id).0)
  {
    if ReadVote(l, node, id).Ok? {
      VoteEffect(env, l, node, id);
      VotedProposal(l, node, id);
      VoteAdvances(l, node, id, Vote(env, l, node, id).0);
    }
  }

  /** The proposals and the epoch after a vote. */
  lemma VoteAdvances(l: Ledger, node: string, id: string, l': Ledger)
    requires (forall i :: i in l.proposals ==> ProposalInv(l, i)) && AdvancesInv(l) && NumberInv(l)
    requires ReadVote(l, node, id).Ok?
    requires var p := ReadVote(l, node, id).value;
             var closes := |p.votes| >= l.constitution.governanceT;
             && l'.proposals == l.proposals[id := if closes then p.(closed := true) else p]
             && l'.epoch == l.epoch.(number := if closes then l.epoch.number + 1 else l.epoch.number)
             && l'.constitution == l.constitution
             && Announced(l'.entries) == Announced(l.entries) + (if closes then [l.epoch.number + 1] else [])
    ensures (forall i :: i in l'.proposals ==> ProposalInv(l', i)) && AdvancesInv(l') && NumberInv(l')
  {
    hide Announced, ReadVote, NoDup;
    VotedProposal(l, node, id);
    assert ProposalInv(l, id);
    forall i | i in l'.proposals ensures ProposalInv(l', i) {
      if i != id {
        assert ProposalInv(l, i);
      }
    }
    forall a | a in l.proposals && l.proposals[a].closed ensures l.proposals[a].from < l.epoch.number {
      assert ProposalInv(l, a);
    }
    forall k: nat | k < l'.epoch.number ensures AdvancedBySome(l', k) {
      if k < l.epoch.number {
        assert AdvancedBySome(l, k);
        var a :| Advanced(l, a, k);
        assert Advanced(l', a, k);
      } else {
        assert Advanced(l', id, k);
      }
    }
    forall a, b, k | Advanced(l', a, k) && Advanced(l', b, k) ensures a == b {
      if a != id && b != id {
        assert Advanced(l, a, k) && Advanced(l, b, k);
      }
    }
  }

  /** A ledger as genesis leaves it. */
  ghost predicate Opened(env: Env, l: Ledger) {
    exists c, active, writer, payload :: Open(env, c, active, writer, payload) == Ok(l)
  }

  lemma {:induction false} OpRunInv(env: Env, l: Ledger, ops: seq<Op>)
    requires Opened(env, l)
    ensures GovInv(env, OpRun(env, l, ops))
  {
    hide Propose, Vote, Linked, ActiveWriters;
    if ops == [] {
      OpenInv(env, l);
    } else {
      hide GovInv;
      var before := OpRun(env, l, ops[..|ops| - 1]);
      OpRunInv(env, l, ops[..|ops| - 1]);
      match ops[|ops| - 1]
      case DoPropose(node, id) => ProposeInv(env, before, node, id);
      case DoVote(node, id) => VoteInv(env, before, node, id);
    }
  }

  lemma OpenInv(env: Env, l: Ledger)
    requires Opened(env, l)
    ensures GovInv(env, l)
  {
    assert l.entries[..0] == [];
    assert Announced(l.entries) == [];
  }

  /** In sequential runs the epoch number counts the EpochAdvanced entries, which announce 1, 2, 3 and so on. */
  lemma EpochCountsAdvances(env: Env, l: Ledger, ops: seq<Op>)
    requires Opened(env, l)
    ensures var l' := OpRun(env, l, ops);
            Announced(l'.entries) == seq(l'.epoch.number, (i: nat) => i + 1)
  {
    hide OpRun, Announced;
    OpRunInv(env, l, ops);
  }

  function CountVotes(entries: seq<Entry>): nat {
    if entries == [] then 0
    else CountVotes(entries[..|entries| - 1]) + if entries[|entries| - 1].kind.VoteRecorded? then 1 else 0
  }

  /** How many operations of a run were answered with Ok. */
  function Accepted(env: Env, l: Ledger, ops: seq<Op>): nat {
    if ops == [] then 0
    else
      var before := OpRun(env, l, ops[..|ops| - 1]);
      var ok := match ops[|ops| - 1]
        case DoPropose(node, id) => Propose(env, before, node, id).1.Ok?
        case DoVote(node, id) => Vote(env, before, node, id).1.Ok?;
      Accepted(env, l, ops[..|ops| - 1]) + if ok then 1 else 0
  }

  lemma CountOne(before: seq<Entry>, after: seq<Entry>)
    requires |after| == |before| + 1 && after[..|before|] == before
    ensures CountVotes(after) == CountVotes(before) + if after[|before|].kind.VoteRecorded? then 1 else 0
  {
  }

  lemma OpCounts(env: Env, l: Ledger, op: Op)
    requires GovInv(env, l)
    ensures var ok := match op
              case DoPropose(node, id) => Propose(env, l, node, id).1.Ok?
              case DoVote(node, id) => Vote(env, l, node, id).1.Ok?;
            CountVotes(OpStep(env, l, op).entries) == CountVotes(l.entries) + if ok then 1 else 0
  {
    hide Propose, Vote, ReadVote, CountVotes, Sound, ProposalInv;
    var l' := OpStep(env, l, op);
    match op
    case DoPropose(node, id) =>
      ProposeExact(env, l, node, id);
      if Propose(env, l, node, id).1.Ok? {
        CountOne(l.entries, l'.entries);
      }
    case DoVote(node, id) =>
      VoteAccepted(env, l, node, id);
      if Vote(env, l, node, id).1.Ok? {
        VoteReadable(env, l, node, id);
        VoteEntries(env, l, node, id);
        var n := |l.entries|;
        CountOne(l.entries, l'.entries[..n + 1]);
        if |l'.entries| == n + 2 {
          CountOne(l'.entries[..n + 1], l'.entries);
        } else {
          assert l'.entries[..n + 1] == l'.entries;
        }
      }
  }

  lemma VoteReadable(env: Env, l: Ledger, node: string, id: string)
    requires Vote(env, l, node, id).1.Ok?
    ensures ReadVote(l, node, id).Ok?
  {
    hide WriteVote;
  }

  /** In sequential runs the ledger holds one VoteRecorded entry for every accepted proposal and vote, and no other. */
  lemma {:induction false} VotesRecorded(env: Env, l: Ledger, ops: seq<Op>)
    requires Opened(env, l)
    ensures CountVotes(OpRun(env, l, ops).entries) == Accepted(env, l, ops)
  {
    hide Propose, Vote, GovInv;
    if ops == [] {
      assert l.entries[..0] == [] && CountVotes([]) == 0;
    } else {
      VotesRecorded(env, l, ops[..|ops| - 1]);
      OpRunInv(env, l, ops[..|ops| - 1]);
      OpCounts(env, OpRun(env, l, ops[..|ops| - 1]), ops[|ops| - 1]);
    }
  }

  /**
   In sequential runs every epoch below the current one was advanced by exactly one proposal, which
   at least `governance_t` distinct active members voted for.
   */
  lemma OneProposalPerAdvance(env: Env, l: Ledger, ops: seq<Op>, from: nat) returns (id: string)
    requires Opened(env, l) && from < OpRun(env, l, ops).epoch.number
    ensures var l' := OpRun(env, l, ops);
            && Advanced(l', id, from)
            && (forall other :: Advanced(l', other, from) ==> other == id)
            && var p := l'.proposals[id];
               && p.to == from + 1 && NoDup(p.votes) && |p.votes| >= l'.constitution.governanceT
               && p.proposer in p.votes && (forall v :: v in p.votes ==> v in l'.epoch.active)
  {
    hide OpRun, Linked, ActiveWriters, NoDup, Advanced;
    var l' := OpRun(env, l, ops);
    OpRunInv(env, l, ops);
    assert AdvancedBySome(l', from);
    id :| Advanced(l', id, from);
    AdvancedIn(l', id, from);
    assert ProposalInv(l', id);
  }

  lemma AdvancedIn(l: Ledger, id: string, from: nat)
    requires Advanced(l, id, from)
    ensures id in l.proposals && l.proposals[id].closed && l.proposals[id].from == from
  {
  }

  /** In sequential runs a vote for a closed proposal is an epoch mismatch; ProposalClosed is never answered. */
  lemma ClosedIsMismatch(env: Env, l: Ledger, ops: seq<Op>, node: string, id: string)
    requires Opened(env, l)
    ensures var l' := OpRun(env, l, ops);
            && Vote(env, l', node, id).1 != Err(ProposalClosed)
            && (node in l'.epoch.active && id in l'.proposals && l'.proposals[id].closed ==>
                  Vote(env, l', node, id) == (l', Err(EpochMismatch)))
  {
    hide OpRun, Linked, ActiveWriters, AppendEvent, NoDup;
    var l' := OpRun(env, l, ops);
    OpRunInv(env, l, ops);
    if ReadVote(l', node, id).Ok? {
      VoteEffect(env, l', node, id);
    } else if id in l'.proposals {
      assert ProposalInv(l', id);
    }
  }

  /**
   Why the runs must be sequential: when two members read the same proposal and each one's vote would
   close it, both halves then written in turn advance the number once but announce the epoch twice.
   */
  lemma RacingVotesAnnounceTwice(env: Env, l: Ledger, a: string, b: string, id: string)
    requires Sound(env, l) && (forall i :: i in l.proposals ==> ProposalInv(l, i))
    requires ReadVote(l, a, id).Ok? && ReadVote(l, b, id).Ok?
    requires |ReadVote(l, a, id).value.votes| >= l.constitution.governanceT
    requires |ReadVote(l, b, id).value.votes| >= l.constitution.governanceT
    ensures var first := WriteVote(env, l, a, l.epoch.number, ReadVote(l, a, id).value).0;
            var second := WriteVote(env, first, b, l.epoch.number, ReadVote(l, b, id).value).0;
            && second.epoch.number == l.epoch.number + 1
            && Announced(second.entries) == Announced(l.entries) + [l.epoch.number + 1, l.epoch.number + 1]
  {
    hide AppendEvent, Announced, Linked, ActiveWriters, NoDup;
    VoteEffect(env, l, a, id);
    VotedProposal(l, b, id);
    assert ProposalInv(l, id);
    var first := WriteVote(env, l, a, l.epoch.number, ReadVote(l, a, id).value).0;
    var p := ReadVote(l, b, id).value;
    var l0 := first.(proposals := first.proposals[id := p]);
    FreshAppend(env, l0, l.epoch.number, VoteRecorded, env.render(p), b);
    var l1 := AppendEvent(env, l0, l.epoch.number, VoteRecorded, env.render(p), b).0;
    var q := p.(closed := true);
    FreshAppend(env, l1.(proposals := l1.proposals[id := q]).(epoch := l1.epoch.(number := q.to)),
                q.to, EpochAdvanced, env.renderAdvance(q.to, q.terms), b);
  }

  // ---------- the ledger and its services as the source writes them ----------

  class InMemoryLedger {
    const constitution: Constitution
    var epoch: Epoch
    var entries: seq<Entry>
    var proposals: map<string, Proposal>

    ghost function State(): Ledger
      reads this
    {
      Ledger(constitution, epoch, entries, proposals)
    }

    constructor (env: Env, c: Constitution, active: seq<string>, writer: string, payload: string)
      requires Open(env, c, active, writer, payload).Ok?
      ensures Ok(State()) == Open(env, c, active, writer, payload)
    {
      constitution, epoch, proposals := c, Epoch(0, c.hash, active), map[];
      entries := [Chain(env, 0, 0, Genesis, payload, writer, GENESIS_PREV)];
    }

    /** Hash of the last entry. */
    method Head() returns (hash: string)
      ensures hash == HeadHash(State())
    {
      if entries == [] {
        return GENESIS_PREV;
      }
      return entries[|entries| - 1].hash;
    }

    method AppendEntry(e: Entry) returns (r: Result<()>)
      modifies this`entries
      ensures (State(), r) == Append(old(State()), e)
    {
      if entries != [] {
        var last := entries[|entries| - 1];
        if e.index != last.index + 1 {
          return Err(LedgerConflict);
        }
        if e.prev != last.hash {
          return Err(LedgerConflict);
        }
      } else if e.index != 0 {
        return Err(LedgerConflict);
      }
      if e.writer !in epoch.active {
        return Err(UnauthorizedWriter);
      }
      entries := entries + [e];
      return Ok(());
    }

    method SetEpoch(e: Epoch)
      modifies this`epoch
      ensures State() == old(State()).(epoch := e)
    {
      epoch := e;
    }

    method PutProposal(p: Proposal) returns (r: Result<()>)
      modifies this`proposals
      ensures r == if p.id in old(proposals) then Err(LedgerConflict) else Ok(())
      ensures State() == if r.Ok? then old(State()).(proposals := old(proposals)[p.id := p]) else old(State())
    {
      if p.id in proposals {
        return Err(LedgerConflict);
      }
      proposals := proposals[p.id := p];
      return Ok(());
    }

    method SaveProposal(p: Proposal)
      modifies this`proposals
      ensures State() == old(State()).(proposals := old(proposals)[p.id := p])
    {
      proposals := proposals[p.id := p];
    }

    /** Read the head, read the length, append at the end. */
    method AppendFresh(env: Env, number: nat, kind: Kind, payload: string, writer: string) returns (r: Result<()>)
      modifies this`entries
      ensures (State(), r) == AppendEvent(env, old(State()), number, kind, payload, writer)
    {
      var prev := Head();
      r := AppendEntry(Chain(env, |entries|, number, kind, payload, writer, prev));
    }
  }

  method ProposeEpochAdvance(env: Env, ledger: InMemoryLedger, node: string, id: string) returns (r: Result<Proposal>)
    modifies ledger
    ensures (ledger.State(), r) == Propose(env, old(ledger.State()), node, id)
  {
    hide Append;
    if node !in ledger.epoch.active {
      return Err(UnauthorizedWriter);
    }
    var number := ledger.epoch.number;
    var p := Proposal(id, number, number + 1, ledger.constitution.hash, node, [node], false);
    var put := ledger.PutProposal(p);
    if put.Err? {
      return Err(put.error);
    }
    var done := ledger.AppendFresh(env, number, VoteRecorded, env.render(p), node);
    return if done.Ok? then Ok(p) else Err(done.error);
  }

  method VoteEpochAdvance(env: Env, ledger: InMemoryLedger, node: string, id: string) returns (r: Result<Proposal>)
    modifies ledger
    ensures (ledger.State(), r) == Vote(env, old(ledger.State()), node, id)
  {
    hide Append;
    var number := ledger.epoch.number;
    if node !in ledger.epoch.active {
      return Err(UnauthorizedWriter);
    }
    if id !in ledger.proposals {
      return Err(UnknownProposal);
    }
    var p := ledger.proposals[id];
    if p.from != number {
      return Err(EpochMismatch);
    }
    if p.terms != ledger.constitution.hash {
      return Err(LedgerConflict);
    }
    if p.closed {
      return Err(ProposalClosed);
    }
    if node !in p.votes {
      p := p.(votes := p.votes + [node]);
    }
    ledger.SaveProposal(p);
    var done := ledger.AppendFresh(env, number, VoteRecorded, env.render(p), node);
    if done.Err? {
      return Err(done.error);
    }
    if |p.votes| >= ledger.constitution.governanceT {
      p := p.(closed := true);
      ledger.SaveProposal(p);
      done := AdvanceEpochNumber(env, ledger, node, p);
      if done.Err? {
        return Err(done.error);
      }
    }
    return Ok(p);
  }

  method AdvanceEpochNumber(env: Env, ledger: InMemoryLedger, node: string, p: Proposal) returns (r: Result<()>)
    modifies ledger
    ensures (ledger.State(), r) == AdvanceEpoch(env, old(ledger.State()), node, p)
  {
    hide Append;
    ledger.SetEpoch(ledger.epoch.(number := p.to));
    r := ledger.AppendFresh(env, p.to, EpochAdvanced, env.renderAdvance(p.to, p.terms), node);
  }
}
