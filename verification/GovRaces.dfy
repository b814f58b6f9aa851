/**
 Votes whose reading and writing halves interleave: exactly which interleavings announce every epoch once.
 */
module GovRaces {
  import opened Wrappers
  import opened GovLedger

  /** A vote that has been read: by whom, at which epoch number, and the proposal with the vote added. */
  datatype Pending = Pending(node: string, number: nat, proposal: Proposal)

  datatype Event =
    | ProposeAt(node: string, id: string)
    | ReadAt(thread: nat, node: string, id: string)
    | WriteAt(thread: nat)

  /** `stale`: some write closed its proposal although the epoch number was no longer the one it had read. */
  datatype Split = Split(ledger: Ledger, open: map<nat, Pending>, stale: bool)

  predicate Closes(l: Ledger, p: Proposal) {
    |p.votes| >= l.constitution.governanceT
  }

  function SplitStep(env: Env, s: Split, e: Event): Split {
    match e
    case ProposeAt(node, id) => s.(ledger := Propose(env, s.ledger, node, id).0)
    case ReadAt(t, node, id) =>
      (match ReadVote(s.ledger, node, id)
       case Err(_) => s
       case Ok(p) => s.(open := s.open[t := Pending(node, s.ledger.epoch.number, p)]))
    case WriteAt(t) =>
      if t !in s.open then s
      else
        var r := s.open[t];
        Split(WriteVote(env, s.ledger, r.node, r.number, r.proposal).0, s.open - {t},
              s.stale || (Closes(s.ledger, r.proposal) && s.ledger.epoch.number != r.number))
  }

  function SplitRun(env: Env, l: Ledger, evs: seq<Event>): Split {
    if evs == [] then Split(l, map[], false)
    else SplitStep(env, SplitRun(env, l, evs[..|evs| - 1]), evs[|evs| - 1])
  }

  ghost predicate Distinct(s: seq<nat>) {
    forall i, j :: 0 <= i < j < |s| ==> s[i] != s[j]
  }

  predicate OneStep(p: Proposal) {
    p.to == p.from + 1
  }

  ghost predicate ReadInv(l: Ledger, r: Pending) {
    r.node in l.epoch.active && OneStep(r.proposal) && r.number == r.proposal.from
  }

  ghost predicate SplitInv(env: Env, s: Split) {
    && Sound(env, s.ledger)
    && (forall id :: id in s.ledger.proposals ==> OneStep(s.ledger.proposals[id]))
    && (forall t :: t in s.open ==> ReadInv(s.ledger, s.open[t]))
    && (!s.stale ==> NumberInv(s.ledger) && forall t :: t in s.open ==> s.open[t].number <= s.ledger.epoch.number)
    && (s.stale ==> !Distinct(Announced(s.ledger.entries)))
  }

  /** What writing a read vote does, however old the read is. */
  lemma WriteEffect(env: Env, l: Ledger, node: string, number: nat, p: Proposal)
    requires Sound(env, l) && node in l.epoch.active
    ensures var l' := WriteVote(env, l, node, number, p).0;
            && Sound(env, l') && l'.constitution == l.constitution
            && l'.proposals == l.proposals[p.id := if Closes(l, p) then p.(closed := true) else p]
            && l'.epoch == l.epoch.(number := if Closes(l, p) then p.to else l.epoch.number)
            && Announced(l'.entries) == Announced(l.entries) + (if Closes(l, p) then [p.to] else [])
  {
    hide AppendEvent, Announced, Linked, ActiveWriters;
    var l0 := l.(proposals := l.proposals[p.id := p]);
    FreshAppend(env, l0, number, VoteRecorded, env.render(p), node);
    var l1 := AppendEvent(env, l0, number, VoteRecorded, env.render(p), node).0;
    if Closes(l, p) {
      var q := p.(closed := true);
      var l2 := l1.(proposals := l1.proposals[q.id := q]).(epoch := l1.epoch.(number := q.to));
      FreshAppend(env, l2, q.to, EpochAdvanced, env.renderAdvance(q.to, q.terms), node);
      assert l1.proposals[q.id := q] == l.proposals[q.id := q];
    }
  }

  lemma ProposeEffect(env: Env, l: Ledger, node: string, id: string)
    requires Sound(env, l) && forall i :: i in l.proposals ==> OneStep(l.proposals[i])
    ensures var l' := Propose(env, l, node, id).0;
            && Sound(env, l') && l'.epoch == l.epoch && Announced(l'.entries) == Announced(l.entries)
            && (forall i :: i in l'.proposals ==> OneStep(l'.proposals[i]))
  {
    hide AppendEvent, Announced, Linked, ActiveWriters;
    if node in l.epoch.active && id !in l.proposals {
      var p := Proposal(id, l.epoch.number, l.epoch.number + 1, l.constitution.hash, node, [node], false);
      FreshAppend(env, l.(proposals := l.proposals[id := p]), l.epoch.number, VoteRecorded, env.render(p), node);
    }
  }

  /** Announcing the next epoch keeps the count; announcing a past one repeats it. */
  lemma AnnounceNext(before: seq<nat>, number: nat, to: nat)
    requires before == seq(number, (i: nat) => i + 1) && 1 <= to <= number + 1
    ensures to == number + 1 ==> before + [to] == seq(number + 1, (i: nat) => i + 1)
    ensures to <= number ==> !Distinct(before + [to])
  {
    if to <= number {
      var after := before + [to];
      assert after[to - 1] == to && after[number] == to;
    }
  }

  lemma StillRepeats(before: seq<nat>, more: seq<nat>)
    requires !Distinct(before)
    ensures !Distinct(before + more)
  {
    var i, j :| 0 <= i < j < |before| && before[i] == before[j];
    assert (before + more)[i] == (before + more)[j];
  }

  lemma CountDistinct(s: seq<nat>, number: nat)
    requires s == seq(number, (i: nat) => i + 1)
    ensures Distinct(s)
  {
  }

  lemma WriteInv(env: Env, s: Split, t: nat)
    requires SplitInv(env, s) && t in s.open
    ensures SplitInv(env, SplitStep(env, s, WriteAt(t)))
  {
    hide Announced, Linked, ActiveWriters, WriteVote, Distinct;
    var r, l := s.open[t], s.ledger;
    assert ReadInv(l, r);
    WriteEffect(env, l, r.node, r.number, r.proposal);
    if s.stale {
      StillRepeats(Announced(l.entries), if Closes(l, r.proposal) then [r.proposal.to] else []);
    } else if Closes(l, r.proposal) {
      AnnounceNext(Announced(l.entries), l.epoch.number, r.proposal.to);
    }
  }

  lemma {:induction false} SplitRunInv(env: Env, l: Ledger, evs: seq<Event>)
    requires Opened(env, l)
    ensures SplitInv(env, SplitRun(env, l, evs))
  {
    hide Propose, WriteVote, Announced, Linked, ActiveWriters;
    if evs == [] {
      OpenInv(env, l);
      OpenNothing(env, l);
    } else {
      var s := SplitRun(env, l, evs[..|evs| - 1]);
      SplitRunInv(env, l, evs[..|evs| - 1]);
      match evs[|evs| - 1]
      case ProposeAt(node, id) => ProposeEffect(env, s.ledger, node, id);
      case ReadAt(t, node, id) =>
      case WriteAt(t) => if t in s.open { WriteInv(env, s, t); }
    }
  }

  lemma OpenNothing(env: Env, l: Ledger)
    requires Opened(env, l)
    ensures l.proposals == map[]
  {
  }

  /**
   Over every interleaving of proposals and of the reading and writing halves of votes, the announced
   epochs are all different if and only if every write that closed a proposal found the epoch number it
   had read; then they are 1, 2, 3, ... up to the epoch number.
   */
  lemma AnnouncedOnceIff(env: Env, l: Ledger, evs: seq<Event>)
    requires Opened(env, l)
    ensures var s := SplitRun(env, l, evs);
            && (Distinct(Announced(s.ledger.entries)) <==> !s.stale)
            && (!s.stale ==> Announced(s.ledger.entries) == seq(s.ledger.epoch.number, (i: nat) => i + 1))
  {
    hide SplitRun, Announced;
    SplitRunInv(env, l, evs);
    var s := SplitRun(env, l, evs);
    if !s.stale {
      CountDistinct(Announced(s.ledger.entries), s.ledger.epoch.number);
    }
  }
}
