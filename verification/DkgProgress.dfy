/**
 The wire DKG gets through: whatever else happens on the network, a hub that was handed every other
 member's messages leaves Round1 and can finish.
 */
module DkgProgress {
  import opened Wrappers
  import opened Sets
  import opened Roster
  import opened DkgHub
  import opened DkgNetwork
  import N = DkgNetwork
  import O = DkgOutcomes

  /** What is assumed of FROST part 2 here: it succeeds on what honest members send. */
  ghost predicate Total(frost: Frost) {
    forall secret, received :: frost.part2(secret, received).Some?
  }

  /** A session still in Round1 has its secret and misses a package. */
  ghost predicate Waiting(s: Session) {
    s.phase.Round1? ==> s.secret1.Some? && !Full(s.packages, s.max)
  }

  /** Nothing received is lost. */
  ghost predicate Grows(s: Session, s': Session) {
    s.packages.Keys <= s'.packages.Keys && s.inbox.Keys <= s'.inbox.Keys
  }

  // ---------- one session ----------

  lemma Ingest1Grows(d: Domain, name: string, s: Session, m: Msg1, frost: Frost)
    requires SessionInv(d, name, s) && Waiting(s) && Total(frost)
    ensures var s' := Ingest1(s, m, frost).0;
            && Waiting(s') && Grows(s, s')
            && (O.SameTerms(s, m) && O.IsMember(s, m.sender, m.senderId) && m.package.Some? ==>
                  !s'.phase.Round1? || m.senderId in s'.packages)
  {
    hide SessionInv, Full, O.Others, O.IsMember;
    if s.phase.Round1? {
      O.Ingest1Exact(d, name, s, m, frost);
      O.KnownTerms(d, name, s);
    }
  }

  lemma OthersGrow(d: Domain, name: string, s: Session, m: Msg2, frost: Frost, stored: bool)
    requires SessionInv(d, name, s) && Waiting(s)
    ensures Waiting(Ingest2(s, m).0) && Grows(s, Ingest2(s, m).0)
    ensures Waiting(Take(s).0) && Grows(s, Take(s).0)
    ensures Waiting(Finalize(s, frost, stored).0) && Grows(s, Finalize(s, frost, stored).0)
    ensures m.transcript == s.transcript && m.recipient == name && O.IsMember(s, m.sender, m.senderId) && m.package.Some? ==>
              s.phase.Complete? || m.senderId in Ingest2(s, m).0.inbox
  {
    O.KnownTerms(d, name, s);
    Numbered(d, name, s);
    hide SessionInv, Full;
    O.MemberId(s, m.sender, m.senderId);
  }

  // ---------- one hub ----------

  ghost predicate HubWaiting(sessions: map<string, Session>) {
    forall sid :: sid in sessions ==> Waiting(sessions[sid])
  }

  ghost predicate HubGrows(sessions: map<string, Session>, after: map<string, Session>) {
    forall sid :: sid in sessions ==> sid in after && Grows(sessions[sid], after[sid])
  }

  lemma OneGrows(sessions: map<string, Session>, sid: string, s: Session)
    requires HubWaiting(sessions) && (sid in sessions ==> Grows(sessions[sid], s)) && Waiting(s)
    ensures HubWaiting(sessions[sid := s]) && HubGrows(sessions, sessions[sid := s])
  {
    hide Waiting;
  }

  lemma SameGrows(sessions: map<string, Session>)
    ensures HubGrows(sessions, sessions)
  {
  }

  lemma StartGrows(d: Domain, name: string, sessions: map<string, Session>, req: StartRequest, part1: Option<(string, string)>)
    requires HubInv(d, name, sessions) && HubWaiting(sessions)
    ensures var after := Start(d, name, sessions, req, part1).0; HubWaiting(after) && HubGrows(sessions, after)
  {
    hide SessionInv, Start, Waiting, HubWaiting, HubGrows;
    SameGrows(sessions);
    if req.sid in sessions {
      O.RestartExact(d, name, sessions, req, part1);
    } else {
      O.StartExact(d, name, sessions, req, part1);
      if Start(d, name, sessions, req, part1).1.Ok? {
        var s := Start(d, name, sessions, req, part1).0[req.sid];
        OpenedWaits(d, name, req, part1.value.0, part1.value.1, s);
        OneGrows(sessions, req.sid, s);
      }
    }
  }

  lemma OpenedWaits(d: Domain, name: string, req: StartRequest, secret: string, package: string, s: Session)
    requires O.JustOpened(d, name, req, secret, package, s) && 2 <= req.max
    ensures Waiting(s)
  {
    hide Preimage, Canonical, O.IsMember;
    assert (1 in s.packages) != (2 in s.packages) || 1 !in s.packages;
  }

  lemma ApplyGrows(d: Domain, name: string, frost: Frost, sessions: map<string, Session>, op: Op)
    requires HubInv(d, name, sessions) && HubWaiting(sessions) && Total(frost)
    ensures var after := Apply(d, name, frost, sessions, op); HubWaiting(after) && HubGrows(sessions, after)
  {
    hide SessionInv, Start, Ingest1, Ingest2, Take, Finalize, Waiting, Grows, HubGrows, Total;
    SameGrows(sessions);
    var none := Msg2("", "", 0, "", 0, "", None, false);
    match op {
      case DoStart(req, part1) => StartGrows(d, name, sessions, req, part1);
      case DoIngest1(m) =>
        if m.sid in sessions {
          Ingest1Grows(d, name, sessions[m.sid], m, frost);
          OneGrows(sessions, m.sid, Ingest1(sessions[m.sid], m, frost).0);
        }
      case DoIngest2(m) =>
        if m.sid in sessions {
          OthersGrow(d, name, sessions[m.sid], m, frost, true);
          OneGrows(sessions, m.sid, Ingest2(sessions[m.sid], m).0);
        }
      case DoTake(sid) =>
        if sid in sessions {
          OthersGrow(d, name, sessions[sid], none, frost, true);
          OneGrows(sessions, sid, Take(sessions[sid]).0);
        }
      case DoFinalize(sid, stored) =>
        if sid in sessions {
          OthersGrow(d, name, sessions[sid], none, frost, stored);
          OneGrows(sessions, sid, Finalize(sessions[sid], frost, stored).0);
        }
    }
  }

  // ---------- the network ----------

  ghost predicate NetWaiting(n: Net) {
    forall h :: h in n.hubs ==> HubWaiting(n.hubs[h])
  }

  /** A network event is an operation of one hub, or nothing; what is taken is sent. */
  lemma StepHub(d: Domain, frost: Frost, n: Net, e: Event, h: string) returns (op: Op)
    requires h in n.hubs
    ensures var n' := Step(d, frost, n, e);
            && h in n'.hubs && n.sent2 <= n'.sent2
            && (n'.hubs[h] == n.hubs[h] || (n'.hubs[h] == Apply(d, h, frost, n.hubs[h], op) && Handed(n.hubs[h], op, n'.sent2)))
            && (e.hub == h && (e.TakeAt? || e.FinalizeAt?) ==> n'.hubs[h] == Apply(d, h, frost, n.hubs[h], op) && Handed(n.hubs[h], op, n'.sent2))
            && (e.TakeAt? ==> op == DoTake(e.sid))
  {
    hide Start, Ingest1, Ingest2, Take, Finalize, CleanRequest;
    op := match e
      case StartAt(_, req, part1) => DoStart(req, part1)
      case Deliver1(_, m) => DoIngest1(m)
      case Deliver2(_, m) => DoIngest2(m)
      case TakeAt(_, sid) => DoTake(sid)
      case FinalizeAt(_, sid, stored) => DoFinalize(sid, stored);
  }

  /** The messages a take hands over are among the sent ones. */
  ghost predicate Handed(sessions: map<string, Session>, op: Op, sent: set<Msg2>) {
    op.DoTake? && op.sid in sessions && Take(sessions[op.sid]).1.Ok? ==> SeqSet(Take(sessions[op.sid]).1.value) <= sent
  }

  lemma HubOf(d: Domain, n: Net, h: string)
    requires Inv(d, n) && h in n.hubs
    ensures HubInv(d, h, n.hubs[h])
  {
    hide HubInv, LocalsInv, MessagesInv, RoutesInv;
  }

  /** Whatever happens, a hub keeps its sessions and what they received, and its phases only move forward. */
  lemma StepGrows(d: Domain, frost: Frost, n: Net, e: Event, h: string)
    requires Inv(d, n) && NetWaiting(n) && Total(frost) && h in n.hubs
    ensures var n' := Step(d, frost, n, e);
            h in n'.hubs && HubWaiting(n'.hubs[h]) && HubGrows(n.hubs[h], n'.hubs[h])
            && forall sid :: sid in n.hubs[h] ==> sid in n'.hubs[h] && Evolves(n.hubs[h][sid], n'.hubs[h][sid])
  {
    hide Inv, Step, Apply, HubWaiting, HubGrows, SessionInv, Total, Evolves;
    HubOf(d, n, h);
    SameGrows(n.hubs[h]);
    SameEvolves(n.hubs[h]);
    var op := StepHub(d, frost, n, e, h);
    ApplyGrows(d, h, frost, n.hubs[h], op);
    ApplyInv(d, h, frost, n.hubs[h], op);
  }

  lemma SameEvolves(sessions: map<string, Session>)
    ensures forall sid :: sid in sessions ==> Evolves(sessions[sid], sessions[sid])
  {
  }

  lemma {:induction false} RunWaiting(d: Domain, frost: Frost, names: set<string>, evs: seq<Event>)
    requires Addressed(frost) && Total(frost)
    ensures NetWaiting(N.Run(d, frost, names, evs))
  {
    hide Addressed, Total, Step, Inv, HubWaiting;
    N.RunInv(d, frost, names, evs);
    if evs == [] {
      EmptyWaits();
    } else {
      var init := evs[..|evs| - 1];
      RunWaiting(d, frost, names, init);
      N.RunInv(d, frost, names, init);
      var n := N.Run(d, frost, names, init);
      forall h | h in N.Run(d, frost, names, evs).hubs ensures HubWaiting(N.Run(d, frost, names, evs).hubs[h]) {
        StepGrows(d, frost, n, evs[|evs| - 1], h);
      }
    }
  }

  lemma EmptyWaits()
    ensures HubWaiting(map[])
  {
  }

  // ---------- deliveries ----------

  /** The event hands hub `h` the round-1 message of member `id` of its session. */
  ghost predicate Gets1(n: Net, e: Event, h: string, sid: string, id: nat) {
    && e.Deliver1? && e.hub == h && Has(n, h, sid) && e.m1 in n.sent1 && e.m1.sid == sid
    && var s := n.hubs[h][sid];
       O.IsMember(s, e.m1.sender, id) && e.m1.transcript == s.transcript
  }

  /** The same for the round-2 message that member addressed to `h`. */
  ghost predicate Gets2(n: Net, e: Event, h: string, sid: string, id: nat) {
    && e.Deliver2? && e.hub == h && Has(n, h, sid) && e.m2 in n.sent2 && e.m2.sid == sid
    && var s := n.hubs[h][sid];
       O.IsMember(s, e.m2.sender, id) && e.m2.transcript == s.transcript && e.m2.recipient == h
  }

  ghost predicate Got1(n: Net, h: string, sid: string, id: nat) {
    Has(n, h, sid) && (PastRound1(n, h, sid) || id in n.hubs[h][sid].packages)
  }

  ghost predicate Got2(n: Net, h: string, sid: string, id: nat) {
    Has(n, h, sid) && (n.hubs[h][sid].phase.Complete? || id in n.hubs[h][sid].inbox)
  }

  /** An honest member numbers itself by its place. */
  lemma MemberNumber(d: Domain, n: Net, h: string, sid: string, id: nat, peer: string)
    requires Inv(d, n) && Has(n, h, sid) && O.IsMember(n.hubs[h][sid], peer, id)
    requires Has(n, peer, sid) && n.hubs[peer][sid].transcript == n.hubs[h][sid].transcript
    ensures N.SameTerms(n.hubs[h][sid], n.hubs[peer][sid]) && n.hubs[peer][sid].localId == id
  {
    hide Inv, SessionInv, LocalInv, IdOf, Sorted;
    TranscriptBinds(d, n, h, peer, sid);
    Known(d, n, peer, sid);
    Numbered(d, peer, n.hubs[peer][sid]);
    IdOfAt(n.hubs[peer][sid].roster, id - 1);
  }

  lemma Numbered(d: Domain, name: string, s: Session)
    requires SessionInv(d, name, s)
    ensures Sorted(s.roster) && s.localId == IdOf(s.roster, name)
  {
    hide Preimage, Sorted, IdOf;
  }

  lemma Deliver1Got(d: Domain, frost: Frost, n: Net, e: Event, h: string, sid: string, id: nat)
    requires Inv(d, n) && NetWaiting(n) && Total(frost) && Gets1(n, e, h, sid, id)
    ensures Got1(Step(d, frost, n, e), h, sid, id)
  {
    hide Inv, SessionInv, Ingest1, Waiting, Grows, Total, LocalInv, Start, Ingest2, Take, Finalize;
    var s, m := n.hubs[h][sid], e.m1;
    Known1(d, n, m);
    MemberNumber(d, n, h, sid, id, m.sender);
    Known(d, n, h, sid);
    assert HubWaiting(n.hubs[h]);
    Ingest1Grows(d, h, s, m, frost);
  }

  lemma Deliver2Got(d: Domain, frost: Frost, n: Net, e: Event, h: string, sid: string, id: nat)
    requires Inv(d, n) && NetWaiting(n) && Gets2(n, e, h, sid, id)
    ensures Got2(Step(d, frost, n, e), h, sid, id)
  {
    hide Inv, SessionInv, Ingest2, Waiting, Grows, LocalInv, Start, Ingest1, Take, Finalize;
    var s, m := n.hubs[h][sid], e.m2;
    Known2(d, n, m);
    MemberNumber(d, n, h, sid, id, m.sender);
    Known(d, n, h, sid);
    assert HubWaiting(n.hubs[h]);
    OthersGrow(d, h, s, m, frost, true);
    CompleteStays(s, m);
  }

  lemma CompleteStays(s: Session, m: Msg2)
    ensures s.phase.Complete? ==> Ingest2(s, m).0 == s
  {
  }

  lemma GotStays(d: Domain, frost: Frost, n: Net, e: Event, h: string, sid: string, id: nat)
    requires Inv(d, n) && NetWaiting(n) && Total(frost)
    ensures Got1(n, h, sid, id) ==> Got1(Step(d, frost, n, e), h, sid, id)
    ensures Got2(n, h, sid, id) ==> Got2(Step(d, frost, n, e), h, sid, id)
  {
    hide Inv, Step, NetWaiting, HubWaiting, Total;
    if Has(n, h, sid) {
      StepGrows(d, frost, n, e, h);
    }
  }

  /** Some event of the run handed it over. */
  ghost predicate Delivered1(d: Domain, frost: Frost, names: set<string>, evs: seq<Event>, h: string, sid: string, id: nat) {
    exists j :: 0 <= j < |evs| && Gets1(N.Run(d, frost, names, evs[..j]), evs[j], h, sid, id)
  }

  ghost predicate Delivered2(d: Domain, frost: Frost, names: set<string>, evs: seq<Event>, h: string, sid: string, id: nat) {
    exists j :: 0 <= j < |evs| && Gets2(N.Run(d, frost, names, evs[..j]), evs[j], h, sid, id)
  }

  lemma {:induction false} DeliveredGot(d: Domain, frost: Frost, names: set<string>, evs: seq<Event>, h: string, sid: string, id: nat)
    requires Addressed(frost) && Total(frost)
    ensures Delivered1(d, frost, names, evs, h, sid, id) ==> Got1(N.Run(d, frost, names, evs), h, sid, id)
    ensures Delivered2(d, frost, names, evs, h, sid, id) ==> Got2(N.Run(d, frost, names, evs), h, sid, id)
  {
    hide Addressed, Total, Step, Inv, NetWaiting, Gets1, Gets2, Got1, Got2;
    if evs != [] {
      var init, e := evs[..|evs| - 1], evs[|evs| - 1];
      var n := N.Run(d, frost, names, init);
      N.RunInv(d, frost, names, init);
      RunWaiting(d, frost, names, init);
      DeliveredGot(d, frost, names, init, h, sid, id);
      GotStays(d, frost, n, e, h, sid, id);
      if Delivered1(d, frost, names, evs, h, sid, id) && !Delivered1(d, frost, names, init, h, sid, id) {
        LastDelivery1(d, frost, names, evs, h, sid, id);
        Deliver1Got(d, frost, n, e, h, sid, id);
      }
      if Delivered2(d, frost, names, evs, h, sid, id) && !Delivered2(d, frost, names, init, h, sid, id) {
        LastDelivery2(d, frost, names, evs, h, sid, id);
        Deliver2Got(d, frost, n, e, h, sid, id);
      }
    }
  }

  lemma LastDelivery1(d: Domain, frost: Frost, names: set<string>, evs: seq<Event>, h: string, sid: string, id: nat)
    requires evs != [] && Delivered1(d, frost, names, evs, h, sid, id) && !Delivered1(d, frost, names, evs[..|evs| - 1], h, sid, id)
    ensures Gets1(N.Run(d, frost, names, evs[..|evs| - 1]), evs[|evs| - 1], h, sid, id)
  {
    hide Gets1, N.Run;
    var init := evs[..|evs| - 1];
    assert forall j :: 0 <= j < |init| ==> init[..j] == evs[..j] && init[j] == evs[j];
    var j :| 0 <= j < |evs| && Gets1(N.Run(d, frost, names, evs[..j]), evs[j], h, sid, id);
  }

  lemma LastDelivery2(d: Domain, frost: Frost, names: set<string>, evs: seq<Event>, h: string, sid: string, id: nat)
    requires evs != [] && Delivered2(d, frost, names, evs, h, sid, id) && !Delivered2(d, frost, names, evs[..|evs| - 1], h, sid, id)
    ensures Gets2(N.Run(d, frost, names, evs[..|evs| - 1]), evs[|evs| - 1], h, sid, id)
  {
    hide Gets2, N.Run;
    var init := evs[..|evs| - 1];
    assert forall j :: 0 <= j < |init| ==> init[..j] == evs[..j] && init[j] == evs[j];
    var j :| 0 <= j < |evs| && Gets2(N.Run(d, frost, names, evs[..j]), evs[j], h, sid, id);
  }

  // ---------- leaving Round1 ----------

  /** Every other member of the session. */
  predicate Other(n: Net, h: string, sid: string, id: nat)
    requires Has(n, h, sid)
  {
    1 <= id <= |n.hubs[h][sid].roster| && id != n.hubs[h][sid].localId
  }

  /**
   Round 1 gets through: in any run, with any other events before, between and after, a session that was
   handed the round-1 message of every other member is past Round1.
   */
  lemma LeavesRound1(d: Domain, frost: Frost, names: set<string>, evs: seq<Event>, h: string, sid: string)
    requires Addressed(frost) && Total(frost) && Has(N.Run(d, frost, names, evs), h, sid)
    requires forall id :: Other(N.Run(d, frost, names, evs), h, sid, id) ==> Delivered1(d, frost, names, evs, h, sid, id)
    ensures PastRound1(N.Run(d, frost, names, evs), h, sid)
  {
    hide Addressed, Total, Inv, N.Run, Delivered1, Delivered2, HubWaiting, LocalInv, SessionInv;
    var n := N.Run(d, frost, names, evs);
    var s := n.hubs[h][sid];
    N.RunInv(d, frost, names, evs);
    RunWaiting(d, frost, names, evs);
    Known(d, n, h, sid);
    OwnKept(d, h, s);
    assert HubWaiting(n.hubs[h]);
    WaitingAt(n.hubs[h], sid);
    forall id | 1 <= id <= s.max && s.phase.Round1? ensures id in s.packages {
      if id != s.localId {
        assert Other(n, h, sid, id);
        DeliveredGot(d, frost, names, evs, h, sid, id);
      }
    }
  }

  lemma WaitingAt(sessions: map<string, Session>, sid: string)
    requires HubWaiting(sessions) && sid in sessions
    ensures Waiting(sessions[sid])
  {
    hide Waiting;
  }

  lemma OwnKept(d: Domain, name: string, s: Session)
    requires SessionInv(d, name, s)
    ensures s.localId in s.packages && s.max == |s.roster| && Keyed(s.packages, s.max)
    ensures s.phase.Round2? ==> s.secret2.Some?
  {
    hide Preimage, Sorted, IdOf;
  }

  // ---------- what members send ----------

  /** A message of this session for member `id`. */
  ghost predicate SentFor(sent: set<Msg2>, s: Session, id: nat) {
    1 <= id <= |s.roster| && exists m :: m in sent && m.sid == s.sid && m.sender == s.localName && m.recipient == s.roster[id - 1] && m.transcript == s.transcript
  }

  /** Past Round1 a session holds, or has sent, a package for every other member. */
  ghost predicate Supplies(sent: set<Msg2>, s: Session) {
    && Keyed(s.outbound, |s.roster|)
    && (!s.phase.Round1? ==> forall id :: 1 <= id <= |s.roster| && id != s.localId ==> id in s.outbound || SentFor(sent, s, id))
  }

  lemma Ingest1Supplies(d: Domain, name: string, s: Session, m: Msg1, frost: Frost, sent: set<Msg2>)
    requires SessionInv(d, name, s) && Supplies(sent, s) && Addressed(frost)
    ensures Supplies(sent, Ingest1(s, m, frost).0)
  {
    O.KnownTerms(d, name, s);
    OwnKept(d, name, s);
    hide SessionInv, Ingest1, SentFor;
    if s.phase.Round1? {
      O.Ingest1Exact(d, name, s, m, frost);
      if Ingest1(s, m, frost).0.phase.Round2? {
        assert frost.part2(s.secret1.value, O.Others(O.Stored(s, m))).value.1.Keys == O.Others(O.Stored(s, m)).Keys;
      }
    } else {
      O.Ingest1Late(d, name, s, m, frost);
    }
  }

  lemma OthersSupply(d: Domain, name: string, s: Session, m: Msg2, frost: Frost, stored: bool, sent: set<Msg2>)
    requires SessionInv(d, name, s) && Supplies(sent, s)
    ensures Supplies(sent, Ingest2(s, m).0)
    ensures Supplies(sent, Finalize(s, frost, stored).0)
  {
    NoSecret(d, name, s);
    hide Keyed, SentFor, O.Others, SessionInv;
    O.FinalizeExact(s, frost, stored);
    SameFor(sent, s, Finalize(s, frost, stored).0);
    SameFor(sent, s, Ingest2(s, m).0);
  }

  lemma NoSecret(d: Domain, name: string, s: Session)
    requires SessionInv(d, name, s)
    ensures s.phase.Round1? ==> s.secret2.None?
  {
    hide Preimage, Sorted, IdOf, Full, Keyed;
  }

  lemma SameFor(sent: set<Msg2>, s: Session, s': Session)
    requires s'.sid == s.sid && s'.localName == s.localName && s'.roster == s.roster && s'.transcript == s.transcript
    ensures forall id :: SentFor(sent, s, id) <==> SentFor(sent, s', id)
  {
  }

  /** A take sends whatever was still held. */
  lemma TakeSupplies(s: Session, sent: set<Msg2>, sent': set<Msg2>)
    requires Supplies(sent, s) && sent <= sent' && (Take(s).1.Ok? ==> SeqSet(Take(s).1.value) <= sent')
    ensures Supplies(sent', Take(s).0)
    ensures !s.phase.Round1? ==> forall id :: 1 <= id <= |s.roster| && id != s.localId ==> SentFor(sent', s, id)
  {
    O.TakeExact(s);
    hide Take;
    forall id | 1 <= id <= |s.roster| && id != s.localId && !s.phase.Round1? ensures SentFor(sent', s, id) {
      if id in s.outbound {
        assert Msg2(s.sid, s.localName, s.localId, s.roster[id - 1], id, s.transcript, Some(s.outbound[id]), false) in SeqSet(Take(s).1.value);
      } else {
        MoreFor(sent, sent', s, id);
      }
    }
    forall id | SentFor(sent', s, id) ensures SentFor(sent', Take(s).0, id) {
    }
  }

  lemma MoreFor(sent: set<Msg2>, sent': set<Msg2>, s: Session, id: nat)
    requires sent <= sent' && SentFor(sent, s, id)
    ensures SentFor(sent', s, id)
  {
  }

  lemma MoreSupplies(sent: set<Msg2>, sent': set<Msg2>, s: Session)
    requires sent <= sent' && Supplies(sent, s)
    ensures Supplies(sent', s)
  {
    hide SentFor;
    forall id | SentFor(sent, s, id) ensures SentFor(sent', s, id) {
      MoreFor(sent, sent', s, id);
    }
  }

  ghost predicate HubSupplies(sent: set<Msg2>, sessions: map<string, Session>) {
    forall sid :: sid in sessions ==> Supplies(sent, sessions[sid])
  }

  lemma StartSupplies(d: Domain, name: string, sessions: map<string, Session>, req: StartRequest, part1: Option<(string, string)>, sent: set<Msg2>)
    requires HubInv(d, name, sessions) && HubSupplies(sent, sessions)
    ensures HubSupplies(sent, Start(d, name, sessions, req, part1).0)
  {
    hide SessionInv, Start, SentFor, Preimage, Canonical, O.IsMember;
    if req.sid in sessions {
      O.RestartExact(d, name, sessions, req, part1);
    } else {
      O.StartExact(d, name, sessions, req, part1);
    }
  }

  lemma ApplySupplies(d: Domain, name: string, frost: Frost, sessions: map<string, Session>, op: Op, sent: set<Msg2>, sent': set<Msg2>)
    requires HubInv(d, name, sessions) && HubSupplies(sent, sessions) && Addressed(frost) && sent <= sent' && Handed(sessions, op, sent')
    ensures HubSupplies(sent', Apply(d, name, frost, sessions, op))
  {
    hide SessionInv, Start, Ingest1, Ingest2, Take, Finalize, Supplies, Addressed, SeqSet;
    forall sid | sid in sessions ensures Supplies(sent', sessions[sid]) {
      MoreSupplies(sent, sent', sessions[sid]);
    }
    var none := Msg2("", "", 0, "", 0, "", None, false);
    match op {
      case DoStart(req, part1) => StartSupplies(d, name, sessions, req, part1, sent');
      case DoIngest1(m) =>
        if m.sid in sessions { Ingest1Supplies(d, name, sessions[m.sid], m, frost, sent'); }
      case DoIngest2(m) =>
        if m.sid in sessions { OthersSupply(d, name, sessions[m.sid], m, frost, true, sent'); }
      case DoTake(sid) =>
        if sid in sessions { TakeSupplies(sessions[sid], sent, sent'); }
      case DoFinalize(sid, stored) =>
        if sid in sessions { OthersSupply(d, name, sessions[sid], none, frost, stored, sent'); }
    }
  }

  ghost predicate NetSupplies(n: Net) {
    forall h :: h in n.hubs ==> HubSupplies(n.sent2, n.hubs[h])
  }

  lemma HubMore(sent: set<Msg2>, sent': set<Msg2>, sessions: map<string, Session>)
    requires sent <= sent' && HubSupplies(sent, sessions)
    ensures HubSupplies(sent', sessions)
  {
    hide Supplies;
    forall sid | sid in sessions ensures Supplies(sent', sessions[sid]) {
      MoreSupplies(sent, sent', sessions[sid]);
    }
  }

  lemma {:induction false} RunSupplies(d: Domain, frost: Frost, names: set<string>, evs: seq<Event>)
    requires Addressed(frost)
    ensures NetSupplies(N.Run(d, frost, names, evs))
  {
    hide Addressed, Step, Inv, HubSupplies, Apply, Handed;
    N.RunInv(d, frost, names, evs);
    if evs == [] {
      assert HubSupplies({}, map[]) by { EmptySupplies(); }
    } else {
      var init, e := evs[..|evs| - 1], evs[|evs| - 1];
      RunSupplies(d, frost, names, init);
      N.RunInv(d, frost, names, init);
      var n := N.Run(d, frost, names, init);
      var n' := N.Run(d, frost, names, evs);
      forall h | h in n'.hubs ensures HubSupplies(n'.sent2, n'.hubs[h]) {
        HubOf(d, n, h);
        var op := StepHub(d, frost, n, e, h);
        if n'.hubs[h] == n.hubs[h] {
          HubMore(n.sent2, n'.sent2, n.hubs[h]);
        } else {
          ApplySupplies(d, h, frost, n.hubs[h], op, n.sent2, n'.sent2);
        }
      }
    }
  }

  lemma EmptySupplies()
    ensures HubSupplies({}, map[])
  {
  }

  /**
   Nobody waits for a message that was never sent: when a hub past Round1 hands its outbound packages over,
   a round-2 message of its for every other member is on the network.
   */
  lemma TakeSends(d: Domain, frost: Frost, names: set<string>, evs: seq<Event>, h: string, sid: string)
    requires Addressed(frost) && PastRound1(N.Run(d, frost, names, evs), h, sid)
    ensures var n := N.Run(d, frost, names, evs);
            var n' := N.Run(d, frost, names, evs + [TakeAt(h, sid)]);
            forall id :: Other(n, h, sid, id) ==> SentFor(n'.sent2, n.hubs[h][sid], id)
  {
    hide Addressed, Step, N.Run, Apply, Supplies, SentFor, Take, SeqSet, Inv;
    RunSupplies(d, frost, names, evs);
    RunLast(d, frost, names, evs, TakeAt(h, sid));
    var n := N.Run(d, frost, names, evs);
    var op := StepHub(d, frost, n, TakeAt(h, sid), h);
    assert HubSupplies(n.sent2, n.hubs[h]);
    TakeSupplies(n.hubs[h][sid], n.sent2, N.Run(d, frost, names, evs + [TakeAt(h, sid)]).sent2);
  }

  // ---------- finishing ----------

  /**
   The DKG finishes: once a session was handed both messages of every other member, in whatever run, the
   next finalize leaves it Complete exactly when it was Complete already, or part 3 gives a share of the
   frozen thresholds on what it holds and the share can be stored.
   */
  lemma Finishes(d: Domain, frost: Frost, names: set<string>, evs: seq<Event>, h: string, sid: string, stored: bool)
    requires Addressed(frost) && Total(frost) && Has(N.Run(d, frost, names, evs), h, sid)
    requires forall id :: Other(N.Run(d, frost, names, evs), h, sid, id) ==>
               Delivered1(d, frost, names, evs, h, sid, id) && Delivered2(d, frost, names, evs, h, sid, id)
    ensures var n := N.Run(d, frost, names, evs);
            var n' := N.Run(d, frost, names, evs + [FinalizeAt(h, sid, stored)]);
            var s := n.hubs[h][sid];
            && Has(n', h, sid) && (s.phase.Complete? || s.secret2.Some?)
            && (n'.hubs[h][sid].phase.Complete? <==>
                  s.phase.Complete? || (stored && GoodShare(frost, s)))
  {
    hide Addressed, Total, Inv, N.Run, Delivered1, Delivered2, LocalInv, SessionInv, Full, Keyed, O.Others, O.OfTerms, Finalize;
    LeavesRound1(d, frost, names, evs, h, sid);
    var n := N.Run(d, frost, names, evs);
    var s := n.hubs[h][sid];
    N.RunInv(d, frost, names, evs);
    Known(d, n, h, sid);
    OwnKept(d, h, s);
    O.FinalizeExact(s, frost, stored);
    RunLast(d, frost, names, evs, FinalizeAt(h, sid, stored));
    forall id | Other(n, h, sid, id) && !s.phase.Complete? ensures id in s.inbox {
      DeliveredGot(d, frost, names, evs, h, sid, id);
    }
    if !s.phase.Complete? {
      InboxFull(d, h, s);
    }
  }

  ghost predicate GoodShare(frost: Frost, s: Session) {
    s.secret2.Some? && var k := frost.part3(s.secret2.value, O.Others(s), s.inbox); k.Some? && O.OfTerms(k.value, s)
  }

  lemma RunLast(d: Domain, frost: Frost, names: set<string>, evs: seq<Event>, e: Event)
    ensures N.Run(d, frost, names, evs + [e]) == Step(d, frost, N.Run(d, frost, names, evs), e)
  {
    hide Step;
    assert (evs + [e])[..|evs + [e]| - 1] == evs;
  }

  lemma InboxFull(d: Domain, name: string, s: Session)
    requires SessionInv(d, name, s)
    requires forall id :: 1 <= id <= s.max && id != s.localId ==> id in s.inbox
    ensures |s.inbox| + 1 >= s.max
  {
    hide Preimage, Sorted, IdOf;
    var others := Range(1, s.max + 1) - {s.localId};
    assert others <= s.inbox.Keys;
    SubsetSize(others, s.inbox.Keys);
    assert |s.inbox| == |s.inbox.Keys|;
  }
}
