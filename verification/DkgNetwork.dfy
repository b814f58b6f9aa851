/**
 Honest hubs over a network that drops, duplicates and reorders: hubs start sessions on any
 request, every message a hub produced may be delivered to any hub any number of times, in any
 order or never. Hubs do not restart.
 */
module DkgNetwork {
  import opened Wrappers
  import opened Sets
  import opened Roster
  import opened DkgHub

  datatype Net = Net(hubs: map<string, map<string, Session>>, sent1: set<Msg1>, sent2: set<Msg2>)

  datatype Event =
    | StartAt(hub: string, req: StartRequest, part1: Option<(string, string)>)
    | Deliver1(hub: string, m1: Msg1)
    | Deliver2(hub: string, m2: Msg2)
    | TakeAt(hub: string, sid: string)
    | FinalizeAt(hub: string, sid: string, stored: bool)

  function SeqSet(s: seq<Msg2>): set<Msg2> {
    set m | m in s
  }

  function Put(n: Net, hub: string, sessions: map<string, Session>): Net {
    n.(hubs := n.hubs[hub := sessions])
  }

  /** Only node ids the transcript encoding can carry are used in requests. */
  predicate CleanRequest(req: StartRequest) {
    Clean(Canonical(req.names))
  }

  function Step(d: Domain, frost: Frost, n: Net, e: Event): Net {
    if e.hub !in n.hubs then n
    else
      var sessions := n.hubs[e.hub];
      match e
      case StartAt(h, req, part1) =>
        if !CleanRequest(req) then n
        else
          var (after, r) := Start(d, h, sessions, req, part1);
          var n' := Put(n, h, after);
          if r.Ok? then n'.(sent1 := n.sent1 + {r.value}) else n'
      case Deliver1(h, m) =>
        if m !in n.sent1 then n else Put(n, h, Apply(d, h, frost, sessions, DoIngest1(m)))
      case Deliver2(h, m) =>
        if m !in n.sent2 then n else Put(n, h, Apply(d, h, frost, sessions, DoIngest2(m)))
      case TakeAt(h, sid) =>
        if sid !in sessions then n
        else
          var r := Take(sessions[sid]).1;
          var n' := Put(n, h, Apply(d, h, frost, sessions, DoTake(sid)));
          if r.Ok? then n'.(sent2 := n.sent2 + SeqSet(r.value)) else n'
      case FinalizeAt(h, sid, stored) => Put(n, h, Apply(d, h, frost, sessions, DoFinalize(sid, stored)))
  }

  function Init(names: set<string>): Net {
    Net(map h | h in names :: map[], {}, {})
  }

  function Run(d: Domain, frost: Frost, names: set<string>, evs: seq<Event>): Net {
    if evs == [] then Init(names) else Step(d, frost, Run(d, frost, names, evs[..|evs| - 1]), evs[|evs| - 1])
  }

  // ---------- invariant ----------

  predicate Has(n: Net, hub: string, sid: string) {
    hub in n.hubs && sid in n.hubs[hub]
  }

  /** A round-1 message is its sender's, for the session it still holds. */
  ghost predicate Genuine1(n: Net, m: Msg1) {
    && Has(n, m.sender, m.sid)
    && var s := n.hubs[m.sender][m.sid];
       s.localId in s.packages && m == Wire1(s)
  }

  /** A round-2 message left its sender's outbound map for another member, once. */
  ghost predicate Genuine2(n: Net, m: Msg2) {
    && Has(n, m.sender, m.sid)
    && var s := n.hubs[m.sender][m.sid];
       && !s.phase.Round1? && s.transcript == m.transcript && s.localId == m.senderId
       && 1 <= m.recipientId <= |s.roster| && s.roster[m.recipientId - 1] == m.recipient
       && m.recipientId != s.localId && m.recipientId !in s.outbound && m.package.Some? && !m.badEnvelope
  }

  /** The round-1 package a session holds for a member is that member's own. */
  ghost predicate FromMember(n: Net, s: Session, id: nat)
    requires id in s.packages
  {
    && 1 <= id <= |s.roster|
    && var peer := s.roster[id - 1];
       && Has(n, peer, s.sid)
       && var p := n.hubs[peer][s.sid];
          p.transcript == s.transcript && p.localId in p.packages && p.packages[p.localId] == s.packages[id]
  }

  /** The round-2 package a session holds from a member is one that member sent to it. */
  ghost predicate SentTo(n: Net, s: Session, id: nat)
    requires id in s.inbox
  {
    && 1 <= id <= |s.roster| && id != s.localId
    && exists m :: m in n.sent2 && m.sid == s.sid && m.sender == s.roster[id - 1] && m.recipient == s.localName
         && m.transcript == s.transcript && m.package == Some(s.inbox[id])
  }

  ghost predicate LocalInv(n: Net, s: Session) {
    && Clean(s.roster)
    && (forall id :: id in s.packages ==> FromMember(n, s, id))
    && (forall id :: id in s.inbox ==> SentTo(n, s, id))
    && (s.localId !in s.outbound)
  }

  ghost predicate HubsInv(d: Domain, n: Net) {
    forall h :: h in n.hubs ==> HubInv(d, h, n.hubs[h])
  }

  ghost predicate LocalsInv(n: Net) {
    forall h, sid :: Has(n, h, sid) ==> LocalInv(n, n.hubs[h][sid])
  }

  ghost predicate MessagesInv(n: Net) {
    && (forall m :: m in n.sent1 ==> Genuine1(n, m))
    && (forall m :: m in n.sent2 ==> Genuine2(n, m))
  }

  ghost predicate RoutesInv(n: Net) {
    forall m, m' :: m in n.sent2 && m' in n.sent2 && SameRoute(m, m') ==> m == m'
  }

  ghost predicate Inv(d: Domain, n: Net) {
    HubsInv(d, n) && LocalsInv(n) && MessagesInv(n) && RoutesInv(n)
  }

  lemma Known(d: Domain, n: Net, h: string, sid: string)
    requires Inv(d, n) && Has(n, h, sid)
    ensures var s := n.hubs[h][sid]; SessionInv(d, h, s) && s.sid == sid && LocalInv(n, s)
  {
    hide SessionInv, LocalInv, MessagesInv, RoutesInv;
    assert HubInv(d, h, n.hubs[h]);
  }

  lemma Known1(d: Domain, n: Net, m: Msg1)
    requires Inv(d, n) && m in n.sent1
    ensures Genuine1(n, m) && SessionInv(d, m.sender, n.hubs[m.sender][m.sid])
  {
    assert Genuine1(n, m);
    Known(d, n, m.sender, m.sid);
  }

  lemma Known2(d: Domain, n: Net, m: Msg2)
    requires Inv(d, n) && m in n.sent2
    ensures Genuine2(n, m) && SessionInv(d, m.sender, n.hubs[m.sender][m.sid])
  {
    assert Genuine2(n, m);
    Known(d, n, m.sender, m.sid);
  }

  predicate SameRoute(m: Msg2, m': Msg2) {
    m.sid == m'.sid && m.sender == m'.sender && m.recipient == m'.recipient
  }

  /** What is assumed of FROST part 2: one package for every received identifier, and none else. */
  ghost predicate Addressed(frost: Frost) {
    forall secret, received :: frost.part2(secret, received).Some? ==>
      frost.part2(secret, received).value.1.Keys == received.Keys
  }

  /** What a hub's step may do to the outbound map of a session. */
  ghost predicate OutboundStep(s: Session, s': Session) {
    || s'.outbound == s.outbound || s'.outbound == map[]
    || (s.phase.Round1? && s'.phase.Round2? && s.localId !in s'.outbound)
  }

  // ---------- one session changes ----------

  function Changed(n: Net, h: string, s: Session): Net
    requires h in n.hubs
  {
    Put(n, h, n.hubs[h][s.sid := s])
  }

  /** A session may be added, or replaced by one it can evolve to. */
  ghost predicate MayBecome(n: Net, h: string, s: Session)
    requires h in n.hubs
  {
    s.sid in n.hubs[h] ==> Evolves(n.hubs[h][s.sid], s) && OutboundStep(n.hubs[h][s.sid], s)
  }

  lemma MessagesKept(n: Net, h: string, s: Session, n': Net)
    requires MessagesInv(n) && h in n.hubs && n' == Changed(n, h, s) && MayBecome(n, h, s)
    ensures MessagesInv(n')
  {
    forall m | m in n.sent1 ensures Genuine1(n', m) {
      assert Genuine1(n, m);
    }
    forall m | m in n.sent2 ensures Genuine2(n', m) {
      assert Genuine2(n, m);
    }
  }

  lemma LocalKept(n: Net, h: string, s: Session, n': Net, t: Session)
    requires h in n.hubs && n' == Changed(n, h, s) && MayBecome(n, h, s)
    requires LocalInv(n, t)
    ensures LocalInv(n', t)
  {
    hide OutboundStep;
    forall id | id in t.packages ensures FromMember(n', t, id) {
      assert FromMember(n, t, id);
    }
    forall id | id in t.inbox ensures SentTo(n', t, id) {
      hide FromMember;
      assert SentTo(n, t, id);
    }
  }

  lemma LocalsKept(n: Net, h: string, s: Session, n': Net)
    requires LocalsInv(n) && h in n.hubs && n' == Changed(n, h, s) && MayBecome(n, h, s)
    requires LocalInv(n', s)
    ensures LocalsInv(n')
  {
    hide LocalInv, Evolves, OutboundStep;
    forall k, sid | Has(n', k, sid) ensures LocalInv(n', n'.hubs[k][sid]) {
      if n'.hubs[k][sid] != s {
        assert Has(n, k, sid);
        LocalKept(n, h, s, n', n.hubs[k][sid]);
      }
    }
  }

  lemma ChangeInv(d: Domain, n: Net, h: string, s: Session)
    requires Inv(d, n) && h in n.hubs && SessionInv(d, h, s) && MayBecome(n, h, s)
    requires LocalInv(Changed(n, h, s), s)
    ensures Inv(d, Changed(n, h, s))
  {
    hide LocalInv, Genuine1, Genuine2, SessionInv, MayBecome, MessagesInv, LocalsInv;
    var n' := Changed(n, h, s);
    MessagesKept(n, h, s, n');
    LocalsKept(n, h, s, n');
    forall k | k in n'.hubs ensures HubInv(d, k, n'.hubs[k]) {
      assert HubInv(d, k, n.hubs[k]);
    }
  }

  // ---------- the events ----------

  lemma OpenedLocal(d: Domain, n: Net, h: string, s: Session)
    requires h in n.hubs && SessionInv(d, h, s) && Clean(s.roster)
    requires s.packages.Keys == {s.localId} && s.inbox == map[] && s.outbound == map[]
    ensures LocalInv(Changed(n, h, s), s)
  {
    hide Preimage, Sorted;
    IdOfNone(s.roster, h);
    assert FromMember(Changed(n, h, s), s, s.localId);
  }

  lemma StartNet(d: Domain, n: Net, h: string, req: StartRequest, part1: Option<(string, string)>)
    requires Inv(d, n) && h in n.hubs && CleanRequest(req)
    ensures var (after, r) := Start(d, h, n.hubs[h], req, part1);
            && Inv(d, Put(n, h, after))
            && (r.Ok? ==> Genuine1(Put(n, h, after), r.value))
  {
    hide Preimage, Canonical, IdOf, Inv, Sorted, LocalInv, Clean, HubInv;
    var (after, r) := Start(d, h, n.hubs[h], req, part1);
    if after != n.hubs[h] {
      StartInv(d, h, n.hubs[h], req, part1);
      var s := after[req.sid];
      assert Changed(n, h, s) == Put(n, h, after);
      OpenedLocal(d, n, h, s);
      ChangeInv(d, n, h, s);
    } else {
      assert Put(n, h, after) == n;
      if r.Ok? {
        Known(d, n, h, req.sid);
      }
    }
  }

  lemma GenuinePeer(n: Net, d: Domain, m: Msg1, s: Session)
    requires Genuine1(n, m) && SessionInv(d, m.sender, n.hubs[m.sender][m.sid])
    requires m.sid == s.sid && m.transcript == s.transcript && m.package.Some?
    requires m.sender in s.roster && IdOf(s.roster, m.sender) == m.senderId
    requires m.senderId in s.packages && s.packages[m.senderId] == m.package.value
    ensures FromMember(n, s, m.senderId)
  {
    hide Preimage, Sorted;
    IdOfNone(s.roster, m.sender);
  }

  function Accepted(s: Session, m: Msg1): Session
    requires m.package.Some?
  {
    s.(packages := s.packages[m.senderId := m.package.value])
  }

  /** The message passes every check of a session still in Round1. */
  predicate Acceptable(s: Session, m: Msg1) {
    && s.phase.Round1? && m.sid == s.sid && m.transcript == s.transcript && m.package.Some?
    && m.sender in s.roster && IdOf(s.roster, m.sender) == m.senderId && m.senderId != s.localId
  }

  lemma AcceptSession(d: Domain, n: Net, h: string, s: Session, m: Msg1)
    requires Inv(d, n) && Has(n, h, s.sid) && s == n.hubs[h][s.sid] && Acceptable(s, m)
    ensures m.sender != h && MayBecome(n, h, Accepted(s, m)) && SessionInv(d, h, Accepted(s, m))
    ensures |Accepted(s, m).packages| % (U16_MAX + 1) == s.max ==> Full(Accepted(s, m).packages, s.max)
  {
    hide Inv, IdOf, Sorted, Preimage, LocalInv, Canonical, Genuine1, Genuine2;
    Known(d, n, h, s.sid);
    IdOfNone(s.roster, m.sender);
    AcceptInv(d, h, s, m.senderId, m.package.value);
  }

  lemma AcceptNet(d: Domain, n: Net, h: string, s: Session, m: Msg1)
    requires Inv(d, n) && Has(n, h, s.sid) && s == n.hubs[h][s.sid] && Acceptable(s, m) && m in n.sent1
    ensures LocalInv(Changed(n, h, Accepted(s, m)), Accepted(s, m))
  {
    hide Inv, IdOf, Sorted, Preimage, LocalInv, Genuine1, Full, SessionInv, MayBecome;
    AcceptSession(d, n, h, s, m);
    Known(d, n, h, s.sid);
    Known1(d, n, m);
    var s' := Accepted(s, m);
    var n' := Changed(n, h, s');
    LocalKept(n, h, s', n', s);
    OtherHub(n, n', h, m);
    AcceptLocal(d, n', s, s', m);
  }

  lemma OtherHub(n: Net, n': Net, h: string, m: Msg1)
    requires h in n.hubs && h in n'.hubs && m.sender != h && Genuine1(n, m) && n' == Put(n, h, n'.hubs[h])
    ensures Genuine1(n', m) && n'.hubs[m.sender][m.sid] == n.hubs[m.sender][m.sid]
  {
  }

  lemma AcceptLocal(d: Domain, n': Net, s: Session, s': Session, m: Msg1)
    requires LocalInv(n', s) && Genuine1(n', m) && SessionInv(d, m.sender, n'.hubs[m.sender][m.sid])
    requires m.sid == s.sid && m.transcript == s.transcript && m.package.Some?
    requires m.sender in s.roster && IdOf(s.roster, m.sender) == m.senderId
    requires s' == s.(packages := s.packages[m.senderId := m.package.value])
    ensures LocalInv(n', s')
  {
    hide IdOf, Sorted, Preimage;
    GenuinePeer(n', d, m, s');
    hide Genuine1, SessionInv, Clean;
    forall id | id in s'.packages ensures FromMember(n', s', id) {
      if id != m.senderId {
        assert FromMember(n', s, id);
      }
    }
    forall id | id in s'.inbox ensures SentTo(n', s', id) {
      hide FromMember;
      assert SentTo(n', s, id);
    }
  }

  lemma AdvanceNet(d: Domain, n: Net, h: string, s: Session, frost: Frost)
    requires Addressed(frost) && s.phase.Round1? && h in n.hubs
    requires SessionInv(d, h, s) && Full(s.packages, s.max)
    requires LocalInv(Changed(n, h, s), s)
    ensures var s' := Advance(s, frost).0;
            && LocalInv(Changed(n, h, s'), s') && OutboundStep(s, s')
            && SessionInv(d, h, s') && Evolves(s, s') && s'.packages == s.packages && s'.sid == s.sid
  {
    hide SessionInv, Full, LocalInv, Addressed, Preimage, Sorted, OutboundStep;
    AdvanceInv(d, h, s, frost);
    AdvanceOutbound(s, frost);
    NotSelf(Changed(n, h, s), s);
    var s' := Advance(s, frost).0;
    var (n0, n') := (Changed(n, h, s), Changed(n, h, s'));
    assert s'.packages == s.packages && s'.inbox == s.inbox && s'.roster == s.roster && s'.sid == s.sid;
    hide Advance, Evolves;
    ChangeTwice(n, h, s, s');
    LocalKept(n0, h, s', n', s);
    SameFields(n', s, s');
  }

  lemma NotSelf(n: Net, s: Session)
    requires LocalInv(n, s)
    ensures s.localId !in s.outbound
  {
  }

  lemma ChangeTwice(n: Net, h: string, s: Session, s': Session)
    requires h in n.hubs && s'.sid == s.sid
    ensures Changed(Changed(n, h, s), h, s') == Changed(n, h, s') && Changed(n, h, s).hubs[h][s.sid] == s
  {
    assert n.hubs[h][s.sid := s][s.sid := s'] == n.hubs[h][s.sid := s'];
  }

  lemma AdvanceOutbound(s: Session, frost: Frost)
    requires Addressed(frost) && s.phase.Round1?
    ensures var s' := Advance(s, frost).0;
            OutboundStep(s, s') && (s.localId !in s.outbound ==> s.localId !in s'.outbound)
  {
  }

  /** Only the fields the local invariant reads matter. */
  lemma SameFields(n: Net, s: Session, s': Session)
    requires LocalInv(n, s) && s'.localId !in s'.outbound
    requires s'.packages == s.packages && s'.inbox == s.inbox && s'.roster == s.roster
    requires s'.sid == s.sid && s'.transcript == s.transcript && s'.localId == s.localId && s'.localName == s.localName
    ensures LocalInv(n, s')
  {
    forall id | id in s'.packages ensures FromMember(n, s', id) {
      assert FromMember(n, s, id);
    }
    forall id | id in s'.inbox ensures SentTo(n, s', id) {
      assert SentTo(n, s, id);
    }
  }

  lemma SameNet(n: Net, h: string, sid: string)
    requires Has(n, h, sid)
    ensures Put(n, h, n.hubs[h][sid := n.hubs[h][sid]]) == n
  {
    assert n.hubs[h][sid := n.hubs[h][sid]] == n.hubs[h];
  }

  lemma Ingest1Net(d: Domain, n: Net, h: string, m: Msg1, frost: Frost)
    requires Inv(d, n) && Addressed(frost) && m in n.sent1 && Has(n, h, m.sid)
    ensures Inv(d, Put(n, h, n.hubs[h][m.sid := Ingest1(n.hubs[h][m.sid], m, frost).0]))
  {
    hide Inv, SessionInv, LocalInv, Advance, IdOf, Evolves, OutboundStep, Full, Addressed;
    var s := n.hubs[h][m.sid];
    Known(d, n, h, m.sid);
    if Ingest1(s, m, frost).0 == s {
      SameNet(n, h, m.sid);
    } else {
      AcceptSession(d, n, h, s, m);
      AcceptNet(d, n, h, s, m);
      var s1 := Accepted(s, m);
      if |s1.packages| % (U16_MAX + 1) == s.max && s.secret1.Some? {
        var s2 := Advance(s1, frost).0;
        AdvanceNet(d, n, h, s1, frost);
        OutboundTwice(s, s1, s2);
        ChangeInv(d, n, h, s2);
      } else {
        ChangeInv(d, n, h, s1);
      }
    }
  }

  lemma OutboundTwice(s: Session, s1: Session, s2: Session)
    requires s1 == s.(packages := s1.packages) && OutboundStep(s1, s2) && Evolves(s, s1) && Evolves(s1, s2)
    ensures OutboundStep(s, s2) && Evolves(s, s2) && s2.sid == s.sid
  {
  }

  /** A genuine message addressed to a session never claims to come from it. */
  lemma NotFromSelf(d: Domain, n: Net, h: string, s: Session, m: Msg2)
    requires Genuine2(n, m) && SessionInv(d, h, s) && Has(n, h, s.sid) && s == n.hubs[h][s.sid]
    requires m.sid == s.sid && m.recipient == s.localName && m.sender in s.roster && IdOf(s.roster, m.sender) == m.senderId
    ensures m.senderId != s.localId && 1 <= m.senderId <= |s.roster| && s.roster[m.senderId - 1] == m.sender
  {
    hide Preimage;
    IdOfNone(s.roster, m.sender);
    if m.senderId == s.localId {
      IdOfNone(s.roster, h);
      IdOfAt(s.roster, m.recipientId - 1);
    }
  }

  lemma InboxLocal(n: Net, s: Session, m: Msg2)
    requires LocalInv(n, s) && m in n.sent2 && m.sid == s.sid && m.recipient == s.localName
    requires m.transcript == s.transcript && m.package.Some?
    requires m.senderId != s.localId && 1 <= m.senderId <= |s.roster| && s.roster[m.senderId - 1] == m.sender
    ensures LocalInv(n, s.(inbox := s.inbox[m.senderId := m.package.value]))
  {
    var s' := s.(inbox := s.inbox[m.senderId := m.package.value]);
    forall id | id in s'.packages ensures FromMember(n, s', id) {
      assert FromMember(n, s, id);
    }
    forall id | id in s'.inbox ensures SentTo(n, s', id) {
      if id != m.senderId {
        assert SentTo(n, s, id);
      }
    }
  }

  lemma Ingest2Net(d: Domain, n: Net, h: string, m: Msg2, frost: Frost)
    requires Inv(d, n) && m in n.sent2 && Has(n, h, m.sid)
    ensures Inv(d, Put(n, h, n.hubs[h][m.sid := Ingest2(n.hubs[h][m.sid], m).0]))
  {
    hide Preimage, Inv, SessionInv, LocalInv, IdOf, Evolves, Genuine2;
    var s := n.hubs[h][m.sid];
    var s' := Ingest2(s, m).0;
    Known(d, n, h, m.sid);
    if s' == s {
      SameNet(n, h, m.sid);
    } else {
      OtherInv(d, h, s, m, frost, true);
      Known2(d, n, m);
      SelfName(d, h, s);
      NotFromSelf(d, n, h, s, m);
      var n' := Changed(n, h, s');
      LocalKept(n, h, s', n', s);
      InboxLocal(n', s, m);
      ChangeInv(d, n, h, s');
    }
  }

  lemma SelfName(d: Domain, h: string, s: Session)
    requires SessionInv(d, h, s)
    ensures s.localName == h
  {
  }

  lemma {:induction false} OutgoingWires(s: Session, k: nat, m: Msg2) returns (id: nat)
    requires k <= |s.roster| && m in Outgoing(s, k)
    ensures 1 <= id <= k && id in s.outbound && m == Wire2(s, id)
  {
    if k in s.outbound && m == Wire2(s, k) {
      id := k;
    } else {
      id := OutgoingWires(s, k - 1, m);
    }
  }

  lemma EmptiedLocal(n: Net, s: Session)
    requires LocalInv(n, s)
    ensures LocalInv(n, Take(s).0)
  {
    SameFields(n, s, Take(s).0);
  }

  lemma TakenInv(d: Domain, n: Net, h: string, sid: string, frost: Frost)
    requires Inv(d, n) && Has(n, h, sid)
    ensures Inv(d, Put(n, h, n.hubs[h][sid := Take(n.hubs[h][sid]).0]))
  {
    hide Preimage, IdOf, Inv, SessionInv, LocalInv, Evolves;
    var s := n.hubs[h][sid];
    Known(d, n, h, sid);
    OtherInv(d, h, s, Msg2("", "", 0, "", 0, "", None, false), frost, true);
    var n' := Changed(n, h, Take(s).0);
    LocalKept(n, h, Take(s).0, n', s);
    EmptiedLocal(n', s);
    ChangeInv(d, n, h, Take(s).0);
  }

  /** A message handed over is genuine once the outbound map is empty. */
  lemma HandedOver(d: Domain, n: Net, n': Net, h: string, s: Session, m: Msg2)
    requires SessionInv(d, h, s) && s.localId !in s.outbound && Has(n, h, s.sid) && Take(s).1.Ok?
    requires n' == Changed(n, h, Take(s).0) && m in Take(s).1.value
    ensures Genuine2(n', m) && m.sender == h && m.sid == s.sid
  {
    hide Preimage, IdOf, Sorted;
    var id := OutgoingWires(s, |s.roster|, m);
  }

  /** A message that is handed over is the one outbound package of its recipient. */
  lemma HandedId(d: Domain, h: string, s: Session, m: Msg2) returns (id: nat)
    requires SessionInv(d, h, s) && Take(s).1.Ok? && m in Take(s).1.value
    ensures id in s.outbound && 1 <= id <= |s.roster| && m == Wire2(s, id) && id == IdOf(s.roster, m.recipient)
  {
    hide Preimage, IdOf, Sorted, Outgoing;
    id := OutgoingWires(s, |s.roster|, m);
    IdOfAt(s.roster, id - 1);
  }

  lemma NoRepeat(d: Domain, n: Net, h: string, s: Session, m: Msg2, m': Msg2)
    requires SessionInv(d, h, s) && Has(n, h, s.sid) && s == n.hubs[h][s.sid] && Take(s).1.Ok?
    requires m in Take(s).1.value && SameRoute(m, m')
    requires m' in Take(s).1.value || Genuine2(n, m')
    ensures m == m'
  {
    hide Preimage, IdOf, Sorted, Outgoing, Take;
    var id := HandedId(d, h, s, m);
    if m' in Take(s).1.value {
      var id' := HandedId(d, h, s, m');
    } else {
      IdOfAt(s.roster, m'.recipientId - 1);
    }
  }

  lemma MoreSent(n: Net, n': Net)
    requires n'.hubs == n.hubs && n.sent2 <= n'.sent2 && LocalsInv(n)
    ensures LocalsInv(n')
  {
    forall h, sid | Has(n', h, sid) ensures LocalInv(n', n'.hubs[h][sid]) {
      assert Has(n, h, sid);
      var s := n.hubs[h][sid];
      assert LocalInv(n, s);
      forall id | id in s.packages ensures FromMember(n', s, id) {
        assert FromMember(n, s, id);
      }
      forall id | id in s.inbox ensures SentTo(n', s, id) {
        assert SentTo(n, s, id);
      }
    }
  }

  lemma MoreMessages(n: Net, n': Net)
    requires n'.hubs == n.hubs && MessagesInv(n)
    requires forall m :: m in n'.sent1 && m !in n.sent1 ==> Genuine1(n, m)
    requires forall m :: m in n'.sent2 && m !in n.sent2 ==> Genuine2(n, m)
    ensures MessagesInv(n')
  {
    forall m | m in n'.sent1 ensures Genuine1(n', m) {
      assert Genuine1(n, m);
    }
    forall m | m in n'.sent2 ensures Genuine2(n', m) {
      assert Genuine2(n, m);
    }
  }

  lemma HubsSame(d: Domain, n: Net, n': Net)
    requires HubsInv(d, n) && n'.hubs == n.hubs
    ensures HubsInv(d, n')
  {
  }

  lemma TakeNet(d: Domain, n: Net, h: string, sid: string, frost: Frost)
    requires Inv(d, n) && Has(n, h, sid) && Take(n.hubs[h][sid]).1.Ok?
    ensures var s := n.hubs[h][sid];
            var n' := Put(n, h, n.hubs[h][sid := Take(s).0]);
            Inv(d, n'.(sent2 := n'.sent2 + SeqSet(Take(s).1.value)))
  {
    hide Preimage, IdOf, SessionInv, LocalInv, HubsInv, LocalsInv, MessagesInv, Take, Genuine2;
    var s := n.hubs[h][sid];
    Known(d, n, h, sid);
    NotSelf(n, s);
    TakenInv(d, n, h, sid, frost);
    var n' := Changed(n, h, Take(s).0);
    TakeSid(s);
    var added := Take(s).1.value;
    var n2 := n'.(sent2 := n'.sent2 + SeqSet(added));
    forall m | m in n2.sent2 && m !in n'.sent2 ensures Genuine2(n', m) {
      HandedOver(d, n, n', h, s, m);
    }
    MoreMessages(n', n2);
    MoreSent(n', n2);
    HubsSame(d, n', n2);
    forall m, m' | m in n2.sent2 && m' in n2.sent2 && SameRoute(m, m') ensures m == m' {
      if m in added {
        if m' !in added { Known2(d, n, m'); }
        NoRepeat(d, n, h, s, m, m');
      } else if m' in added {
        Known2(d, n, m);
        NoRepeat(d, n, h, s, m', m);
      }
    }
  }

  lemma TakeSid(s: Session)
    ensures Take(s).0.sid == s.sid
  {
  }

  lemma FinalizeNet(d: Domain, n: Net, h: string, sid: string, frost: Frost, stored: bool)
    requires Inv(d, n) && Has(n, h, sid)
    ensures Inv(d, Put(n, h, n.hubs[h][sid := Finalize(n.hubs[h][sid], frost, stored).0]))
  {
    hide Preimage, IdOf, Inv, SessionInv, LocalInv, Evolves;
    var s := n.hubs[h][sid];
    var s' := Finalize(s, frost, stored).0;
    Known(d, n, h, sid);
    OtherInv(d, h, s, Msg2("", "", 0, "", 0, "", None, false), frost, stored);
    var n' := Changed(n, h, s');
    LocalKept(n, h, s', n', s);
    NotSelf(n, s);
    SameFields(n', s, s');
    ChangeInv(d, n, h, s');
  }

  lemma StartedNet(d: Domain, n: Net, h: string, req: StartRequest, part1: Option<(string, string)>)
    requires Inv(d, n) && h in n.hubs && CleanRequest(req)
    ensures var (after, r) := Start(d, h, n.hubs[h], req, part1);
            r.Ok? ==> Inv(d, Put(n, h, after).(sent1 := n.sent1 + {r.value}))
  {
    hide Preimage, IdOf, SessionInv, LocalInv, HubsInv, LocalsInv, MessagesInv, Start, Genuine1, CleanRequest;
    StartNet(d, n, h, req, part1);
    var (after, r) := Start(d, h, n.hubs[h], req, part1);
    if r.Ok? {
      var n1 := Put(n, h, after);
      var n2 := n1.(sent1 := n.sent1 + {r.value});
      MoreMessages(n1, n2);
      MoreSent(n1, n2);
      HubsSame(d, n1, n2);
    }
  }

  lemma StepInv(d: Domain, frost: Frost, n: Net, e: Event)
    requires Inv(d, n) && Addressed(frost)
    ensures Inv(d, Step(d, frost, n, e))
    ensures Step(d, frost, n, e).hubs.Keys == n.hubs.Keys
  {
    hide Inv, Addressed, CleanRequest, Start, Ingest1, Ingest2, Take, Finalize, SessionInv;
    if e.hub in n.hubs {
      var h := e.hub;
      assert Put(n, h, n.hubs[h]) == n;
      match e {
        case StartAt(_, req, part1) =>
          if CleanRequest(req) {
            StartNet(d, n, h, req, part1);
            StartedNet(d, n, h, req, part1);
          }
        case Deliver1(_, m) =>
          if m in n.sent1 && Has(n, h, m.sid) { Ingest1Net(d, n, h, m, frost); }
        case Deliver2(_, m) =>
          if m in n.sent2 && Has(n, h, m.sid) { Ingest2Net(d, n, h, m, frost); }
        case TakeAt(_, sid) =>
          if Has(n, h, sid) {
            TakenInv(d, n, h, sid, frost);
            if Take(n.hubs[h][sid]).1.Ok? { TakeNet(d, n, h, sid, frost); }
          }
        case FinalizeAt(_, sid, stored) =>
          if Has(n, h, sid) { FinalizeNet(d, n, h, sid, frost, stored); }
      }
    }
  }

  lemma {:induction false} RunInv(d: Domain, frost: Frost, names: set<string>, evs: seq<Event>)
    requires Addressed(frost)
    ensures Inv(d, Run(d, frost, names, evs)) && Run(d, frost, names, evs).hubs.Keys == names
  {
    hide Addressed, Step, SessionInv, LocalInv;
    if evs != [] {
      RunInv(d, frost, names, evs[..|evs| - 1]);
      StepInv(d, frost, Run(d, frost, names, evs[..|evs| - 1]), evs[|evs| - 1]);
    }
  }

  // ---------- agreement ----------

  predicate PastRound1(n: Net, h: string, sid: string) {
    Has(n, h, sid) && !n.hubs[h][sid].phase.Round1?
  }

  /** Same constitution. */
  predicate SameTerms(s: Session, t: Session) {
    s.max == t.max && s.min == t.min && s.roster == t.roster && s.transcript == t.transcript
  }

  /** Equal transcripts are equal constitutions. */
  lemma TranscriptBinds(d: Domain, n: Net, a: string, b: string, sid: string)
    requires Inv(d, n) && Has(n, a, sid) && Has(n, b, sid)
    requires n.hubs[a][sid].transcript == n.hubs[b][sid].transcript
    ensures SameTerms(n.hubs[a][sid], n.hubs[b][sid])
  {
    hide Inv, Preimage, Sorted, IdOf;
    Known(d, n, a, sid);
    Known(d, n, b, sid);
    var (s, t) := (n.hubs[a][sid], n.hubs[b][sid]);
    PreimageInjective(Tag(d), sid, s.max, s.min, s.roster, sid, t.max, t.min, t.roster);
  }

  /** Every member of a roster past Round1 runs that very session, and its package is the one held for it. */
  lemma MemberAgrees(d: Domain, n: Net, h: string, sid: string, k: nat)
    requires Inv(d, n) && PastRound1(n, h, sid) && k < |n.hubs[h][sid].roster|
    ensures var s := n.hubs[h][sid];
            && Has(n, s.roster[k], sid) && SameTerms(s, n.hubs[s.roster[k]][sid])
            && var p := n.hubs[s.roster[k]][sid];
               p.localId == k + 1 && p.localId in p.packages && k + 1 in s.packages
               && s.packages[k + 1] == p.packages[p.localId]
  {
    hide Inv, Preimage, Sorted, IdOf, SentTo, HubsInv, LocalsInv, MessagesInv, RoutesInv;
    var s := n.hubs[h][sid];
    Known(d, n, h, sid);
    assert FromMember(n, s, k + 1);
    var peer := s.roster[k];
    Known(d, n, peer, sid);
    TranscriptBinds(d, n, h, peer, sid);
    IdOfAt(s.roster, k);
  }

  /**
   Wire DKG agreement. Two hubs past Round1 of one session hold the same roster, thresholds and
   round-1 packages as soon as their rosters share a member; otherwise the rosters are disjoint.
   */
  lemma Agreement(d: Domain, frost: Frost, names: set<string>, evs: seq<Event>, sid: string, a: string, b: string)
    requires Addressed(frost)
    requires PastRound1(Run(d, frost, names, evs), a, sid) && PastRound1(Run(d, frost, names, evs), b, sid)
    ensures var n := Run(d, frost, names, evs);
            var (s, t) := (n.hubs[a][sid], n.hubs[b][sid]);
            (exists m :: m in s.roster && m in t.roster) <==> SameTerms(s, t) && s.packages == t.packages
  {
    hide Inv, Preimage, Sorted, IdOf, Step, Run, Addressed;
    var n := Run(d, frost, names, evs);
    var (s, t) := (n.hubs[a][sid], n.hubs[b][sid]);
    RunInv(d, frost, names, evs);
    KnownFull(d, n, a, sid);
    KnownFull(d, n, b, sid);
    if m :| m in s.roster && m in t.roster {
      var i, j :| 0 <= i < |s.roster| && s.roster[i] == m && 0 <= j < |t.roster| && t.roster[j] == m;
      MemberAgrees(d, n, a, sid, i);
      MemberAgrees(d, n, b, sid, j);
      forall id | id in s.packages ensures id in t.packages && s.packages[id] == t.packages[id] {
        MemberAgrees(d, n, a, sid, id - 1);
        MemberAgrees(d, n, b, sid, id - 1);
      }
    }
    if SameTerms(s, t) {
      assert s.roster[0] in s.roster && s.roster[0] in t.roster;
    }
  }

  lemma KnownFull(d: Domain, n: Net, h: string, sid: string)
    requires Inv(d, n) && PastRound1(n, h, sid)
    ensures var s := n.hubs[h][sid]; Full(s.packages, |s.roster|) && 2 <= |s.roster|
  {
    hide Inv, Preimage, Sorted, IdOf;
    Known(d, n, h, sid);
  }

  /** A round-2 message some other member addressed to this session. */
  predicate SentHere(s: Session, m: Msg2) {
    && m.sid == s.sid && m.transcript == s.transcript && m.recipient == s.localName
    && m.sender in s.roster && IdOf(s.roster, m.sender) in s.inbox
  }

  /**
   A full round-2 inbox holds exactly one package from every other member, and each is the one
   package that member ever sent this hub in this session.
   */
  lemma FullInbox(d: Domain, frost: Frost, names: set<string>, evs: seq<Event>, sid: string, h: string)
    requires Addressed(frost)
    requires Has(Run(d, frost, names, evs), h, sid)
    requires var s := Run(d, frost, names, evs).hubs[h][sid]; |s.inbox| >= s.max - 1
    ensures var n := Run(d, frost, names, evs);
            var s := n.hubs[h][sid];
            && (forall id :: id in s.inbox <==> 1 <= id <= s.max && id != s.localId)
            && (forall id :: id in s.inbox ==> SentTo(n, s, id))
            && (forall m | m in n.sent2 && SentHere(s, m) :: m.package == Some(s.inbox[IdOf(s.roster, m.sender)]))
  {
    hide Preimage, Step, Run, Addressed, HubsInv, LocalsInv, MessagesInv, SentTo;
    var n := Run(d, frost, names, evs);
    var s := n.hubs[h][sid];
    RunInv(d, frost, names, evs);
    Known(d, n, h, sid);
    InboxKeys(n, s);
    forall m | m in n.sent2 && SentHere(s, m)
      ensures m.package == Some(s.inbox[IdOf(s.roster, m.sender)])
    {
      IdOfNone(s.roster, m.sender);
      var m' := SentWitness(n, s, IdOf(s.roster, m.sender));
      assert SameRoute(m, m');
    }
  }

  lemma SentWitness(n: Net, s: Session, id: nat) returns (m: Msg2)
    requires id in s.inbox && SentTo(n, s, id)
    ensures m in n.sent2 && m.sid == s.sid && m.sender == s.roster[id - 1] && m.recipient == s.localName
    ensures m.package == Some(s.inbox[id])
  {
    m :| m in n.sent2 && m.sid == s.sid && m.sender == s.roster[id - 1] && m.recipient == s.localName
         && m.transcript == s.transcript && m.package == Some(s.inbox[id]);
  }

  lemma InboxKeys(n: Net, s: Session)
    requires LocalInv(n, s) && 1 <= s.localId <= |s.roster| == s.max && |s.inbox| >= s.max - 1
    ensures forall id :: id in s.inbox <==> 1 <= id <= s.max && id != s.localId
  {
    var others := Range(1, s.max + 1) - {s.localId};
    forall id | id in s.inbox ensures id in others {
      assert SentTo(n, s, id);
    }
    assert s.inbox.Keys <= others;
    assert |others| == s.max - 1;
    SubsetSize(s.inbox.Keys, others);
    assert |s.inbox| == |s.inbox.Keys|;
  }
}
