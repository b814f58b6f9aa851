/**
 What a DKG hub answers and stores, read off the message and the session, and what a finished session's
 key is made of, over whole runs.
 */
module DkgOutcomes {
  import opened Wrappers
  import opened Sets
  import opened Roster
  import opened DkgHub

  /** The other members' round-1 packages. */
  function Others(s: Session): map<nat, string> {
    map id | id in s.packages && id != s.localId :: s.packages[id]
  }

  lemma OthersRemoved(s: Session)
    ensures s.packages - {s.localId} == Others(s)
  {
  }

  /** A share of exactly the frozen thresholds. */
  predicate OfTerms(k: Share, s: Session) {
    k.min == s.min && (k.groupMin == None || k.groupMin == Some(s.min)) && k.groupMax == s.max
  }

  // ---------- round 3 ----------

  /** A round-2 secret that part 2 gave on the other members' round-1 packages. */
  ghost predicate SecretFrom(frost: Frost, s: Session, secret2: string) {
    exists secret1: string, out: map<nat, string> :: frost.part2(secret1, Others(s)) == Some((secret2, out))
  }

  /** The share is what part 3 gives on such a secret, those packages and the packages received in round 2. */
  ghost predicate KeyFrom(frost: Frost, s: Session) {
    exists secret2: string :: SecretFrom(frost, s, secret2) && frost.part3(secret2, Others(s), s.inbox) == s.share
  }

  ghost predicate ShareInv(frost: Frost, s: Session) {
    match s.phase
    case Round1 => s.share == None
    case Round2 => s.share == None && s.secret2.Some? && SecretFrom(frost, s, s.secret2.value)
    case Complete => s.share.Some? && OfTerms(s.share.value, s) && KeyFrom(frost, s)
  }

  /** All packages are in, part 3 gives a share of the frozen thresholds, and it is stored. */
  predicate Finishes(s: Session, frost: Frost, stored: bool) {
    && |s.inbox| + 1 >= s.max && s.secret2.Some? && stored
    && var k := frost.part3(s.secret2.value, Others(s), s.inbox); k.Some? && OfTerms(k.value, s)
  }

  /** Exactly when a session finishes, and with which share; every refusal leaves it as it was. */
  lemma FinalizeExact(s: Session, frost: Frost, stored: bool)
    ensures var (s', r) := Finalize(s, frost, stored);
            && (s.phase.Complete? ==> r == Ok(()) && s' == s)
            && (!s.phase.Complete? ==> (r.Ok? <==> Finishes(s, frost, stored)))
            && (r.Err? ==> r == Err(Threshold) && s' == s)
            && (!s.phase.Complete? && r.Ok? ==>
                  s' == s.(share := frost.part3(s.secret2.value, Others(s), s.inbox), phase := Complete, secret2 := None))
  {
    OthersRemoved(s);
  }

  // ---------- round 1 ----------

  /** The sender is the roster's member with that identifier. */
  predicate IsMember(s: Session, sender: string, id: nat) {
    1 <= id <= |s.roster| && s.roster[id - 1] == sender
  }

  predicate SameTerms(s: Session, m: Msg1) {
    m.max == s.max && m.min == s.min && m.transcript == s.transcript
  }

  lemma MemberId(s: Session, sender: string, id: nat)
    requires Sorted(s.roster)
    ensures (id != 0 && sender in s.roster && IdOf(s.roster, sender) == id) <==> IsMember(s, sender, id)
  {
    IdOfNone(s.roster, sender);
    if IsMember(s, sender, id) {
      IdOfAt(s.roster, id - 1);
    }
  }

  /** The round-1 packages once the message's package is stored. */
  function Stored(s: Session, m: Msg1): Session
    requires m.package.Some?
  {
    s.(packages := s.packages[m.senderId := m.package.value])
  }

  /** Running part 2: the round-1 secret goes, and the session moves on exactly when it succeeds. */
  lemma AdvanceExact(s: Session, frost: Frost)
    requires s.secret1.Some?
    ensures var (s', r) := Advance(s, frost);
            match frost.part2(s.secret1.value, Others(s))
            case None => s' == s.(secret1 := None) && r == Err(Threshold)
            case Some(out) => r == Ok(()) && s' == s.(
              secret1 := None, secret2 := Some(out.0), outbound := out.1, closed := true, phase := Round2)
  {
    OthersRemoved(s);
  }

  lemma FullCount(d: Domain, name: string, s: Session, id: nat, package: string)
    requires SessionInv(d, name, s) && 1 <= id <= s.max
    ensures var p := s.packages[id := package];
            (|p| % (U16_MAX + 1) == s.max <==> Full(p, s.max))
  {
    hide Preimage, Sorted, IdOf;
    var p := s.packages[id := package];
    KeyedFull(p, s.max);
    if Full(p, s.max) {
      FullSize(p, s.max);
    }
  }

  lemma Round1Open(d: Domain, name: string, s: Session)
    requires SessionInv(d, name, s) && s.phase.Round1?
    ensures !s.closed && Sorted(s.roster) && |s.roster| == s.max
  {
    hide Preimage, Sorted, IdOf, Full, Keyed;
  }

  /**
   A round-1 message in Round1: it is stored exactly when its terms are the frozen ones, its sender is
   another roster member and its package parses; the last package missing runs part 2 on what the others
   sent, and the session moves on exactly when that succeeds.
   */
  lemma Ingest1Exact(d: Domain, name: string, s: Session, m: Msg1, frost: Frost)
    requires SessionInv(d, name, s) && s.phase.Round1?
    ensures var (s', r) := Ingest1(s, m, frost);
            var meant := SameTerms(s, m) && IsMember(s, m.sender, m.senderId);
            if !meant || (m.senderId != s.localId && m.package.None?) then s' == s && r == Err(Threshold)
            else if m.senderId == s.localId then s' == s && r == Ok(())
            else if s.secret1.None? || !Full(Stored(s, m).packages, s.max) then s' == Stored(s, m) && r == Ok(())
            else match frost.part2(s.secret1.value, Others(Stored(s, m)))
              case None => s' == Stored(s, m).(secret1 := None) && r == Err(Threshold)
              case Some(out) => r == Ok(()) && s' == Stored(s, m).(
                secret1 := None, secret2 := Some(out.0), outbound := out.1, closed := true, phase := Round2)
  {
    hide SessionInv, Preimage, Sorted, IdOf, Full, Others, Advance;
    Round1Open(d, name, s);
    MemberId(s, m.sender, m.senderId);
    if SameTerms(s, m) && IsMember(s, m.sender, m.senderId) && m.senderId != s.localId && m.package.Some? {
      FullCount(d, name, s, m.senderId, m.package.value);
      if s.secret1.Some? {
        AdvanceExact(Stored(s, m), frost);
      }
    }
  }

  lemma FullSize(m: map<nat, string>, n: nat)
    requires Full(m, n)
    ensures |m| == n
  {
    assert m.Keys == Range(1, n + 1);
    assert |m| == |m.Keys|;
  }

  /** Past Round1 a round-1 message changes nothing; a member's message of the same terms is acknowledged. */
  lemma Ingest1Late(d: Domain, name: string, s: Session, m: Msg1, frost: Frost)
    requires SessionInv(d, name, s) && !s.phase.Round1?
    ensures var (s', r) := Ingest1(s, m, frost);
            && s' == s
            && (r == Ok(()) <==> s.phase.Complete? || (SameTerms(s, m) && IsMember(s, m.sender, m.senderId)))
            && (r.Err? ==> r == Err(Threshold))
  {
    MemberId(s, m.sender, m.senderId);
    hide Preimage, Sorted, IdOf;
  }

  // ---------- round 2 ----------

  /** A round-2 message is stored exactly when it is of this session, for this hub, from a roster member, and parses. */
  lemma Ingest2Exact(d: Domain, name: string, s: Session, m: Msg2)
    requires SessionInv(d, name, s)
    ensures var (s', r) := Ingest2(s, m);
            var meant := m.transcript == s.transcript && m.recipient == name && IsMember(s, m.sender, m.senderId) && m.package.Some?;
            if s.phase.Complete? then s' == s && r == Ok(())
            else if meant then s' == s.(inbox := s.inbox[m.senderId := m.package.value]) && r == Ok(())
            else s' == s && r == Err(Threshold)
  {
    MemberId(s, m.sender, m.senderId);
    hide Preimage, Sorted, IdOf;
  }

  /**
   Outbound packages for roster members are handed over, one message each, and none remains; an unknown
   recipient loses them all.
   */
  lemma TakeExact(s: Session)
    ensures var (s', r) := Take(s);
            && s' == s.(outbound := map[])
            && (r.Ok? <==> forall id :: id in s.outbound ==> 1 <= id <= |s.roster|)
            && (r.Ok? ==> |r.value| == |s.outbound|)
            && (r.Ok? ==> forall id :: id in s.outbound ==>
                  Msg2(s.sid, s.localName, s.localId, s.roster[id - 1], id, s.transcript, Some(s.outbound[id]), false) in r.value)
  {
    if forall id :: id in s.outbound ==> 1 <= id <= |s.roster| {
      forall id | id in s.outbound ensures Wire2(s, id) in Outgoing(s, |s.roster|) {
        OutgoingAll(s, |s.roster|, id);
      }
      OutgoingCount(s, |s.roster|);
      assert s.outbound.Keys == set id | id in s.outbound && id <= |s.roster|;
      assert |s.outbound| == |s.outbound.Keys|;
    }
  }

  lemma {:induction false} OutgoingAll(s: Session, k: nat, id: nat)
    requires 1 <= id <= k <= |s.roster| && id in s.outbound
    ensures Wire2(s, id) in Outgoing(s, k)
  {
    if id < k {
      OutgoingAll(s, k - 1, id);
    }
  }

  lemma {:induction false} OutgoingCount(s: Session, k: nat)
    requires k <= |s.roster| && forall id :: id in s.outbound ==> 1 <= id
    ensures |Outgoing(s, k)| == |set id | id in s.outbound && id <= k|
  {
    hide Wire2;
    var upto := set id | id in s.outbound && id <= k;
    if k == 0 {
      assert upto == {};
    } else {
      OutgoingCount(s, k - 1);
      var before := set id | id in s.outbound && id <= k - 1;
      assert upto == if k in s.outbound then before + {k} else before;
    }
  }

  // ---------- start ----------

  /** A request the roster and the thresholds allow. */
  predicate Sensible(req: StartRequest) {
    2 <= req.min <= req.max && |Canonical(req.names)| == req.max <= U16_MAX
  }

  /** The session a request opens: this node's place is its identifier, its own package the only one. */
  ghost predicate JustOpened(d: Domain, name: string, req: StartRequest, secret: string, package: string, s: Session) {
    && s.sid == req.sid && s.localName == name && s.max == req.max && s.min == req.min && s.roster == Canonical(req.names)
    && s.transcript == Preimage(Tag(d), req.sid, req.max, req.min, s.roster)
    && s.phase.Round1? && !s.closed && s.secret1 == Some(secret) && s.secret2 == None
    && IsMember(s, name, s.localId) && s.packages == map[s.localId := package]
    && s.inbox == map[] && s.outbound == map[] && s.share == None
  }

  lemma OpenedJust(d: Domain, name: string, req: StartRequest, secret: string, package: string)
    requires name in Canonical(req.names)
    ensures var roster := Canonical(req.names);
            var s := Opened(name, req, roster, Preimage(Tag(d), req.sid, req.max, req.min, roster), secret, package);
            JustOpened(d, name, req, secret, package, s)
            && Wire1(s) == Msg1(req.sid, name, s.localId, req.max, req.min, s.transcript, Some(package), false)
  {
    hide Preimage, Canonical, IdOf;
    IdOfNone(Canonical(req.names), name);
  }

  /**
   A new session opens exactly for a sensible request whose roster names this node, with part 1 run, and
   the answer carries its own package; a refusal opens nothing.
   */
  lemma StartExact(d: Domain, name: string, sessions: map<string, Session>, req: StartRequest, part1: Option<(string, string)>)
    requires req.sid !in sessions
    ensures var (after, r) := Start(d, name, sessions, req, part1);
            && (r.Ok? <==> Sensible(req) && name in Canonical(req.names) && part1.Some?)
            && (r.Err? ==> after == sessions && r == Err(Threshold))
            && (r.Ok? ==> req.sid in after && after == sessions[req.sid := after[req.sid]])
            && (r.Ok? ==> JustOpened(d, name, req, part1.value.0, part1.value.1, after[req.sid]))
            && (r.Ok? ==> r.value == Msg1(req.sid, name, after[req.sid].localId, req.max, req.min, after[req.sid].transcript,
                                          Some(part1.value.1), false))
  {
    hide Preimage, Canonical, JustOpened, Opened, Wire1;
    if name in Canonical(req.names) && part1.Some? {
      OpenedJust(d, name, req, part1.value.0, part1.value.1);
    }
  }

  lemma KnownTerms(d: Domain, name: string, s: Session)
    requires SessionInv(d, name, s)
    ensures 2 <= s.min <= s.max == |s.roster| <= U16_MAX && s.localId in s.packages && s.localName == name
    ensures s.transcript == Preimage(Tag(d), s.sid, s.max, s.min, s.roster)
  {
    hide Preimage, Sorted, IdOf, Full, Keyed;
  }

  /** An existing session is answered for again exactly when the request asks for the same constitution. */
  lemma RestartExact(d: Domain, name: string, sessions: map<string, Session>, req: StartRequest, part1: Option<(string, string)>)
    requires HubInv(d, name, sessions) && req.sid in sessions
    ensures var (after, r) := Start(d, name, sessions, req, part1);
            var s := sessions[req.sid];
            && after == sessions
            && (r.Ok? <==> req.max == s.max && req.min == s.min && Canonical(req.names) == s.roster)
            && (r.Ok? ==> r == Ok(Wire1(s)))
            && (r.Err? ==> r == Err(Threshold))
  {
    hide Preimage, Canonical, SessionInv, Opened, Wire1;
    KnownSession(d, name, sessions, req.sid);
    KnownTerms(d, name, sessions[req.sid]);
    assert sessions[req.sid].sid == req.sid;
  }

  // ---------- the key of a finished session ----------

  lemma Ingest1Share(d: Domain, name: string, s: Session, m: Msg1, frost: Frost)
    requires SessionInv(d, name, s) && ShareInv(frost, s)
    ensures ShareInv(frost, Ingest1(s, m, frost).0)
  {
    hide SessionInv, Ingest1, OfTerms, KeyFrom, SameTerms, IsMember, Full, Others;
    if s.phase.Round1? {
      Ingest1Exact(d, name, s, m, frost);
      var s' := Ingest1(s, m, frost).0;
      if s'.phase.Round2? {
        var out := frost.part2(s.secret1.value, Others(Stored(s, m))).value;
        SameOthers(Stored(s, m), s');
        assert frost.part2(s.secret1.value, Others(s')) == Some((s'.secret2.value, out.1));
      }
    } else {
      Ingest1Late(d, name, s, m, frost);
    }
  }

  lemma OtherShare(d: Domain, name: string, s: Session, m: Msg2, frost: Frost, stored: bool)
    requires SessionInv(d, name, s) && ShareInv(frost, s)
    ensures ShareInv(frost, Ingest2(s, m).0) && ShareInv(frost, Take(s).0) && ShareInv(frost, Finalize(s, frost, stored).0)
  {
    Ingest2Exact(d, name, s, m);
    TakeExact(s);
    FinalizeExact(s, frost, stored);
    hide SessionInv, Ingest2, Take, Finalize;
    SameOthers(s, Ingest2(s, m).0);
    SameOthers(s, Take(s).0);
    SameOthers(s, Finalize(s, frost, stored).0);
  }

  lemma SameOthers(s: Session, s': Session)
    requires s'.packages == s.packages && s'.localId == s.localId
    ensures Others(s') == Others(s)
  {
  }

  ghost predicate SharesInv(frost: Frost, sessions: map<string, Session>) {
    forall sid :: sid in sessions ==> ShareInv(frost, sessions[sid])
  }

  lemma StartShare(d: Domain, name: string, frost: Frost, sessions: map<string, Session>, req: StartRequest, part1: Option<(string, string)>)
    requires HubInv(d, name, sessions) && SharesInv(frost, sessions)
    ensures SharesInv(frost, Start(d, name, sessions, req, part1).0)
  {
    if req.sid in sessions {
      RestartExact(d, name, sessions, req, part1);
    } else {
      StartExact(d, name, sessions, req, part1);
    }
    hide Start, Canonical, Preimage, HubInv;
  }

  lemma ApplyShare(d: Domain, name: string, frost: Frost, sessions: map<string, Session>, op: Op)
    requires HubInv(d, name, sessions) && SharesInv(frost, sessions)
    ensures SharesInv(frost, Apply(d, name, frost, sessions, op))
  {
    hide Start, Ingest1, Ingest2, Take, Finalize, HubInv, ShareInv, SessionInv;
    match op {
      case DoStart(req, part1) => StartShare(d, name, frost, sessions, req, part1);
      case DoIngest1(m) =>
        if m.sid in sessions {
          KnownSession(d, name, sessions, m.sid);
          Ingest1Share(d, name, sessions[m.sid], m, frost);
        }
      case DoIngest2(m) =>
        if m.sid in sessions {
          KnownSession(d, name, sessions, m.sid);
          OtherShare(d, name, sessions[m.sid], m, frost, true);
        }
      case DoTake(sid) =>
        if sid in sessions {
          KnownSession(d, name, sessions, sid);
          OtherShare(d, name, sessions[sid], Msg2("", "", 0, "", 0, "", None, false), frost, true);
        }
      case DoFinalize(sid, stored) =>
        if sid in sessions {
          KnownSession(d, name, sessions, sid);
          OtherShare(d, name, sessions[sid], Msg2("", "", 0, "", 0, "", None, false), frost, stored);
        }
    }
  }

  /**
   Over every run of a hub, whatever messages arrive: a finished session holds a share of exactly the
   frozen thresholds, which part 3 gave on the other members' round-1 packages, the packages received in
   round 2 and a secret that part 2 gave on those same round-1 packages; an unfinished session holds none.
   */
  lemma {:induction false} FinishedKey(d: Domain, name: string, frost: Frost, ops: seq<Op>, sid: string)
    requires sid in Run(d, name, frost, map[], ops)
    ensures ShareInv(frost, Run(d, name, frost, map[], ops)[sid])
    ensures SharesInv(frost, Run(d, name, frost, map[], ops))
  {
    hide ShareInv, Apply;
    RunShares(d, name, frost, ops);
  }

  lemma {:induction false} RunShares(d: Domain, name: string, frost: Frost, ops: seq<Op>)
    ensures SharesInv(frost, Run(d, name, frost, map[], ops))
  {
    hide ShareInv, Apply, HubInv;
    if ops != [] {
      RunShares(d, name, frost, ops[..|ops| - 1]);
      EmptyHub(d, name);
      RunInv(d, name, frost, map[], ops[..|ops| - 1]);
      ApplyShare(d, name, frost, Run(d, name, frost, map[], ops[..|ops| - 1]), ops[|ops| - 1]);
    }
  }

  lemma EmptyHub(d: Domain, name: string)
    ensures HubInv(d, name, map[])
  {
  }
}
