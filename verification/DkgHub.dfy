/**
 The over-wire DKG hub of one vault: start, round-1 and round-2 ingest, outbound hand-over and
 finalisation, for the plain and the Taproot machine. The FROST parts are parameters. A roster is
 its sorted list of names and the identifier of a name is its place counted from 1
 (`Roster.BuildRoster`); SHA-256 is taken to be injective, so a transcript is its preimage.
 */
module DkgHub {
  import opened Wrappers
  import opened Sets
  import opened Roster

  datatype Domain = Plain | Taproot

  function Tag(d: Domain): string {
    if d.Plain? then PLAIN else TAPROOT
  }

  datatype Phase = Round1 | Round2 | Complete

  function Rank(p: Phase): nat {
    if p.Round1? then 0 else if p.Round2? then 1 else 2
  }

  /** A key package with its group key, as far as the threshold check reads it. */
  datatype Share = Share(min: nat, groupMin: Option<nat>, groupMax: nat, material: string)

  datatype Frost = Frost(
    part2: (string, map<nat, string>) -> Option<(string, map<nat, string>)>,
    part3: (string, map<nat, string>, map<nat, string>) -> Option<Share>)

  datatype Session = Session(
    sid: string, localName: string, localId: nat, max: nat, min: nat,
    roster: seq<string>, transcript: string, closed: bool, phase: Phase,
    secret1: Option<string>, packages: map<nat, string>,
    secret2: Option<string>, inbox: map<nat, string>, outbound: map<nat, string>,
    share: Option<Share>)

  datatype StartRequest = StartRequest(sid: string, max: nat, min: nat, names: seq<string>)

  /** `package` is None when its hex or its encoding does not parse. */
  datatype Msg1 = Msg1(sid: string, sender: string, senderId: nat, max: nat, min: nat, transcript: string,
                       package: Option<string>, badEnvelope: bool)

  datatype Msg2 = Msg2(sid: string, sender: string, senderId: nat, recipient: string, recipientId: nat,
                       transcript: string, package: Option<string>, badEnvelope: bool)

  // ---------- operations on a session ----------

  function Wire1(s: Session): Msg1
    requires s.localId in s.packages
  {
    Msg1(s.sid, s.localName, s.localId, s.max, s.min, s.transcript, Some(s.packages[s.localId]), false)
  }

  function Opened(name: string, req: StartRequest, roster: seq<string>, transcript: string, secret: string,
                  package: string): Session
  {
    var id := IdOf(roster, name);
    Session(req.sid, name, id, req.max, req.min, roster, transcript, false, Round1,
            Some(secret), map[id := package], None, map[], map[], None)
  }

  /** Validate the request, freeze the constitution, or answer again for the same constitution. */
  function Start(d: Domain, name: string, sessions: map<string, Session>, req: StartRequest,
                 part1: Option<(string, string)>): (map<string, Session>, Result<Msg1>)
  {
    if req.max < 2 || req.min < 2 || req.min > req.max then (sessions, Err(Threshold))
    else match CheckRoster(req.names)
      case Err(e) => (sessions, Err(e))
      case Ok(roster) =>
        var transcript := Preimage(Tag(d), req.sid, req.max, req.min, roster);
        if |roster| != req.max then (sessions, Err(Threshold))
        else if req.sid in sessions then
          var s := sessions[req.sid];
          if s.transcript != transcript || s.max != req.max || s.min != req.min || s.roster != roster
             || s.localId !in s.packages then (sessions, Err(Threshold))
          else (sessions, Ok(Wire1(s)))
        else if name !in roster || part1.None? then (sessions, Err(Threshold))
        else
          var s := Opened(name, req, roster, transcript, part1.value.0, part1.value.1);
          (sessions[req.sid := s], Ok(Wire1(s)))
  }

  /** Run part 2 once; a failure leaves the session without its round-1 secret. */
  function Advance(s: Session, frost: Frost): (Session, Result<()>) {
    if s.secret1.None? then (s, Err(Threshold))
    else match frost.part2(s.secret1.value, s.packages - {s.localId})
      case None => (s.(secret1 := None), Err(Threshold))
      case Some((secret2, outbound)) =>
        (s.(secret1 := None, secret2 := Some(secret2), outbound := outbound, closed := true, phase := Round2), Ok(()))
  }

  function Ingest1(s: Session, m: Msg1, frost: Frost): (Session, Result<()>) {
    if s.phase.Complete? then (s, Ok(()))
    else if m.max != s.max || m.min != s.min || m.transcript != s.transcript then (s, Err(Threshold))
    else if m.senderId == 0 || m.sender !in s.roster || IdOf(s.roster, m.sender) != m.senderId then (s, Err(Threshold))
    else if m.senderId == s.localId then (s, Ok(()))
    else if s.closed || s.phase != Round1 then (s, if m.senderId in s.packages then Ok(()) else Err(Threshold))
    else if m.package.None? then (s, Err(Threshold))
    else
      var s' := s.(packages := s.packages[m.senderId := m.package.value]);
      if |s'.packages| % (U16_MAX + 1) == s.max && s.secret1.Some? then Advance(s', frost) else (s', Ok(()))
  }

  function Ingest2(s: Session, m: Msg2): (Session, Result<()>) {
    if s.phase.Complete? then (s, Ok(()))
    else if m.transcript != s.transcript || m.recipient != s.localName then (s, Err(Threshold))
    else if m.senderId == 0 || m.sender !in s.roster || IdOf(s.roster, m.sender) != m.senderId then (s, Err(Threshold))
    else if m.package.None? then (s, Err(Threshold))
    else (s.(inbox := s.inbox[m.senderId := m.package.value]), Ok(()))
  }

  function Wire2(s: Session, id: nat): Msg2
    requires id in s.outbound && 1 <= id <= |s.roster|
  {
    Msg2(s.sid, s.localName, s.localId, s.roster[id - 1], id, s.transcript, Some(s.outbound[id]), false)
  }

  /** The outbound messages to identifiers up to `k`, in identifier order. */
  function Outgoing(s: Session, k: nat): seq<Msg2>
    requires k <= |s.roster|
  {
    if k == 0 then []
    else if k in s.outbound then Outgoing(s, k - 1) + [Wire2(s, k)]
    else Outgoing(s, k - 1)
  }

  /** Hand the outbound packages over once; an unknown recipient loses them. */
  function Take(s: Session): (Session, Result<seq<Msg2>>) {
    (s.(outbound := map[]),
     if forall id :: id in s.outbound ==> 1 <= id <= |s.roster| then Ok(Outgoing(s, |s.roster|)) else Err(Threshold))
  }

  function MeetsThreshold(k: Share, s: Session): bool {
    k.min == s.min && (k.groupMin.Some? ==> k.groupMin.value == s.min) && k.groupMax == s.max
  }

  function Finalize(s: Session, frost: Frost, stored: bool): (Session, Result<()>) {
    if s.phase.Complete? then (s, Ok(()))
    else if |s.inbox| < s.max - 1 || s.secret2.None? then (s, Err(Threshold))
    else match frost.part3(s.secret2.value, s.packages - {s.localId}, s.inbox)
      case None => (s, Err(Threshold))
      case Some(k) =>
        if !MeetsThreshold(k, s) || !stored then (s, Err(Threshold))
        else (s.(share := Some(k), phase := Complete, secret2 := None), Ok(()))
  }

  // ---------- operations on the hub ----------

  datatype Op =
    | DoStart(req: StartRequest, part1: Option<(string, string)>)
    | DoIngest1(m1: Msg1)
    | DoIngest2(m2: Msg2)
    | DoTake(sid: string)
    | DoFinalize(sid: string, stored: bool)

  function OnSession(sessions: map<string, Session>, sid: string, f: Session -> Session): map<string, Session> {
    if sid in sessions then sessions[sid := f(sessions[sid])] else sessions
  }

  function Apply(d: Domain, name: string, frost: Frost, sessions: map<string, Session>, op: Op): map<string, Session> {
    match op
    case DoStart(req, part1) => Start(d, name, sessions, req, part1).0
    case DoIngest1(m) =>
      if d.Plain? && m.badEnvelope then sessions else OnSession(sessions, m.sid, s => Ingest1(s, m, frost).0)
    case DoIngest2(m) =>
      if d.Plain? && m.badEnvelope then sessions else OnSession(sessions, m.sid, s => Ingest2(s, m).0)
    case DoTake(sid) => OnSession(sessions, sid, s => Take(s).0)
    case DoFinalize(sid, stored) => OnSession(sessions, sid, s => Finalize(s, frost, stored).0)
  }

  // ---------- what every session keeps ----------

  ghost predicate Keyed(m: map<nat, string>, n: nat) {
    forall id :: id in m ==> 1 <= id <= n
  }

  ghost predicate Full(m: map<nat, string>, n: nat) {
    forall id :: id in m <==> 1 <= id <= n
  }

  ghost predicate SessionInv(d: Domain, name: string, s: Session) {
    && Sorted(s.roster) && 2 <= s.min <= s.max == |s.roster| <= U16_MAX
    && s.transcript == Preimage(Tag(d), s.sid, s.max, s.min, s.roster)
    && s.localName == name && name in s.roster && s.localId == IdOf(s.roster, name)
    && s.localId in s.packages && Keyed(s.packages, s.max) && Keyed(s.inbox, s.max)
    && (s.phase.Round1? ==> !s.closed && s.secret2.None? && s.outbound == map[])
    && (!s.phase.Round1? ==> s.closed && s.secret1.None? && Full(s.packages, s.max))
    && (s.phase.Round2? ==> s.secret2.Some?)
    && (s.phase.Complete? ==> |s.inbox| >= s.max - 1)
  }

  /** A session whose part 2 failed. */
  predicate Spent(s: Session) {
    s.phase.Round1? && s.secret1.None?
  }

  /** What may happen to a session once it exists. */
  ghost predicate Evolves(s: Session, s': Session) {
    && s'.sid == s.sid && s'.localName == s.localName && s'.localId == s.localId
    && s'.max == s.max && s'.min == s.min && s'.roster == s.roster && s'.transcript == s.transcript
    && Rank(s.phase) <= Rank(s'.phase)
    && (!s.phase.Round1? ==> s'.packages == s.packages)
    && (s.localId in s.packages ==> s.localId in s'.packages && s'.packages[s.localId] == s.packages[s.localId])
    && (Spent(s) ==> Spent(s'))
  }

  /** What one operation may do: also, Complete is entered from Round2 only. */
  ghost predicate StepsTo(s: Session, s': Session) {
    Evolves(s, s') && (s'.phase.Complete? ==> !s.phase.Round1?)
  }

  /** Package maps have at most one entry a member, and all of them when they are that large. */
  lemma KeyedFull(m: map<nat, string>, n: nat)
    requires Keyed(m, n)
    ensures |m| <= n
    ensures |m| == n ==> Full(m, n)
  {
    assert m.Keys <= Range(1, n + 1);
    SubsetSize(m.Keys, Range(1, n + 1));
    assert |m| == |m.Keys|;
  }

  lemma OpenedInv(d: Domain, name: string, req: StartRequest, roster: seq<string>, secret: string, package: string)
    requires Sorted(roster) && 2 <= req.min <= req.max == |roster| <= U16_MAX && name in roster
    ensures SessionInv(d, name, Opened(name, req, roster, Preimage(Tag(d), req.sid, req.max, req.min, roster), secret, package))
  {
    hide Preimage, Sorted, IdOf;
    IdOfNone(roster, name);
  }

  lemma StartInv(d: Domain, name: string, sessions: map<string, Session>, req: StartRequest, part1: Option<(string, string)>)
    requires var (after, r) := Start(d, name, sessions, req, part1); after != sessions
    ensures var after := Start(d, name, sessions, req, part1).0;
            req.sid !in sessions && after == sessions[req.sid := after[req.sid]] && after[req.sid].sid == req.sid
            && SessionInv(d, name, after[req.sid])
  {
    hide Preimage, Canonical, Sorted, IdOf, SessionInv;
    CanonicalSorted(req.names);
    OpenedInv(d, name, req, CheckRoster(req.names).value, part1.value.0, part1.value.1);
  }

  lemma AdvanceInv(d: Domain, name: string, s: Session, frost: Frost)
    requires SessionInv(d, name, s) && Full(s.packages, s.max) && s.phase.Round1?
    ensures SessionInv(d, name, Advance(s, frost).0) && StepsTo(s, Advance(s, frost).0)
  {
    hide Preimage, Sorted, IdOf;
  }

  lemma AcceptInv(d: Domain, name: string, s: Session, id: nat, package: string)
    requires SessionInv(d, name, s) && 1 <= id <= s.max && id != s.localId && s.phase.Round1?
    ensures var s' := s.(packages := s.packages[id := package]);
            && SessionInv(d, name, s') && StepsTo(s, s')
            && |s'.packages| <= U16_MAX && (|s'.packages| == s.max ==> Full(s'.packages, s.max))
  {
    hide Preimage, Sorted, IdOf;
    KeyedFull(s.packages[id := package], s.max);
  }

  lemma Ingest1Inv(d: Domain, name: string, s: Session, m: Msg1, frost: Frost)
    requires SessionInv(d, name, s)
    ensures SessionInv(d, name, Ingest1(s, m, frost).0) && StepsTo(s, Ingest1(s, m, frost).0)
  {
    IdOfNone(s.roster, m.sender);
    hide Preimage, Sorted, IdOf, Full, Keyed, Advance;
    if Ingest1(s, m, frost).0 != s {
      AcceptInv(d, name, s, m.senderId, m.package.value);
      var s' := s.(packages := s.packages[m.senderId := m.package.value]);
      if |s'.packages| == s.max {
        AdvanceInv(d, name, s', frost);
        EvolvesTrans(s, s', Advance(s', frost).0);
      }
    }
  }

  lemma OtherInv(d: Domain, name: string, s: Session, m: Msg2, frost: Frost, stored: bool)
    requires SessionInv(d, name, s)
    ensures SessionInv(d, name, Ingest2(s, m).0) && StepsTo(s, Ingest2(s, m).0)
    ensures SessionInv(d, name, Take(s).0) && StepsTo(s, Take(s).0)
    ensures SessionInv(d, name, Finalize(s, frost, stored).0) && StepsTo(s, Finalize(s, frost, stored).0)
  {
    hide Preimage, Sorted;
    IdOfNone(s.roster, m.sender);
    hide IdOf;
  }

  ghost predicate HubInv(d: Domain, name: string, sessions: map<string, Session>) {
    forall sid :: sid in sessions ==> SessionInv(d, name, sessions[sid]) && sessions[sid].sid == sid
  }

  /** One hub operation: every session stays sound and every existing one takes an allowed step. */
  ghost predicate HubStep(d: Domain, name: string, sessions: map<string, Session>, after: map<string, Session>) {
    && HubInv(d, name, after)
    && forall sid :: sid in sessions ==> sid in after && StepsTo(sessions[sid], after[sid])
  }

  lemma StartStep(d: Domain, name: string, sessions: map<string, Session>, req: StartRequest, part1: Option<(string, string)>)
    requires HubInv(d, name, sessions)
    ensures HubStep(d, name, sessions, Start(d, name, sessions, req, part1).0)
  {
    hide SessionInv, Start;
    if Start(d, name, sessions, req, part1).0 != sessions {
      StartInv(d, name, sessions, req, part1);
    }
  }

  lemma KnownSession(d: Domain, name: string, sessions: map<string, Session>, sid: string)
    requires HubInv(d, name, sessions) && sid in sessions
    ensures SessionInv(d, name, sessions[sid])
  {
    hide SessionInv;
  }

  lemma Unchanged(d: Domain, name: string, sessions: map<string, Session>)
    requires HubInv(d, name, sessions)
    ensures HubStep(d, name, sessions, sessions)
  {
    hide SessionInv;
    forall sid | sid in sessions ensures StepsTo(sessions[sid], sessions[sid]) {
    }
  }

  /** One session moves, the others stay. */
  lemma ReplaceInv(d: Domain, name: string, sessions: map<string, Session>, sid: string, s: Session)
    requires HubInv(d, name, sessions) && sid in sessions
    requires SessionInv(d, name, s) && StepsTo(sessions[sid], s)
    ensures HubStep(d, name, sessions, sessions[sid := s])
  {
    hide SessionInv;
    Unchanged(d, name, sessions);
    assert sessions[sid].sid == sid;
  }

  lemma Ingest1Step(d: Domain, name: string, frost: Frost, sessions: map<string, Session>, m: Msg1)
    requires HubInv(d, name, sessions)
    ensures HubStep(d, name, sessions, Apply(d, name, frost, sessions, DoIngest1(m)))
  {
    hide Ingest1, SessionInv, HubInv, HubStep, StepsTo;
    Unchanged(d, name, sessions);
    if m.sid in sessions {
      KnownSession(d, name, sessions, m.sid);
      Ingest1Inv(d, name, sessions[m.sid], m, frost);
      ReplaceInv(d, name, sessions, m.sid, Ingest1(sessions[m.sid], m, frost).0);
    }
  }

  lemma Ingest2Step(d: Domain, name: string, frost: Frost, sessions: map<string, Session>, m: Msg2)
    requires HubInv(d, name, sessions)
    ensures HubStep(d, name, sessions, Apply(d, name, frost, sessions, DoIngest2(m)))
  {
    hide Ingest2, Take, Finalize, SessionInv, HubInv, HubStep, StepsTo;
    Unchanged(d, name, sessions);
    if m.sid in sessions {
      KnownSession(d, name, sessions, m.sid);
      OtherInv(d, name, sessions[m.sid], m, frost, true);
      ReplaceInv(d, name, sessions, m.sid, Ingest2(sessions[m.sid], m).0);
    }
  }

  lemma TakeStep(d: Domain, name: string, frost: Frost, sessions: map<string, Session>, sid: string)
    requires HubInv(d, name, sessions)
    ensures HubStep(d, name, sessions, Apply(d, name, frost, sessions, DoTake(sid)))
  {
    hide Ingest2, Take, Finalize, SessionInv, HubInv, HubStep, StepsTo;
    Unchanged(d, name, sessions);
    if sid in sessions {
      KnownSession(d, name, sessions, sid);
      OtherInv(d, name, sessions[sid], Msg2("", "", 0, "", 0, "", None, false), frost, true);
      ReplaceInv(d, name, sessions, sid, Take(sessions[sid]).0);
    }
  }

  lemma FinalizeStep(d: Domain, name: string, frost: Frost, sessions: map<string, Session>, sid: string, stored: bool)
    requires HubInv(d, name, sessions)
    ensures HubStep(d, name, sessions, Apply(d, name, frost, sessions, DoFinalize(sid, stored)))
  {
    hide Ingest2, Take, Finalize, SessionInv, HubInv, HubStep, StepsTo;
    Unchanged(d, name, sessions);
    if sid in sessions {
      KnownSession(d, name, sessions, sid);
      OtherInv(d, name, sessions[sid], Msg2("", "", 0, "", 0, "", None, false), frost, stored);
      ReplaceInv(d, name, sessions, sid, Finalize(sessions[sid], frost, stored).0);
    }
  }

  lemma ApplyInv(d: Domain, name: string, frost: Frost, sessions: map<string, Session>, op: Op)
    requires HubInv(d, name, sessions)
    ensures HubStep(d, name, sessions, Apply(d, name, frost, sessions, op))
  {
    hide Start, HubInv, HubStep, OnSession;
    match op {
      case DoStart(req, part1) => StartStep(d, name, sessions, req, part1);
      case DoIngest1(m) => Ingest1Step(d, name, frost, sessions, m);
      case DoIngest2(m) => Ingest2Step(d, name, frost, sessions, m);
      case DoTake(sid) => TakeStep(d, name, frost, sessions, sid);
      case DoFinalize(sid, stored) => FinalizeStep(d, name, frost, sessions, sid, stored);
    }
  }

  function Run(d: Domain, name: string, frost: Frost, sessions: map<string, Session>, ops: seq<Op>): map<string, Session> {
    if ops == [] then sessions else Apply(d, name, frost, Run(d, name, frost, sessions, ops[..|ops| - 1]), ops[|ops| - 1])
  }

  lemma EvolvesTrans(a: Session, b: Session, c: Session)
    requires Evolves(a, b) && Evolves(b, c)
    ensures Evolves(a, c)
  {
  }

  /**
   Under arbitrary messages, whoever sends them: a session's constitution never changes, its phase
   only moves forward, package keys stay inside the roster, the round-1 map is full and immutable from
   Round2 on, a session whose part 2 failed never leaves Round1, and Complete is entered from Round2 only.
   */
  lemma {:induction false} SessionSafety(d: Domain, name: string, frost: Frost, before: seq<Op>, after: seq<Op>, sid: string)
    requires sid in Run(d, name, frost, map[], before)
    ensures var s := Run(d, name, frost, map[], before)[sid];
            var later := Run(d, name, frost, Run(d, name, frost, map[], before), after);
            && sid in later && SessionInv(d, name, s) && SessionInv(d, name, later[sid]) && Evolves(s, later[sid])
            && (forall op :: HubStep(d, name, later, Apply(d, name, frost, later, op)))
  {
    hide SessionInv, Apply, Evolves;
    RunInv(d, name, frost, map[], before);
    var mid := Run(d, name, frost, map[], before);
    RunInv(d, name, frost, mid, after);
    var later := Run(d, name, frost, mid, after);
    forall op ensures HubStep(d, name, later, Apply(d, name, frost, later, op)) {
      ApplyInv(d, name, frost, later, op);
    }
  }

  lemma {:induction false} RunInv(d: Domain, name: string, frost: Frost, sessions: map<string, Session>, ops: seq<Op>)
    requires HubInv(d, name, sessions)
    ensures HubInv(d, name, Run(d, name, frost, sessions, ops))
    ensures forall sid :: sid in sessions ==>
              sid in Run(d, name, frost, sessions, ops) && Evolves(sessions[sid], Run(d, name, frost, sessions, ops)[sid])
  {
    hide SessionInv, Apply;
    if ops != [] {
      var mid := Run(d, name, frost, sessions, ops[..|ops| - 1]);
      RunInv(d, name, frost, sessions, ops[..|ops| - 1]);
      ApplyInv(d, name, frost, mid, ops[|ops| - 1]);
      hide Evolves;
      forall sid | sid in sessions ensures Evolves(sessions[sid], Run(d, name, frost, sessions, ops)[sid]) {
        EvolvesTrans(sessions[sid], mid[sid], Run(d, name, frost, sessions, ops)[sid]);
      }
    }
  }

  // ---------- the hub as the source writes it ----------

  class WireDkgHub {
    const domain: Domain
    const localName: string
    const frost: Frost
    var sessions: map<string, Session>
    var completed: Option<(Share, nat)>

    constructor (domain: Domain, localName: string, frost: Frost)
      ensures this.domain == domain && this.localName == localName && this.frost == frost
      ensures sessions == map[] && completed == None
    {
      this.domain, this.localName, this.frost := domain, localName, frost;
      sessions, completed := map[], None;
    }

    method StartSession(req: StartRequest, part1: Option<(string, string)>) returns (r: Result<Msg1>)
      modifies this`sessions
      ensures (sessions, r) == Start(domain, localName, old(sessions), req, part1)
    {
      hide Preimage, Canonical, IdOf;
      if req.max < 2 || req.min < 2 || req.min > req.max {
        return Err(Threshold);
      }
      var checked := CheckRoster(req.names);
      if checked.Err? {
        return Err(checked.error);
      }
      var roster := checked.value;
      if |roster| != req.max {
        return Err(Threshold);
      }
      var transcript := Preimage(Tag(domain), req.sid, req.max, req.min, roster);
      if req.sid in sessions {
        var s := sessions[req.sid];
        if s.transcript != transcript || s.max != req.max || s.min != req.min || s.roster != roster {
          return Err(Threshold);
        }
        if s.localId !in s.packages {
          return Err(Threshold);
        }
        return Ok(Wire1(s));
      }
      if localName !in roster {
        return Err(Threshold);
      }
      if part1.None? {
        return Err(Threshold);
      }
      var (secret, package) := part1.value;
      var s := Opened(localName, req, roster, transcript, secret, package);
      sessions := sessions[req.sid := s];
      return Ok(Wire1(s));
    }

    method IngestRound1(m: Msg1) returns (r: Result<()>)
      modifies this`sessions
      ensures sessions == Apply(domain, localName, frost, old(sessions), DoIngest1(m))
      ensures r == if (domain.Plain? && m.badEnvelope) || m.sid !in old(sessions) then Err(Threshold)
                   else Ingest1(old(sessions)[m.sid], m, frost).1
    {
      hide Ingest1;
      if domain.Plain? && m.badEnvelope {
        return Err(Threshold);
      }
      if m.sid !in sessions {
        return Err(Threshold);
      }
      var s;
      s, r := AcceptRound1(sessions[m.sid], m);
      sessions := sessions[m.sid := s];
    }

    /** The body of the ingest under the session lock. */
    method AcceptRound1(s0: Session, m: Msg1) returns (s: Session, r: Result<()>)
      ensures (s, r) == Ingest1(s0, m, frost)
    {
      hide IdOf, Advance;
      s := s0;
      if s.phase.Complete? {
        return s, Ok(());
      }
      if m.max != s.max || m.min != s.min {
        return s, Err(Threshold);
      }
      if m.transcript != s.transcript {
        return s, Err(Threshold);
      }
      if m.senderId == 0 {
        return s, Err(Threshold);
      }
      if m.sender !in s.roster || IdOf(s.roster, m.sender) != m.senderId {
        return s, Err(Threshold);
      }
      if m.senderId == s.localId {
        return s, Ok(());
      }
      if s.closed || s.phase != Round1 {
        return s, if m.senderId in s.packages then Ok(()) else Err(Threshold);
      }
      if m.package.None? {
        return s, Err(Threshold);
      }
      s := s.(packages := s.packages[m.senderId := m.package.value]);
      r := Ok(());
      if |s.packages| % (U16_MAX + 1) == s.max && s.secret1.Some? && s.phase == Round1 {
        s, r := AdvanceToRound2(s);
      }
    }

    method AdvanceToRound2(s: Session) returns (s': Session, r: Result<()>)
      ensures (s', r) == Advance(s, frost)
    {
      if s.secret1.None? {
        return s, Err(Threshold);
      }
      s' := s.(secret1 := None);
      var received := s'.packages - {s'.localId};
      var out := frost.part2(s.secret1.value, received);
      if out.None? {
        return s', Err(Threshold);
      }
      s' := s'.(secret2 := Some(out.value.0));
      s' := s'.(outbound := out.value.1);
      s' := s'.(closed := true);
      s' := s'.(phase := Round2);
      r := Ok(());
    }

    method TakeRound2Outbound(sid: string) returns (r: Result<seq<Msg2>>)
      modifies this`sessions
      ensures sessions == Apply(domain, localName, frost, old(sessions), DoTake(sid))
      ensures r == if sid !in old(sessions) then Err(Threshold) else Take(old(sessions)[sid]).1
    {
      if sid !in sessions {
        return Err(Threshold);
      }
      var s := sessions[sid];
      sessions := sessions[sid := s.(outbound := map[])];
      if exists id :: id in s.outbound && !(1 <= id <= |s.roster|) {
        return Err(Threshold);
      }
      var out: seq<Msg2> := [];
      var id := 0;
      while id < |s.roster|
        invariant id <= |s.roster| && out == Outgoing(s, id)
        invariant sessions == old(sessions)[sid := s.(outbound := map[])]
      {
        id := id + 1;
        if id in s.outbound {
          out := out + [Wire2(s, id)];
        }
      }
      return Ok(out);
    }

    method IngestRound2(m: Msg2) returns (r: Result<()>)
      modifies this`sessions
      ensures sessions == Apply(domain, localName, frost, old(sessions), DoIngest2(m))
      ensures r == if (domain.Plain? && m.badEnvelope) || m.sid !in old(sessions) then Err(Threshold)
                   else Ingest2(old(sessions)[m.sid], m).1
    {
      hide Ingest2;
      if domain.Plain? && m.badEnvelope {
        return Err(Threshold);
      }
      if m.sid !in sessions {
        return Err(Threshold);
      }
      var s;
      s, r := AcceptRound2(sessions[m.sid], m);
      sessions := sessions[m.sid := s];
    }

    method AcceptRound2(s0: Session, m: Msg2) returns (s: Session, r: Result<()>)
      ensures (s, r) == Ingest2(s0, m)
    {
      hide IdOf;
      s := s0;
      if s.phase.Complete? {
        return s, Ok(());
      }
      if m.transcript != s.transcript {
        return s, Err(Threshold);
      }
      if m.recipient != s.localName {
        return s, Err(Threshold);
      }
      if m.senderId == 0 || m.sender !in s.roster || IdOf(s.roster, m.sender) != m.senderId {
        return s, Err(Threshold);
      }
      if m.package.None? {
        return s, Err(Threshold);
      }
      s := s.(inbox := s.inbox[m.senderId := m.package.value]);
      r := Ok(());
    }

    method FinalizeRound3(sid: string, stored: bool) returns (r: Result<()>)
      modifies this
      ensures sessions == Apply(domain, localName, frost, old(sessions), DoFinalize(sid, stored))
      ensures r == if sid !in old(sessions) then Err(Threshold) else Finalize(old(sessions)[sid], frost, stored).1
      ensures completed == if r.Ok? && !old(sessions)[sid].phase.Complete?
                           then Some((sessions[sid].share.value, sessions[sid].min)) else old(completed)
    {
      hide Finalize;
      if sid !in sessions {
        return Err(Threshold);
      }
      var before := sessions[sid];
      var s;
      s, r := FinishSession(before, stored);
      sessions := sessions[sid := s];
      if r.Ok? && !before.phase.Complete? {
        completed := Some((s.share.value, s.min));
      }
    }

    method FinishSession(s0: Session, stored: bool) returns (s: Session, r: Result<()>)
      ensures (s, r) == Finalize(s0, frost, stored)
      ensures r.Ok? && !s0.phase.Complete? ==> s.share.Some?
    {
      s := s0;
      if s.phase.Complete? {
        return s, Ok(());
      }
      var need := if s.max == 0 then 0 else s.max - 1;
      if |s.inbox| < need {
        return s, Err(Threshold);
      }
      if s.secret2.None? {
        return s, Err(Threshold);
      }
      var received := s.packages - {s.localId};
      var k := frost.part3(s.secret2.value, received, s.inbox);
      if k.None? {
        return s, Err(Threshold);
      }
      if !MeetsThreshold(k.value, s) {
        return s, Err(Threshold);
      }
      if !stored {
        return s, Err(Threshold);
      }
      s := s.(share := k, phase := Complete, secret2 := None);
      r := Ok(());
    }
  }
}
