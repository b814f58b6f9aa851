/**
 The peer side of over-the-wire FROST co-signing: a commit draws a nonce and parks it under its
 session, a sign-share request takes it out again. What matters is that no nonce signs twice.
 */
module CosignPeer {
  import opened Wrappers

  /** A nonce is known by the draw that produced it. */
  datatype Pending = Pending(nonce: nat, message: string)

  /** A commit request; `message` is None when its hex does not decode. */
  datatype CommitRequest = CommitRequest(sid: string, message: Option<string>)

  /** What a signing package holds: the message and the identifiers that committed. */
  datatype Package = Package(message: string, signers: set<nat>)

  /** A sign-share request; `package` is None when hex or encoding is bad. */
  datatype SignRequest = SignRequest(sid: string, package: Option<Package>, participants: seq<string>)

  /** What the attached anti-nonce ledger answers, if one is attached. */
  datatype AntiNonceAnswer = NotAttached | CheckFailed | AlreadyConsumed | ObserveFailed | Observed

  /** One call of FROST round 2: the nonce it consumes, its session and the package it signs. */
  datatype Use = Use(nonce: nat, sid: string, package: Package)

  /** The local share's identifier: a wire co-sign peer holds exactly one. */
  function LocalShare(keys: seq<nat>): Option<nat> {
    if |keys| == 1 then Some(keys[0]) else None
  }

  /** Round 1 at a peer. `keys` is empty when no share is installed, `nonce` the fresh draw. */
  function Commit(pending: map<string, Pending>, req: CommitRequest, keys: seq<nat>, nonce: nat, encoded: bool)
    : (map<string, Pending>, Result<nat>)
  {
    if req.message.None? || LocalShare(keys).None? || !encoded then (pending, Err(Threshold))
    else (pending[req.sid := Pending(nonce, req.message.value)], Ok(nonce))
  }

  /** Outcome of a sign-share call: the pending rounds left, the round-2 call made if any, the answer. */
  datatype Signed = Signed(pending: map<string, Pending>, made: Option<Use>, answer: Result<Option<Use>>)

  /** Round 2 at a peer; `signs` says whether FROST produces a share. */
  function SignShare(pending: map<string, Pending>, name: string, req: SignRequest,
                     anti: AntiNonceAnswer, keys: seq<nat>, signs: bool): Signed
  {
    var rest := pending - {req.sid};
    if req.participants != [] && name !in req.participants then Signed(rest, None, Ok(None))
    else if req.sid !in pending then Signed(pending, None, Err(Threshold))
    else
      var entry := pending[req.sid];
      if req.package.None? || req.package.value.message != entry.message then Signed(rest, None, Err(Threshold))
      else match anti
        case CheckFailed => Signed(rest, None, Err(Threshold))
        case AlreadyConsumed => Signed(rest, None, Err(SessionConsumed))
        case ObserveFailed => Signed(rest, None, Err(Threshold))
        case _ =>
          if LocalShare(keys).None? then Signed(rest, None, Err(Threshold))
          else if LocalShare(keys).value !in req.package.value.signers then Signed(rest, None, Ok(None))
          else
            var use := Use(entry.nonce, req.sid, req.package.value);
            Signed(rest, Some(use), if signs then Ok(Some(use)) else Err(Threshold))
  }

  // ---------- runs ----------

  datatype Call =
    | CommitCall(commit: CommitRequest, keys: seq<nat>, nonce: nat, encoded: bool)
    | SignCall(sign: SignRequest, anti: AntiNonceAnswer, keys: seq<nat>, signs: bool)

  /** The pending rounds after a sequence of calls, and every round-2 call made on the way. */
  function Run(name: string, calls: seq<Call>): (map<string, Pending>, seq<Use>) {
    if calls == [] then (map[], [])
    else
      var (pending, uses) := Run(name, calls[..|calls| - 1]);
      match calls[|calls| - 1]
      case CommitCall(req, keys, nonce, encoded) => (Commit(pending, req, keys, nonce, encoded).0, uses)
      case SignCall(req, anti, keys, signs) =>
        var s := SignShare(pending, name, req, anti, keys, signs);
        (s.pending, if s.made.Some? then uses + [s.made.value] else uses)
  }

  /** Every nonce drawn, with the session and message it was committed to. */
  function Drawn(calls: seq<Call>): set<(nat, string, string)> {
    if calls == [] then {}
    else
      Drawn(calls[..|calls| - 1]) +
      match calls[|calls| - 1]
      case CommitCall(req, _, nonce, _) => if req.message.Some? then {(nonce, req.sid, req.message.value)} else {}
      case SignCall(_, _, _, _) => {}
  }

  /** The random generator never draws the same nonce twice. */
  predicate FreshDraws(calls: seq<Call>) {
    forall i, j :: 0 <= i < j < |calls| && calls[i].CommitCall? && calls[j].CommitCall? ==> calls[i].nonce != calls[j].nonce
  }

  ghost predicate FromDraw(calls: seq<Call>, nonce: nat, sid: string, message: string) {
    (nonce, sid, message) in Drawn(calls)
  }

  /** Pending and used nonces all differ, and each is tied to the commit that drew it. */
  ghost predicate Inv(calls: seq<Call>, pending: map<string, Pending>, uses: seq<Use>) {
    && (forall s :: s in pending ==> FromDraw(calls, pending[s].nonce, s, pending[s].message))
    && (forall u :: u in uses ==> FromDraw(calls, u.nonce, u.sid, u.package.message))
    && (forall s, t :: s in pending && t in pending && s != t ==> pending[s].nonce != pending[t].nonce)
    && (forall s, u :: s in pending && u in uses ==> pending[s].nonce != u.nonce)
    && (forall i, j :: 0 <= i < j < |uses| ==> uses[i].nonce != uses[j].nonce)
  }

  /** A drawn nonce came from one of the calls. */
  lemma {:induction false} DrawnByCall(calls: seq<Call>, d: (nat, string, string)) returns (i: nat)
    requires d in Drawn(calls)
    ensures i < |calls| && calls[i].CommitCall? && calls[i].nonce == d.0
    ensures calls[i].commit == CommitRequest(d.1, Some(d.2))
  {
    var init := calls[..|calls| - 1];
    if d in Drawn(init) {
      i := DrawnByCall(init, d);
    } else {
      i := |calls| - 1;
    }
  }

  /** A fresh draw differs from every earlier one. */
  lemma NewDraw(calls: seq<Call>)
    requires calls != [] && FreshDraws(calls) && calls[|calls| - 1].CommitCall?
    ensures forall d :: d in Drawn(calls[..|calls| - 1]) ==> d.0 != calls[|calls| - 1].nonce
  {
    forall d | d in Drawn(calls[..|calls| - 1]) ensures d.0 != calls[|calls| - 1].nonce {
      var i := DrawnByCall(calls[..|calls| - 1], d);
    }
  }

  lemma InvMore(calls: seq<Call>, more: seq<Call>, pending: map<string, Pending>, uses: seq<Use>)
    requires Inv(calls, pending, uses) && more != [] && calls == more[..|more| - 1]
    ensures Inv(more, pending, uses)
  {
    assert Drawn(calls) <= Drawn(more);
    hide Drawn;
  }

  /** A fresh nonce joins the pending ones. */
  lemma CommitInv(before: seq<Call>, calls: seq<Call>, pending: map<string, Pending>, uses: seq<Use>,
                  req: CommitRequest, keys: seq<nat>, nonce: nat, encoded: bool)
    requires Inv(before, pending, uses) && Inv(calls, pending, uses)
    requires forall d :: d in Drawn(before) ==> d.0 != nonce
    requires req.message.Some? ==> FromDraw(calls, nonce, req.sid, req.message.value)
    ensures Inv(calls, Commit(pending, req, keys, nonce, encoded).0, uses)
  {
    hide Drawn;
  }

  /** A parked nonce leaves, and may be used on the way out. */
  lemma SignInv(calls: seq<Call>, pending: map<string, Pending>, uses: seq<Use>, name: string,
                req: SignRequest, anti: AntiNonceAnswer, keys: seq<nat>, signs: bool)
    requires Inv(calls, pending, uses)
    ensures var s := SignShare(pending, name, req, anti, keys, signs);
            Inv(calls, s.pending, if s.made.Some? then uses + [s.made.value] else uses)
  {
    hide Drawn, FromDraw;
  }

  lemma {:induction false} RunInv(name: string, calls: seq<Call>)
    requires FreshDraws(calls)
    ensures Inv(calls, Run(name, calls).0, Run(name, calls).1)
  {
    if calls != [] {
      var init, last := calls[..|calls| - 1], calls[|calls| - 1];
      RunInv(name, init);
      var (pending, uses) := Run(name, init);
      InvMore(init, calls, pending, uses);
      hide Inv;
      match last
      case CommitCall(req, keys, nonce, encoded) =>
        NewDraw(calls);
        CommitInv(init, calls, pending, uses, req, keys, nonce, encoded);
      case SignCall(req, anti, keys, signs) =>
        SignInv(calls, pending, uses, name, req, anti, keys, signs);
    }
  }

  /**
   Nonce single use, over every sequence of commit and sign-share calls, overwrites and error exits
   included: no two round-2 calls share a nonce, and each signs the message, in the session, that
   its nonce was committed to.
   */
  lemma NonceSingleUse(name: string, calls: seq<Call>)
    requires FreshDraws(calls)
    ensures var uses := Run(name, calls).1;
            && (forall i, j :: 0 <= i < j < |uses| ==> uses[i].nonce != uses[j].nonce)
            && (forall u :: u in uses ==>
                  exists i :: 0 <= i < |calls| && calls[i].CommitCall? && calls[i].nonce == u.nonce
                    && calls[i].commit == CommitRequest(u.sid, Some(u.package.message)))
  {
    hide Run;
    var uses := Run(name, calls).1;
    RunInv(name, calls);
    forall u | u in uses
      ensures exists i :: 0 <= i < |calls| && calls[i].CommitCall? && calls[i].nonce == u.nonce
                && calls[i].commit == CommitRequest(u.sid, Some(u.package.message))
    {
      var i := DrawnByCall(calls, (u.nonce, u.sid, u.package.message));
    }
  }

  /**
   A request that is answered at all ends its round, whatever the answer: a second request for the
   session is refused or ignored until a new commit, and makes no round-2 call.
   */
  lemma OneAnswerPerCommit(pending: map<string, Pending>, name: string, first: SignRequest, second: SignRequest,
                           a: AntiNonceAnswer, b: AntiNonceAnswer, keys: seq<nat>, keys': seq<nat>, s: bool, t: bool)
    requires second.sid == first.sid
    ensures var after := SignShare(pending, name, first, a, keys, s).pending;
            var r := SignShare(after, name, second, b, keys', t);
            && after == pending - {first.sid}
            && r.made == None && r.pending == after
            && (r.answer == if second.participants != [] && name !in second.participants then Ok(None) else Err(Threshold))
  {
    assert first.sid !in pending ==> pending - {first.sid} == pending;
  }

  /** A share leaves the peer exactly when the parked round matches and nothing refuses it. */
  lemma SharesIff(pending: map<string, Pending>, name: string, req: SignRequest,
                  anti: AntiNonceAnswer, keys: seq<nat>, signs: bool)
    ensures var r := SignShare(pending, name, req, anti, keys, signs).answer;
            (r.Ok? && r.value.Some?) <==>
              && (req.participants == [] || name in req.participants)
              && req.sid in pending && req.package.Some? && req.package.value.message == pending[req.sid].message
              && (anti.NotAttached? || anti.Observed?)
              && |keys| == 1 && keys[0] in req.package.value.signers && signs
  {
  }

  /** What a request that does not share is answered, and when it makes a round-2 call. */
  lemma SignShareExact(pending: map<string, Pending>, name: string, req: SignRequest,
                       anti: AntiNonceAnswer, keys: seq<nat>, signs: bool)
    ensures var s := SignShare(pending, name, req, anti, keys, signs);
            var wanted := req.participants == [] || name in req.participants;
            var matching := req.sid in pending && req.package.Some? && req.package.value.message == pending[req.sid].message;
            var allowed := anti.NotAttached? || anti.Observed?;
            && (s.made.Some? <==> wanted && matching && allowed && |keys| == 1 && keys[0] in req.package.value.signers)
            && (s.made.Some? ==> s.made.value == Use(pending[req.sid].nonce, req.sid, req.package.value))
            && (s.answer == Ok(None) <==>
                  !wanted || (matching && allowed && |keys| == 1 && keys[0] !in req.package.value.signers))
            && (s.answer == Err(SessionConsumed) <==> wanted && matching && anti.AlreadyConsumed?)
            && (s.answer.Err? ==> s.answer.error == SessionConsumed || s.answer.error == Threshold)
            && s.pending == pending - {req.sid}
  {
    assert req.sid !in pending ==> pending - {req.sid} == pending;
  }

  /**
   Round 1 answers Ok exactly when the message decodes, one share is installed and the commitment
   serialises. It then parks the fresh nonce with the message under the session, in place of whatever was
   parked there; a refusal leaves every parked round alone.
   */
  lemma CommitExact(pending: map<string, Pending>, req: CommitRequest, keys: seq<nat>, nonce: nat, encoded: bool)
    ensures var (after, r) := Commit(pending, req, keys, nonce, encoded);
            && (r.Ok? <==> req.message.Some? && |keys| == 1 && encoded)
            && (r.Ok? ==> r.value == nonce && req.sid in after && after[req.sid] == Pending(nonce, req.message.value))
            && (r.Err? ==> after == pending && r == Err(Threshold))
            && (forall sid :: sid != req.sid ==> (sid in after <==> sid in pending) && (sid in pending ==> after[sid] == pending[sid]))
  {
  }

  /** The session a call is about. */
  function SidOf(c: Call): string {
    match c
    case CommitCall(req, _, _, _) => req.sid
    case SignCall(req, _, _, _) => req.sid
  }

  predicate AboutOthers(calls: seq<Call>, sid: string) {
    forall c :: c in calls ==> SidOf(c) != sid
  }

  /** Calls for other sessions leave a session's parked round alone. */
  lemma {:induction false} OthersKeep(name: string, before: seq<Call>, calls: seq<Call>, sid: string)
    requires AboutOthers(calls, sid)
    ensures var (p, p') := (Run(name, before).0, Run(name, before + calls).0);
            (sid in p' <==> sid in p) && (sid in p ==> p'[sid] == p[sid])
  {
    hide Run, SidOf;
    if calls == [] {
      assert before + calls == before;
    } else {
      var init, last := calls[..|calls| - 1], calls[|calls| - 1];
      assert last in calls && forall c :: c in init ==> c in calls;
      OthersKeep(name, before, init, sid);
      assert before + calls == before + init + [last];
      OtherCall(name, before + init, last, sid);
    }
  }

  lemma OtherCall(name: string, before: seq<Call>, call: Call, sid: string)
    requires SidOf(call) != sid
    ensures var (p, p') := (Run(name, before).0, Run(name, before + [call]).0);
            (sid in p' <==> sid in p) && (sid in p ==> p'[sid] == p[sid])
  {
    assert (before + [call])[..|before|] == before;
    var p := Run(name, before).0;
    match call
    case CommitCall(req, keys, nonce, encoded) => CommitExact(p, req, keys, nonce, encoded);
    case SignCall(req, anti, keys, signs) => SignShareExact(p, name, req, anti, keys, signs);
  }

  lemma RunCommit(name: string, before: seq<Call>, req: CommitRequest, keys: seq<nat>, nonce: nat, encoded: bool)
    ensures Run(name, before + [CommitCall(req, keys, nonce, encoded)]).0 ==
            Commit(Run(name, before).0, req, keys, nonce, encoded).0
  {
    hide Commit;
    var calls := before + [CommitCall(req, keys, nonce, encoded)];
    assert calls[..|calls| - 1] == before;
  }

  /**
   Commit, then sign: after an accepted commit and any calls about other sessions, whatever came before,
   a sign-share request with that message, an anti-nonce ledger that allows it, the local identifier in
   the package and a signing FROST answers with exactly that nonce, session and package.
   */
  lemma CommitThenSign(name: string, before: seq<Call>, req: CommitRequest, keys: seq<nat>, nonce: nat,
                       others: seq<Call>, sign: SignRequest, anti: AntiNonceAnswer, local: nat)
    requires req.message.Some? && |keys| == 1 && AboutOthers(others, req.sid)
    requires sign.sid == req.sid && sign.package.Some? && sign.package.value.message == req.message.value
    requires (sign.participants == [] || name in sign.participants) && (anti.NotAttached? || anti.Observed?)
    requires local in sign.package.value.signers
    ensures var pending := Run(name, before + [CommitCall(req, keys, nonce, true)] + others).0;
            var s := SignShare(pending, name, sign, anti, [local], true);
            var use := Use(nonce, req.sid, sign.package.value);
            s.answer == Ok(Some(use)) && s.made == Some(use) && req.sid !in s.pending
  {
    hide Run, Commit, AboutOthers;
    var first := before + [CommitCall(req, keys, nonce, true)];
    RunCommit(name, before, req, keys, nonce, true);
    CommitExact(Run(name, before).0, req, keys, nonce, true);
    OthersKeep(name, first, others, req.sid);
  }

  /** The round-2 calls of a run are exactly the ones its sign-share requests made, in order. */
  lemma RunSign(name: string, before: seq<Call>, req: SignRequest, anti: AntiNonceAnswer, keys: seq<nat>, signs: bool)
    ensures var (pending, uses) := Run(name, before);
            var s := SignShare(pending, name, req, anti, keys, signs);
            Run(name, before + [SignCall(req, anti, keys, signs)]) ==
              (s.pending, if s.made.Some? then uses + [s.made.value] else uses)
  {
    hide SignShare;
    var calls := before + [SignCall(req, anti, keys, signs)];
    assert calls[..|calls| - 1] == before;
  }

  class TrCosignPeerState {
    const name: string
    var pending: map<string, Pending>

    constructor (name: string)
      ensures this.name == name && pending == map[]
    {
      this.name := name;
      pending := map[];
    }

    method HandleCommit(req: CommitRequest, keys: seq<nat>, nonce: nat, encoded: bool) returns (r: Result<nat>)
      modifies this`pending
      ensures (pending, r) == Commit(old(pending), req, keys, nonce, encoded)
    {
      if req.message.None? {
        return Err(Threshold);
      }
      if |keys| != 1 {
        return Err(Threshold);
      }
      if !encoded {
        return Err(Threshold);
      }
      pending := pending[req.sid := Pending(nonce, req.message.value)];
      return Ok(nonce);
    }

    /** The parked round is taken out before anything is checked, so no exit leaves it behind. */
    method HandleSignShare(req: SignRequest, anti: AntiNonceAnswer, keys: seq<nat>, signs: bool)
      returns (r: Result<Option<Use>>, ghost made: Option<Use>)
      modifies this`pending
      ensures Signed(pending, made, r) == SignShare(old(pending), name, req, anti, keys, signs)
    {
      made := None;
      if req.participants != [] && name !in req.participants {
        pending := pending - {req.sid};
        return Ok(None), None;
      }
      if req.sid !in pending {
        return Err(Threshold), None;
      }
      var entry := pending[req.sid];
      pending := pending - {req.sid};
      if req.package.None? {
        return Err(Threshold), None;
      }
      var package := req.package.value;
      if package.message != entry.message {
        return Err(Threshold), None;
      }
      if anti.CheckFailed? || anti.ObserveFailed? {
        return Err(Threshold), None;
      }
      if anti.AlreadyConsumed? {
        return Err(SessionConsumed), None;
      }
      if |keys| != 1 {
        return Err(Threshold), None;
      }
      if keys[0] !in package.signers {
        return Ok(None), None;
      }
      var use := Use(entry.nonce, req.sid, package);
      made := Some(use);
      r := if signs then Ok(Some(use)) else Err(Threshold);
    }
  }
}
