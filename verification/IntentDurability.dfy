/** Durability of consumed intents on one node, over every run of burns, commits, authorizes and crashes. */
module IntentDurability {
  import opened Wrappers
  import opened BucketLedger
  import opened AntiNonce
  import opened QuorumBucket
  import L = LineLog

  datatype Event =
    | BurnAt(id: string, disk: Disk)
    | CommitAt(id: string, now: nat, disk: Disk)
    | AuthorizeAt(id: string, k: Kind, amount: nat, disk: Disk, allowed: bool)
    | SoftAt(id: string, now: nat)
    | CrashAt

  function Verdict(allowed: bool): Validator {
    (_: Policy, _: nat) => if allowed then Ok(()) else Err(InvalidIntent)
  }

  /** The node after an event and the id the event newly acknowledged as consumed, if any. */
  ghost function Step(s: Node, e: Event): (Node, Option<string>) {
    match e
    case BurnAt(id, disk) =>
      var (w, r) := BurnIntent(s, id, disk);
      (w, if r == Ok(false) then Some(id) else None)
    case CommitAt(id, now, disk) =>
      var (w, r) := PersistCommit(s, id, now, disk);
      (w, if r.Ok? then Some(id) else None)
    case AuthorizeAt(id, k, amount, disk, allowed) =>
      var (w, r) := PersistAuthorize(s, id, k, amount, disk, Verdict(allowed));
      (w, if r.Ok? then Some(id) else None)
    case SoftAt(id, now) => (s.(b := SoftHold(s.b, id, now).0), None)
    case CrashAt => (BootNode(s.b.policies, s.log), None)
  }

  ghost function Run(policies: map<Kind, Policy>, evs: seq<Event>): Node {
    if evs == [] then BootNode(policies, "") else Step(Run(policies, evs[..|evs| - 1]), evs[|evs| - 1]).0
  }

  /** The ids some call of the run acknowledged as consumed. */
  ghost function Acked(policies: map<Kind, Policy>, evs: seq<Event>): set<string> {
    if evs == [] then {}
    else
      var a := Step(Run(policies, evs[..|evs| - 1]), evs[|evs| - 1]).1;
      Acked(policies, evs[..|evs| - 1]) + (if a.Some? then {a.value} else {})
  }

  function Attempted(evs: seq<Event>): set<string> {
    if evs == [] then {}
    else
      Attempted(evs[..|evs| - 1]) +
      match evs[|evs| - 1]
      case BurnAt(id, _) => {id}
      case CommitAt(id, _, _) => {id}
      case AuthorizeAt(id, _, _, _, _) => {id}
      case _ => {}
  }

  /** Consumed ids that fit are on disk. */
  ghost predicate Durable(s: Node) {
    && L.Terminated(s.log)
    && forall id :: id in s.b.consumed && L.Fits(id, true) ==> id in ReadBack(s.log)
  }

  lemma LoggedKeeps(s: Node, id: string, disk: Disk)
    requires L.Terminated(s.log)
    ensures var w := Logged(s, id, disk);
            && L.Terminated(w.log) && ReadBack(s.log) <= ReadBack(w.log)
            && (disk.Synced? && L.Fits(id, true) ==> id in ReadBack(w.log))
            && (L.Fits(id, true) ==> ReadBack(w.log) <= ReadBack(s.log) + {id})
  {
    hide L.Load, L.Fits, L.Terminated;
    L.AppendKeeps(s.log, id, true);
    if L.Fits(id, true) {
      L.AppendFits(s.log, id, true);
    }
  }

  /** The log only gains, and gains no more than the id an event names. */
  lemma StepDurable(s: Node, e: Event)
    requires Durable(s)
    ensures var (w, a) := Step(s, e);
            && Durable(w) && ReadBack(s.log) <= ReadBack(w.log)
            && (a.Some? && L.Fits(a.value, true) ==> a.value in ReadBack(w.log))
  {
    hide L.Load, L.Fits, L.Terminated, Held, GiveBack, ReadBack;
    match e {
      case BurnAt(id, disk) => LoggedKeeps(s, id, disk);
      case CommitAt(id, now, disk) => LoggedKeeps(s.(b := Sweep(s.b, now)), id, disk);
      case AuthorizeAt(id, _, _, disk, _) => LoggedKeeps(s, id, disk);
      case SoftAt(_, _) =>
      case CrashAt =>
    }
  }

  lemma {:induction false} RunDurable(policies: map<Kind, Policy>, evs: seq<Event>)
    ensures Durable(Run(policies, evs))
  {
    hide Step, L.Fits;
    if evs == [] {
      L.LoadEmpty(true);
    } else {
      hide Durable;
      RunDurable(policies, evs[..|evs| - 1]);
      StepDurable(Run(policies, evs[..|evs| - 1]), evs[|evs| - 1]);
    }
  }

  /**
   Acknowledged implies durable: wherever the run is cut, a boot reads back every acknowledged intent
   that fits the line format and does not start with '#'.
   */
  lemma {:induction false} AckedIntentSurvives(policies: map<Kind, Policy>, evs: seq<Event>, id: string)
    requires id in Acked(policies, evs) && L.Fits(id, true)
    ensures id in BootNode(policies, Run(policies, evs).log).b.consumed
  {
    hide Step, L.Fits, Durable, ReadBack;
    var init := evs[..|evs| - 1];
    RunDurable(policies, init);
    StepDurable(Run(policies, init), evs[|evs| - 1]);
    if id in Acked(policies, init) {
      AckedIntentSurvives(policies, init, id);
    }
  }

  lemma StepAttempts(s: Node, e: Event)
    requires Durable(s) && forall id :: id in Attempted([e]) ==> L.Fits(id, true)
    ensures ReadBack(Step(s, e).0.log) <= ReadBack(s.log) + Attempted([e])
    ensures Step(s, e).0.b.consumed <= s.b.consumed + ReadBack(s.log) + Attempted([e])
  {
    hide L.Load, L.Fits, L.Terminated, Held, GiveBack, ReadBack;
    assert [e][..0] == [];
    match e {
      case BurnAt(id, disk) => LoggedKeeps(s, id, disk);
      case CommitAt(id, now, disk) => LoggedKeeps(s.(b := Sweep(s.b, now)), id, disk);
      case AuthorizeAt(id, _, _, disk, _) => LoggedKeeps(s, id, disk);
      case SoftAt(_, _) =>
      case CrashAt =>
    }
  }

  /** When every attempted id fits, memory and disk hold attempted ids only. */
  lemma {:induction false} OnlyAttemptedIntents(policies: map<Kind, Policy>, evs: seq<Event>)
    requires forall id :: id in Attempted(evs) ==> L.Fits(id, true)
    ensures ReadBack(Run(policies, evs).log) <= Attempted(evs)
    ensures Run(policies, evs).b.consumed <= Attempted(evs)
  {
    hide Step, L.Fits, Durable;
    if evs == [] {
      L.LoadEmpty(true);
    } else {
      hide ReadBack;
      var init, e := evs[..|evs| - 1], evs[|evs| - 1];
      assert [e][..0] == [];
      assert Attempted(evs) == Attempted(init) + Attempted([e]);
      OnlyAttemptedIntents(policies, init);
      RunDurable(policies, init);
      StepAttempts(Run(policies, init), e);
    }
  }

  lemma RunPush(policies: map<Kind, Policy>, evs: seq<Event>, e: Event)
    ensures Run(policies, evs + [e]) == Step(Run(policies, evs), e).0
  {
    hide Step;
    assert (evs + [e])[..|evs + [e]| - 1] == evs;
  }

  lemma BurnCrashBurn(policies: map<Kind, Policy>, id: string)
    ensures var once := Step(BootNode(policies, ""), BurnAt(id, Synced)).0;
            Step(Step(once, CrashAt).0, BurnAt(id, Synced)).1 == Some(id) <==> !L.Fits(id, true)
  {
    L.LoadEmpty(true);
    L.SurvivesIffFits("", id, true);
    hide L.Load, L.Fits, L.Terminated, Sweep, Held, GiveBack;
  }

  /** A burned intent can be burned again after a crash exactly when its id does not fit the log. */
  lemma ReburnIffUnfit(policies: map<Kind, Policy>, id: string)
    ensures Step(Run(policies, [BurnAt(id, Synced), CrashAt]), BurnAt(id, Synced)).1 == Some(id) <==> !L.Fits(id, true)
  {
    var burn := BurnAt(id, Synced);
    assert Run(policies, []) == BootNode(policies, "");
    hide Run, Step, BootNode, L.Fits;
    BurnCrashBurn(policies, id);
    RunPush(policies, [], burn);
    RunPush(policies, [burn], CrashAt);
    assert [] + [burn] == [burn] && [burn] + [CrashAt] == [burn, CrashAt];
  }
}
