/**
 Quorum-gated daily rotation: votes for a calendar day, the advance of the ledger day once enough
 voters agree, the reshare hook, and what a restart reads back.
 */
module DayRotation {
  import opened Wrappers
  import opened Text
  import C = CivilDate

  // ---------- days ----------

  /** The day text of a clock reading in seconds. */
  function DayOf(secs: nat): string {
    C.DayEpoch(C.DaysToDate(secs / 86400))
  }

  /** `YYYY-MM-DD` in shape: what a day file must hold to be read back. */
  predicate Parses(s: string) {
    && |s| == 10 && s[4] == '-' && s[7] == '-'
    && forall i :: 0 <= i < 10 && i != 4 && i != 7 ==> '0' <= s[i] <= '9'
  }

  predicate AtMost(a: string, b: string) {
    a == b || Less(a, b)
  }

  // ---------- one node ----------

  /** How an atomic file replacement can end; it may be in place although the call fails. */
  datatype Write = Written | Lost | Unsure

  /** The day file and the vote file; None when missing. */
  datatype Files = Files(day: Option<string>, votes: Option<map<string, string>>)

  datatype Node = Node(current: string, votes: map<string, string>, files: Files)

  /** `quorum` is at least 1; `persists` says whether a path is configured. */
  datatype Setup = Setup(quorum: nat, self: string, persists: bool)

  datatype PeerVote = PeerVote(voter: string, day: string, saved: Write)

  function SaveVotes(c: Setup, n: Node, w: Write): (Node, bool) {
    if !c.persists then (n, true)
    else (if w.Lost? then n else n.(files := n.files.(votes := Some(n.votes))), w.Written?)
  }

  function SaveDay(c: Setup, n: Node, day: string, w: Write): (Node, bool) {
    if !c.persists then (n, true)
    else (if w.Lost? then n else n.(files := n.files.(day := Some(day))), w.Written?)
  }

  /** Day first, then votes. */
  function SaveAll(c: Setup, n: Node, day: string, dayWrite: Write, votesWrite: Write): (Node, bool) {
    var (m, ok) := SaveDay(c, n, day, dayWrite);
    if ok then SaveVotes(c, m, votesWrite) else (m, false)
  }

  function Vote(c: Setup, n: Node, voter: string, day: string, w: Write): (Node, bool) {
    SaveVotes(c, n.(votes := n.votes[voter := day]), w)
  }

  /** Record peers' votes in order, stopping at the first that cannot be saved. */
  function VoteAll(c: Setup, n: Node, peers: seq<PeerVote>): (Node, bool) {
    if peers == [] then (n, true)
    else
      var (m, ok) := VoteAll(c, n, peers[..|peers| - 1]);
      var p := peers[|peers| - 1];
      if ok then Vote(c, m, p.voter, p.day, p.saved) else (m, false)
  }

  function VotersFor(votes: map<string, string>, day: string): set<string> {
    set v | v in votes && votes[v] == day
  }

  /** The ledger day moved: from, to, and who voted for it. */
  datatype Change = Change(from: string, to: string, voters: set<string>)

  /** A finished advance: the node, the answer, the move of the ledger day if any, whether the hook ran. */
  datatype Advanced = Advanced(node: Node, answer: Result<string>, moved: Option<Change>, hooked: bool)

  /** What the outside contributes to one advance. */
  datatype Inputs = Inputs(secs: nat, selfWrite: Write, peers: Option<seq<PeerVote>>, dayWrite: Write, votesWrite: Write, hookOk: bool)

  /** Own vote and the peers' votes; false when any step fails. */
  function Gather(c: Setup, n: Node, i: Inputs): (Node, bool) {
    var (m, ok) := Vote(c, n, c.self, DayOf(i.secs), i.selfWrite);
    if !ok || i.peers.None? then (m, false) else VoteAll(c, m, i.peers.value)
  }

  /** The decision once votes are in. Memory moves before the files, the hook runs after them. */
  function Decide(c: Setup, n: Node, i: Inputs): Advanced {
    var live := DayOf(i.secs);
    var voters := VotersFor(n.votes, live);
    if |voters| < c.quorum then Advanced(n, Err(QuorumNotMet(|voters|, c.quorum)), None, false)
    else if live == n.current then
      var (m, ok) := SaveAll(c, n, live, i.dayWrite, i.votesWrite);
      Advanced(m, if ok then Ok(live) else Err(Threshold), None, false)
    else if Less(live, n.current) then Advanced(n, Err(DayStale), None, false)
    else
      var change := Change(n.current, live, voters);
      var (m, ok) := SaveAll(c, n.(current := live), live, i.dayWrite, i.votesWrite);
      Advanced(m, if ok && i.hookOk then Ok(live) else Err(Threshold), Some(change), ok)
  }

  function Advance(c: Setup, n: Node, i: Inputs): Advanced {
    var (m, ok) := Gather(c, n, i);
    if ok then Decide(c, m, i) else Advanced(m, Err(Threshold), None, false)
  }

  function Readable(votes: map<string, string>): map<string, string> {
    map v | v in votes && Parses(votes[v]) :: votes[v]
  }

  /** A restart reads the files; a missing or unreadable day file leaves the clock's day. */
  function Boot(c: Setup, files: Files, secs: nat): Node {
    var day := if c.persists && files.day.Some? && Parses(files.day.value) then files.day.value else DayOf(secs);
    var votes := if c.persists && files.votes.Some? then Readable(files.votes.value) else map[];
    Node(day, votes, files)
  }

  // ---------- runs ----------

  datatype Event =
    | BootAt(secs: nat)
    | VoteFor(voter: string, day: string, saved: Write)
    | AdvanceAt(inputs: Inputs)

  /** A run's node, its changes of the ledger day, its hook calls and the days it answered with Ok. */
  datatype Trace = Trace(node: Node, changes: seq<Change>, hooks: seq<Change>, acked: set<string>)

  function Step(c: Setup, t: Trace, e: Event): Trace {
    match e
    case BootAt(secs) => t.(node := Boot(c, t.node.files, secs))
    case VoteFor(voter, day, saved) => t.(node := Vote(c, t.node, voter, day, saved).0)
    case AdvanceAt(i) =>
      var a := Advance(c, t.node, i);
      Trace(a.node,
            if a.moved.Some? then t.changes + [a.moved.value] else t.changes,
            if a.moved.Some? && a.hooked then t.hooks + [a.moved.value] else t.hooks,
            if a.answer.Ok? then t.acked + {a.answer.value} else t.acked)
  }

  /** A node first started at `secs` with no files, and then any events. */
  function Run(c: Setup, secs: nat, evs: seq<Event>): Trace {
    if evs == [] then Trace(Boot(c, Files(None, None), secs), [], [], {})
    else Step(c, Run(c, secs, evs[..|evs| - 1]), evs[|evs| - 1])
  }

  ghost function PeerCasts(peers: seq<PeerVote>): set<(string, string)> {
    set p | p in peers :: (p.voter, p.day)
  }

  /** Every vote an event brings in: who, for which day. */
  ghost function Casts(c: Setup, e: Event): set<(string, string)> {
    match e
    case BootAt(_) => {}
    case VoteFor(voter, day, _) => {(voter, day)}
    case AdvanceAt(i) => {(c.self, DayOf(i.secs))} + (if i.peers.Some? then PeerCasts(i.peers.value) else {})
  }

  ghost function AllCasts(c: Setup, evs: seq<Event>): set<(string, string)> {
    if evs == [] then {} else AllCasts(c, evs[..|evs| - 1]) + Casts(c, evs[|evs| - 1])
  }

  // ---------- what single steps keep ----------

  ghost predicate VotesCast(votes: map<string, string>, casts: set<(string, string)>) {
    forall v :: v in votes ==> (v, votes[v]) in casts
  }

  ghost predicate NodeCast(n: Node, casts: set<(string, string)>) {
    VotesCast(n.votes, casts) && (n.files.votes.Some? ==> VotesCast(n.files.votes.value, casts))
  }

  lemma {:induction false} VoteAllKeeps(c: Setup, n: Node, peers: seq<PeerVote>, casts: set<(string, string)>)
    requires NodeCast(n, casts) && PeerCasts(peers) <= casts
    ensures var m := VoteAll(c, n, peers).0;
            NodeCast(m, casts) && m.current == n.current && m.files.day == n.files.day
  {
    if peers != [] {
      var init, p := peers[..|peers| - 1], peers[|peers| - 1];
      assert peers == init + [p];
      assert p in peers;
      assert (p.voter, p.day) in PeerCasts(peers);
      assert PeerCasts(init) <= PeerCasts(peers);
      VoteAllKeeps(c, n, init, casts);
    }
  }

  lemma GatherKeeps(c: Setup, n: Node, i: Inputs, casts: set<(string, string)>)
    requires NodeCast(n, casts) && Casts(c, AdvanceAt(i)) <= casts
    ensures var m := Gather(c, n, i).0;
            NodeCast(m, casts) && m.current == n.current && m.files.day == n.files.day
  {
    hide DayOf;
    var m := Vote(c, n, c.self, DayOf(i.secs), i.selfWrite).0;
    assert NodeCast(m, casts);
    if i.peers.Some? {
      VoteAllKeeps(c, m, i.peers.value, casts);
    }
  }

  /** A strict move forward that a quorum of distinct voters asked for. */
  ghost predicate Backed(c: Setup, change: Change, casts: set<(string, string)>) {
    && Less(change.from, change.to)
    && |change.voters| >= c.quorum
    && forall v :: v in change.voters ==> (v, change.to) in casts
  }

  /** The effect of an advance on the ledger day and its file. */
  lemma DecideSteps(c: Setup, n: Node, i: Inputs, casts: set<(string, string)>)
    requires NodeCast(n, casts)
    ensures var a := Decide(c, n, i);
            var live := DayOf(i.secs);
            && NodeCast(a.node, casts)
            && a.node.current == (if a.moved.Some? then live else n.current)
            && (a.moved.Some? ==> Backed(c, a.moved.value, casts) && a.moved.value.from == n.current && a.moved.value.to == live)
            && (a.hooked ==> a.moved.Some?)
            && (a.answer.Ok? ==> a.answer.value == live == a.node.current)
            && (c.persists && (a.answer.Ok? || a.hooked) ==> a.node.files.day == Some(live))
            && (a.node.files.day == n.files.day || (a.node.files.day == Some(live) && a.node.current == live))
  {
    hide DayOf;
    LessTotal(DayOf(i.secs), n.current);
  }

  // ---------- invariants ----------

  /** No later than the current day. */
  ghost predicate UpTo(t: Trace, day: string) {
    AtMost(day, t.node.current)
  }

  /** Hook intervals lie one after the other. */
  ghost predicate Increasing(hooks: seq<Change>) {
    && (forall i :: 0 <= i < |hooks| ==> Less(hooks[i].from, hooks[i].to))
    && (forall i, j :: 0 <= i < j < |hooks| ==> AtMost(hooks[i].to, hooks[j].from))
  }

  /** On a node with files, the day file is readable and no day told to anyone is later than it. */
  ghost predicate FileInv(t: Trace) {
    match t.node.files.day
    case None => t.hooks == [] && t.acked == {}
    case Some(d) => Parses(d) && UpTo(t, d) && (forall h :: h in t.hooks ==> AtMost(h.to, d)) && (forall d' :: d' in t.acked ==> AtMost(d', d))
  }

  /** `filed`: the day is kept on disk and can be read back. */
  ghost predicate Inv(filed: bool, t: Trace) {
    && (filed ==> FileInv(t))
    && (forall h :: h in t.hooks ==> UpTo(t, h.to))
    && (forall d :: d in t.acked ==> UpTo(t, d))
    && Increasing(t.hooks)
  }

  lemma AtMostTrans(a: string, b: string, d: string)
    requires AtMost(a, b) && AtMost(b, d)
    ensures AtMost(a, d)
  {
    hide Less;
    if Less(a, b) && Less(b, d) {
      LessTrans(a, b, d);
    }
  }

  lemma AdvanceInv(c: Setup, filed: bool, t: Trace, i: Inputs, casts: set<(string, string)>)
    requires Inv(filed, t) && NodeCast(t.node, casts) && Casts(c, AdvanceAt(i)) <= casts
    requires filed ==> c.persists && Parses(DayOf(i.secs))
    ensures Inv(filed, Step(c, t, AdvanceAt(i))) && NodeCast(Step(c, t, AdvanceAt(i)).node, casts)
    ensures AtMost(t.node.current, Step(c, t, AdvanceAt(i)).node.current)
  {
    hide DayOf, Parses, Less, Gather, Decide, NodeCast, Casts;
    var m := Gather(c, t.node, i).0;
    GatherKeeps(c, t.node, i, casts);
    DecideSteps(c, m, i, casts);
    var t' := Step(c, t, AdvanceAt(i));
    forall d | AtMost(d, t.node.current) ensures AtMost(d, t'.node.current) {
      AtMostTrans(d, t.node.current, t'.node.current);
    }
    if filed && t.node.files.day.Some? {
      var d := t.node.files.day.value;
      if t'.node.files.day != t.node.files.day {
        forall x | AtMost(x, d) ensures AtMost(x, t'.node.current) {
          AtMostTrans(x, d, t.node.current);
        }
      }
    }
  }

  /** Clock readings whose day can be read back from a file. */
  ghost predicate ClockReadable(secs: nat, evs: seq<Event>) {
    && Parses(DayOf(secs))
    && forall e :: e in evs ==> (e.BootAt? ==> Parses(DayOf(e.secs))) && (e.AdvanceAt? ==> Parses(DayOf(e.inputs.secs)))
  }

  lemma ClockInit(secs: nat, evs: seq<Event>)
    requires evs != [] && ClockReadable(secs, evs)
    ensures var e := evs[|evs| - 1];
            ClockReadable(secs, evs[..|evs| - 1]) && e in evs && (e.AdvanceAt? ==> Parses(DayOf(e.inputs.secs)))
  {
    hide DayOf, Parses;
    assert forall e :: e in evs[..|evs| - 1] ==> e in evs;
  }

  ghost predicate NoReboot(evs: seq<Event>) {
    forall e :: e in evs ==> !e.BootAt?
  }

  lemma BootInv(c: Setup, t: Trace, secs: nat)
    requires c.persists && Inv(true, t)
    ensures Inv(true, Step(c, t, BootAt(secs)))
  {
    hide DayOf, Parses, Less;
  }

  lemma StartInv(c: Setup, secs: nat, filed: bool)
    ensures Inv(filed, Run(c, secs, []))
  {
    hide DayOf, Parses, Less;
  }

  lemma NodeCastMore(n: Node, casts: set<(string, string)>, more: set<(string, string)>)
    requires NodeCast(n, casts) && casts <= more
    ensures NodeCast(n, more)
  {
  }

  lemma {:induction false} RunCasts(c: Setup, secs: nat, evs: seq<Event>)
    ensures NodeCast(Run(c, secs, evs).node, AllCasts(c, evs))
    ensures forall change :: change in Run(c, secs, evs).changes ==> Backed(c, change, AllCasts(c, evs))
  {
    hide DayOf, Parses, Less, Gather, Decide;
    if evs != [] {
      var init, e := evs[..|evs| - 1], evs[|evs| - 1];
      RunCasts(c, secs, init);
      var t, casts := Run(c, secs, init), AllCasts(c, evs);
      NodeCastMore(t.node, AllCasts(c, init), casts);
      if e.AdvanceAt? {
        GatherKeeps(c, t.node, e.inputs, casts);
        DecideSteps(c, Gather(c, t.node, e.inputs).0, e.inputs, casts);
      }
    }
  }

  /** The day is on disk and can be read back, or no restart needs it. */
  ghost predicate Resumable(c: Setup, secs: nat, evs: seq<Event>, filed: bool) {
    if filed then c.persists && ClockReadable(secs, evs) else NoReboot(evs)
  }

  lemma ResumableInit(c: Setup, secs: nat, evs: seq<Event>, filed: bool)
    requires evs != [] && Resumable(c, secs, evs, filed)
    ensures Resumable(c, secs, evs[..|evs| - 1], filed)
    ensures var e := evs[|evs| - 1];
            && (filed ==> c.persists && (e.AdvanceAt? ==> Parses(DayOf(e.inputs.secs))))
            && (!filed ==> !e.BootAt?)
  {
    hide DayOf, Parses, ClockReadable;
    assert evs[|evs| - 1] in evs && forall d :: d in evs[..|evs| - 1] ==> d in evs;
    if filed {
      ClockInit(secs, evs);
    }
  }

  lemma {:induction false} RunInv(c: Setup, secs: nat, evs: seq<Event>, filed: bool)
    requires Resumable(c, secs, evs, filed)
    ensures Inv(filed, Run(c, secs, evs))
  {
    hide DayOf, Parses, Less, Casts, Advance, Boot, AllCasts, Resumable;
    if evs == [] {
      StartInv(c, secs, filed);
    } else {
      var init, e := evs[..|evs| - 1], evs[|evs| - 1];
      ResumableInit(c, secs, evs, filed);
      RunInv(c, secs, init, filed);
      RunCasts(c, secs, init);
      var t := Run(c, secs, init);
      match e
      case BootAt(s) => BootInv(c, t, s);
      case VoteFor(_, _, _) =>
      case AdvanceAt(i) =>
        var casts := AllCasts(c, init) + Casts(c, e);
        NodeCastMore(t.node, AllCasts(c, init), casts);
        AdvanceInv(c, filed, t, i, casts);
    }
  }

  // ---------- one advance ----------

  predicate Saves(c: Setup, w: Write) {
    !c.persists || w.Written?
  }

  /**
   What an advance decides on the votes it has: it answers Ok exactly when the live day has at least
   `quorum` voters, is not behind the ledger day, both files are saved, and the hook of a new day runs
   well; the ledger day moves exactly when the quorum is there and the live day is later.
   */
  lemma DecideExact(c: Setup, n: Node, i: Inputs)
    ensures var a := Decide(c, n, i);
            var live := DayOf(i.secs);
            var have := |set v | v in n.votes && n.votes[v] == live|;
            var saved := Saves(c, i.dayWrite) && Saves(c, i.votesWrite);
            && (a.answer.Ok? <==> have >= c.quorum && AtMost(n.current, live) && saved && (live == n.current || i.hookOk))
            && (a.answer.Ok? ==> a.answer.value == live)
            && (a.answer.Err? ==> a.answer.error == if have < c.quorum then QuorumNotMet(have, c.quorum)
                                                    else if Less(live, n.current) then DayStale else Threshold)
            && (a.moved.Some? <==> have >= c.quorum && Less(n.current, live))
            && (a.hooked <==> a.moved.Some? && saved)
            && a.node.current == (if a.moved.Some? then live else n.current) && a.node.votes == n.votes
            && (a.answer.Ok? && c.persists ==> a.node.files == Files(Some(live), Some(n.votes)))
  {
    hide DayOf, Less;
    LessTotal(n.current, DayOf(i.secs));
    assert VotersFor(n.votes, DayOf(i.secs)) == set v | v in n.votes && n.votes[v] == DayOf(i.secs);
  }

  /** The last vote among the peers' for a voter, or none. */
  predicate LastVote(peers: seq<PeerVote>, j: nat, voter: string) {
    j < |peers| && peers[j].voter == voter && forall l :: j < l < |peers| ==> peers[l].voter != voter
  }

  predicate VotedBy(peers: seq<PeerVote>, voter: string) {
    exists p :: p in peers && p.voter == voter
  }

  lemma {:induction false} VoteAllExact(c: Setup, n: Node, peers: seq<PeerVote>)
    ensures VoteAll(c, n, peers).1 <==> forall p :: p in peers ==> Saves(c, p.saved)
    ensures VoteAll(c, n, peers).1 ==> forall v ::
              if VotedBy(peers, v)
              then v in VoteAll(c, n, peers).0.votes && exists j: nat :: LastVote(peers, j, v) && VoteAll(c, n, peers).0.votes[v] == peers[j].day
              else (v in VoteAll(c, n, peers).0.votes <==> v in n.votes) && (v in n.votes ==> VoteAll(c, n, peers).0.votes[v] == n.votes[v])
  {
    if peers != [] {
      var init, last := peers[..|peers| - 1], peers[|peers| - 1];
      assert peers == init + [last];
      assert last in peers && forall p :: p in peers <==> p in init || p == last;
      VoteAllExact(c, n, init);
      if VoteAll(c, n, peers).1 {
        forall v
          ensures if VotedBy(peers, v)
                  then v in VoteAll(c, n, peers).0.votes && exists j: nat :: LastVote(peers, j, v) && VoteAll(c, n, peers).0.votes[v] == peers[j].day
                  else (v in VoteAll(c, n, peers).0.votes <==> v in n.votes) && (v in n.votes ==> VoteAll(c, n, peers).0.votes[v] == n.votes[v])
        {
          if v == last.voter {
            assert LastVote(peers, |init|, v);
          } else if VotedBy(init, v) {
            var j: nat :| LastVote(init, j, v) && VoteAll(c, n, init).0.votes[v] == init[j].day;
            assert LastVote(peers, j, v) && peers[j] == init[j];
          }
        }
      }
    }
  }

  /**
   The votes an advance decides on: all gathered exactly when every vote could be saved and the peers
   could be reached; then each peer voter counts with its last vote, this node with the live day, everyone
   else with the vote recorded before.
   */
  lemma GatherExact(c: Setup, n: Node, i: Inputs)
    ensures var (m, ok) := Gather(c, n, i);
            && (ok <==> Saves(c, i.selfWrite) && i.peers.Some? && forall p :: p in i.peers.value ==> Saves(c, p.saved))
            && (ok ==> forall v ::
                  if VotedBy(i.peers.value, v)
                  then v in m.votes && exists j: nat :: LastVote(i.peers.value, j, v) && m.votes[v] == i.peers.value[j].day
                  else if v == c.self then v in m.votes && m.votes[v] == DayOf(i.secs)
                  else (v in m.votes <==> v in n.votes) && (v in n.votes ==> m.votes[v] == n.votes[v]))
  {
    hide DayOf, VoteAll;
    if i.peers.Some? {
      VoteAllExact(c, Vote(c, n, c.self, DayOf(i.secs), i.selfWrite).0, i.peers.value);
    }
  }

  /** A vote that was recorded and saved is still there after a restart, if its day can be read back. */
  lemma VoteSurvives(c: Setup, n: Node, voter: string, day: string, w: Write, secs: nat)
    requires c.persists && Vote(c, n, voter, day, w).1
    ensures var m := Vote(c, n, voter, day, w).0;
            var again := Boot(c, m.files, secs);
            && m.votes == n.votes[voter := day]
            && (forall v :: v in again.votes <==> v in m.votes && Parses(m.votes[v]))
            && (forall v :: v in again.votes ==> again.votes[v] == m.votes[v])
  {
    hide DayOf, Parses;
  }

  // ---------- the results ----------

  /**
   Over any clock and votes, with restarts and failed writes: every change of the ledger day is
   strictly forward and has at least `quorum` distinct voters, each of whom cast a vote for that day.
   */
  lemma QuorumBehindEveryChange(c: Setup, secs: nat, evs: seq<Event>, change: Change)
    requires change in Run(c, secs, evs).changes
    ensures Less(change.from, change.to)
    ensures |change.voters| >= c.quorum
    ensures forall v :: v in change.voters ==> (v, change.to) in AllCasts(c, evs)
  {
    hide Less;
    RunCasts(c, secs, evs);
  }

  lemma StepGrows(c: Setup, t: Trace, e: Event, casts: set<(string, string)>)
    requires !e.BootAt? && NodeCast(t.node, casts)
    ensures AtMost(t.node.current, Step(c, t, e).node.current)
  {
    hide DayOf, Parses, Less, Gather, Decide, Casts;
    if e.AdvanceAt? {
      var more := casts + Casts(c, e);
      NodeCastMore(t.node, casts, more);
      GatherKeeps(c, t.node, e.inputs, more);
      DecideSteps(c, Gather(c, t.node, e.inputs).0, e.inputs, more);
    }
  }

  /** Within one process the ledger day never goes back, whatever the clock does. */
  lemma {:induction false} LedgerDayNeverDecreases(c: Setup, secs: nat, evs: seq<Event>, more: seq<Event>)
    requires NoReboot(more)
    ensures AtMost(Run(c, secs, evs).node.current, Run(c, secs, evs + more).node.current)
  {
    hide Step, Less, Backed, NodeCast, AllCasts;
    if more == [] {
      assert evs + more == evs;
    } else {
      var init, e := more[..|more| - 1], more[|more| - 1];
      assert e in more && forall d :: d in init ==> d in more;
      LedgerDayNeverDecreases(c, secs, evs, init);
      assert (evs + more)[..|evs + more| - 1] == evs + init;
      var t, t' := Run(c, secs, evs + init), Run(c, secs, evs + more);
      RunCasts(c, secs, evs + init);
      StepGrows(c, t, e, AllCasts(c, evs + init));
      AtMostTrans(Run(c, secs, evs).node.current, t.node.current, t'.node.current);
    }
  }

  /**
   Reshare hook calls form strictly increasing intervals, one after the other: within a process
   whatever the clock reads, and across restarts on a node that keeps its day on disk, for days that
   can be read back.
   */
  lemma HooksIncrease(c: Setup, secs: nat, evs: seq<Event>)
    requires NoReboot(evs) || (c.persists && ClockReadable(secs, evs))
    ensures Increasing(Run(c, secs, evs).hooks)
  {
    hide ClockReadable, Run;
    RunInv(c, secs, evs, c.persists && ClockReadable(secs, evs));
  }

  /** A day that was answered with Ok is never left behind, not even by such a restart. */
  lemma AckedDayKept(c: Setup, secs: nat, evs: seq<Event>, day: string)
    requires NoReboot(evs) || (c.persists && ClockReadable(secs, evs))
    requires day in Run(c, secs, evs).acked
    ensures AtMost(day, Run(c, secs, evs).node.current)
  {
    hide ClockReadable, Run;
    RunInv(c, secs, evs, c.persists && ClockReadable(secs, evs));
  }

  /** After a successful advance a restart resumes that day exactly when the file can hold it (or the clock agrees). */
  lemma RebootResumesIff(c: Setup, n: Node, i: Inputs, secs: nat)
    requires c.persists && Advance(c, n, i).answer.Ok?
    ensures var live := Advance(c, n, i).answer.value;
            live == DayOf(i.secs) == Advance(c, n, i).node.current &&
            (Boot(c, Advance(c, n, i).node.files, secs).current == live <==> Parses(live) || DayOf(secs) == live)
  {
    hide DayOf, Parses, Gather, Less;
  }

  lemma LessAfter(a: string, b: string, d: string)
    requires AtMost(a, b) && Less(b, d)
    ensures Less(a, d)
  {
    hide Less;
    if Less(a, b) {
      LessTrans(a, b, d);
    }
  }

  /** What one event adds to the hook calls starts at the day the node was at. */
  lemma StepHooks(c: Setup, t: Trace, e: Event, casts: set<(string, string)>)
    requires NodeCast(t.node, casts)
    ensures var hooks := Step(c, t, e).hooks;
            hooks == t.hooks || (|hooks| == |t.hooks| + 1 && t.hooks <= hooks && Less(t.node.current, hooks[|t.hooks|].to))
  {
    hide DayOf, Parses, Less, Gather, Decide, Casts;
    if e.AdvanceAt? {
      var more := casts + Casts(c, e);
      NodeCastMore(t.node, casts, more);
      GatherKeeps(c, t.node, e.inputs, more);
      DecideSteps(c, Gather(c, t.node, e.inputs).0, e.inputs, more);
    }
  }

  /** Within a process every later hook call is for a day after the one the node is at. */
  lemma {:induction false} LaterHooks(c: Setup, secs: nat, evs: seq<Event>, more: seq<Event>)
    requires NoReboot(more)
    ensures var t, t' := Run(c, secs, evs), Run(c, secs, evs + more);
            t.hooks <= t'.hooks && forall j :: |t.hooks| <= j < |t'.hooks| ==> Less(t.node.current, t'.hooks[j].to)
  {
    hide Step, Less, NodeCast, AllCasts;
    if more == [] {
      assert evs + more == evs;
    } else {
      var init, e := more[..|more| - 1], more[|more| - 1];
      assert e in more && forall d :: d in init ==> d in more;
      LaterHooks(c, secs, evs, init);
      LedgerDayNeverDecreases(c, secs, evs, init);
      assert (evs + more)[..|evs + more| - 1] == evs + init;
      var t, mid := Run(c, secs, evs), Run(c, secs, evs + init);
      RunCasts(c, secs, evs + init);
      StepHooks(c, mid, e, AllCasts(c, evs + init));
      var hooks := Step(c, mid, e).hooks;
      if hooks != mid.hooks {
        LessAfter(t.node.current, mid.node.current, hooks[|mid.hooks|].to);
      }
    }
  }

  /**
   The reshare hook of a change runs exactly when both files were written. When they were not, no call
   in the rest of the process runs it for that day, however often the day is advanced again.
   */
  lemma HookMissedForGood(c: Setup, secs: nat, evs: seq<Event>, i: Inputs, more: seq<Event>)
    requires NoReboot(more) && Advance(c, Run(c, secs, evs).node, i).moved.Some?
    ensures var t, a := Run(c, secs, evs), Advance(c, Run(c, secs, evs).node, i);
            var later := Run(c, secs, evs + [AdvanceAt(i)] + more);
            && (a.hooked <==> !c.persists || (i.dayWrite.Written? && i.votesWrite.Written?))
            && t.hooks <= later.hooks
            && (!a.hooked ==> forall j :: |t.hooks| <= j < |later.hooks| ==> later.hooks[j].to != a.moved.value.to)
  {
    hide DayOf, Less, Gather, VotersFor;
    var first := evs + [AdvanceAt(i)];
    assert first[..|first| - 1] == evs;
    LaterHooks(c, secs, first, more);
    LessTotal(Run(c, secs, first).node.current, Run(c, secs, first).node.current);
  }

  lemma {:induction false} PadDigits(n: nat, width: nat)
    ensures |C.Pad(n, width)| == width
    ensures forall i :: 0 <= i < width ==> '0' <= C.Pad(n, width)[i] <= '9'
  {
    if width > 0 {
      PadDigits(n / 10, width - 1);
    }
  }

  lemma {:induction false} DecimalLong(n: nat)
    ensures n >= 10000 ==> |Decimal(n)| >= 5
    ensures n >= 1000 ==> |Decimal(n)| >= 4
    ensures n >= 100 ==> |Decimal(n)| >= 3
    ensures n >= 10 ==> |Decimal(n)| >= 2
    ensures |Decimal(n)| >= 1
  {
    if n >= 10 {
      DecimalLong(n / 10);
    }
  }

  /** A clock day can be read back from a file exactly until the end of the year 9999. */
  lemma ClockDayParses(secs: nat)
    ensures Parses(DayOf(secs)) <==> secs / 86400 < 2932897
  {
    hide C.DaysToDate, C.Pad, Decimal;
    var days := secs / 86400;
    var d := C.DaysToDate(days);
    C.DayEpochOrderEnds();
    if days < 2932896 {
      C.DateOrder(days, 2932896);
    } else if days > 2932897 {
      C.DateOrder(2932897, days);
    }
    PadDigits(d.year, 4);
    PadDigits(d.month, 2);
    PadDigits(d.day, 2);
    DecimalLong(d.year);
    var s := DayOf(secs);
    if d.year < 10000 {
      assert s == C.Pad(d.year, 4) + "-" + C.Pad(d.month, 2) + "-" + C.Pad(d.day, 2);
    } else {
      assert |s| > 10;
    }
  }

  // ---------- the node as the source writes it ----------

  class QuorumDailyRotation {
    const setup: Setup
    var current: string
    var votes: map<string, string>
    var files: Files

    ghost function State(): Node
      reads this
    {
      Node(current, votes, files)
    }

    constructor (quorum: nat, self: string, persists: bool, files: Files, secs: nat)
      ensures setup == Setup(if quorum == 0 then 1 else quorum, self, persists)
      ensures State() == Boot(setup, files, secs)
    {
      this.setup := Setup(if quorum == 0 then 1 else quorum, self, persists);
      this.files := files;
      current := if persists && files.day.Some? && Parses(files.day.value) then files.day.value else DayOf(secs);
      votes := if persists && files.votes.Some? then Readable(files.votes.value) else map[];
    }

    method PersistVotes(w: Write) returns (ok: bool)
      modifies this`files
      ensures (State(), ok) == SaveVotes(setup, old(State()), w)
    {
      if !setup.persists {
        return true;
      }
      if !w.Lost? {
        files := files.(votes := Some(votes));
      }
      return w.Written?;
    }

    method WritePersist(day: string, dayWrite: Write, votesWrite: Write) returns (ok: bool)
      modifies this`files
      ensures (State(), ok) == SaveAll(setup, old(State()), day, dayWrite, votesWrite)
    {
      if !setup.persists {
        return true;
      }
      if !dayWrite.Lost? {
        files := files.(day := Some(day));
      }
      if !dayWrite.Written? {
        return false;
      }
      ok := PersistVotes(votesWrite);
    }

    method RecordVote(voter: string, day: string, w: Write) returns (ok: bool)
      modifies this`votes, this`files
      ensures (State(), ok) == Vote(setup, old(State()), voter, day, w)
    {
      votes := votes[voter := day];
      ok := PersistVotes(w);
    }

    method RecordPeers(peers: seq<PeerVote>) returns (ok: bool)
      modifies this`votes, this`files
      ensures (State(), ok) == VoteAll(setup, old(State()), peers)
    {
      ok := true;
      var i := 0;
      while i < |peers| && ok
        invariant i <= |peers|
        invariant (State(), ok) == VoteAll(setup, old(State()), peers[..i])
      {
        assert peers[..i + 1][..i] == peers[..i];
        ok := RecordVote(peers[i].voter, peers[i].day, peers[i].saved);
        i := i + 1;
      }
      if ok {
        assert peers[..|peers|] == peers;
      } else {
        VoteAllStops(setup, old(State()), peers, i);
      }
    }

    method AdvanceDay(i: Inputs) returns (r: Result<string>, moved: Option<Change>, hooked: bool)
      modifies this`current, this`votes, this`files
      ensures Advanced(State(), r, moved, hooked) == Advance(setup, old(State()), i)
    {
      hide DayOf, VoteAll, Less;
      moved, hooked := None, false;
      var live := DayOf(i.secs);
      var ok := RecordVote(setup.self, live, i.selfWrite);
      if !ok || i.peers.None? {
        return Err(Threshold), None, false;
      }
      ok := RecordPeers(i.peers.value);
      if !ok {
        return Err(Threshold), None, false;
      }
      var voters := VotersFor(votes, live);
      if |voters| < setup.quorum {
        return Err(QuorumNotMet(|voters|, setup.quorum)), None, false;
      }
      var from := current;
      if live == from {
        ok := WritePersist(live, i.dayWrite, i.votesWrite);
        return if ok then Ok(live) else Err(Threshold), None, false;
      }
      if Less(live, from) {
        return Err(DayStale), None, false;
      }
      current := live;
      moved := Some(Change(from, live, voters));
      ok := WritePersist(live, i.dayWrite, i.votesWrite);
      if !ok {
        return Err(Threshold), moved, false;
      }
      hooked := true;
      r := if i.hookOk then Ok(live) else Err(Threshold);
    }

    /** A session bound to a day runs only on that ledger day, and only while the calendar has not passed it. */
    method RequireEpoch(bound: string, secs: nat) returns (r: Result<()>)
      ensures r.Ok? <==> bound == current && AtMost(DayOf(secs), bound)
      ensures r.Err? ==> r.error == DayStale
    {
      hide DayOf;
      LessTotal(DayOf(secs), current);
      if bound != current {
        return Err(DayStale);
      }
      if Less(current, DayOf(secs)) {
        return Err(DayStale);
      }
      return Ok(());
    }
  }

  lemma {:induction false} VoteAllStops(c: Setup, n: Node, peers: seq<PeerVote>, i: nat)
    requires i <= |peers| && !VoteAll(c, n, peers[..i]).1
    ensures VoteAll(c, n, peers) == VoteAll(c, n, peers[..i])
    decreases |peers|
  {
    if i < |peers| {
      var init := peers[..|peers| - 1];
      assert init[..i] == peers[..i];
      VoteAllStops(c, n, init, i);
    } else {
      assert peers[..i] == peers;
    }
  }
}
