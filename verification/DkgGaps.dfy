/** Agreement is per roster: one session id may be run to Round2 by two disjoint rosters at once. */
module DkgGaps {
  import opened Wrappers
  import opened Text
  import opened Roster
  import opened DkgHub
  import N = DkgNetwork
  import opened DkgNetwork
  import L = LineLog

  /** A FROST that always succeeds and addresses whoever it received from. */
  function Obliging(): Frost {
    Frost((_: string, received: map<nat, string>) => Some(("", map id | id in received :: "")),
          (_: string, _: map<nat, string>, _: map<nat, string>) => None)
  }

  lemma ObligingAddressed()
    ensures Addressed(Obliging())
  {
    forall secret, received | Obliging().part2(secret, received).Some?
      ensures Obliging().part2(secret, received).value.1.Keys == received.Keys
    {
    }
  }

  function Request(x: string, y: string): StartRequest {
    StartRequest("s", 2, 2, [x, y])
  }

  function Begun(name: string, x: string, y: string): Session {
    Opened(name, Request(x, y), [x, y], Preimage(PLAIN, "s", 2, 2, [x, y]), "k", "p")
  }

  /** Two names a roster request accepts as they stand. */
  ghost predicate Proper(x: string, y: string) {
    x != y && CheckRoster([x, y]) == Ok([x, y]) && Clean([x, y]) && IdOf([x, y], x) == 1 && IdOf([x, y], y) == 2
  }

  lemma CheckedCanonical(x: string, y: string)
    requires Proper(x, y)
    ensures CleanRequest(Request(x, y))
  {
    hide Canonical;
  }

  lemma StartOne(n: Net, name: string, x: string, y: string)
    requires Proper(x, y) && (name == x || name == y) && name in n.hubs && "s" !in n.hubs[name]
    ensures var s := Begun(name, x, y);
            s.localId in s.packages &&
            Step(Plain, Obliging(), n, StartAt(name, Request(x, y), Some(("k", "p")))) ==
              Put(n, name, n.hubs[name]["s" := s]).(sent1 := n.sent1 + {Wire1(s)})
  {
    hide Canonical, IdOf, Preimage;
    CheckedCanonical(x, y);
  }

  /** The second member's message completes the first one's round 1. */
  lemma Completes(x: string, y: string)
    requires Proper(x, y)
    ensures Begun(y, x, y).localId in Begun(y, x, y).packages
    ensures var s' := Ingest1(Begun(x, x, y), Wire1(Begun(y, x, y)), Obliging()).0;
            s'.phase.Round2? && s'.roster == [x, y]
  {
    hide IdOf, Preimage, Canonical;
    var s, m := Begun(x, x, y), Wire1(Begun(y, x, y));
    var packages := s.packages[m.senderId := m.package.value];
    assert packages.Keys == {1, 2};
    assert |packages| == |packages.Keys|;
  }

  lemma DeliverOne(n: Net, x: string, y: string)
    requires Proper(x, y) && Has(n, x, "s") && n.hubs[x]["s"] == Begun(x, x, y)
    requires Begun(y, x, y).localId in Begun(y, x, y).packages && Wire1(Begun(y, x, y)) in n.sent1
    ensures var n' := Step(Plain, Obliging(), n, Deliver1(x, Wire1(Begun(y, x, y))));
            && PastRound1(n', x, "s") && n'.hubs[x]["s"].roster == [x, y]
            && n' == Put(n, x, n'.hubs[x])
  {
    hide Preimage, IdOf, Ingest1, Obliging, Proper;
    Completes(x, y);
  }

  function Rounds(x: string, y: string): seq<Event> {
    var part1 := Some(("k", "p"));
    var m := Begun(y, x, y);
    [StartAt(x, Request(x, y), part1), StartAt(y, Request(x, y), part1),
     Deliver1(x, Msg1("s", y, IdOf([x, y], y), 2, 2, m.transcript, Some("p"), false))]
  }

  /** Three events bring `x` past Round1 with the roster of the two, whatever other hubs hold. */
  lemma PairRuns(names: set<string>, evs: seq<Event>, x: string, y: string)
    requires Proper(x, y) && x in names && y in names
    requires var n := N.Run(Plain, Obliging(), names, evs);
             n.hubs.Keys == names && "s" !in n.hubs[x] && "s" !in n.hubs[y]
    ensures var n, n' := N.Run(Plain, Obliging(), names, evs), N.Run(Plain, Obliging(), names, evs + Rounds(x, y));
            && PastRound1(n', x, "s") && n'.hubs[x]["s"].roster == [x, y]
            && n'.hubs.Keys == names && forall h :: h in names && h != x && h != y ==> n'.hubs[h] == n.hubs[h]
  {
    hide N.Run, Step, IdOf, Preimage, Canonical, Obliging, Proper;
    var n := N.Run(Plain, Obliging(), names, evs);
    ProperNames(x, y);
    var r := Rounds(x, y);
    StartOne(n, x, x, y);
    var n1 := Step(Plain, Obliging(), n, r[0]);
    StartOne(n1, y, x, y);
    var n2 := Step(Plain, Obliging(), n1, r[1]);
    DeliverOne(n2, x, y);
    assert evs + [r[0]] + [r[1]] + [r[2]] == evs + r;
    RunPush(names, evs, r[0]);
    RunPush(names, evs + [r[0]], r[1]);
    RunPush(names, evs + [r[0]] + [r[1]], r[2]);
  }

  lemma ProperNames(x: string, y: string)
    requires Proper(x, y)
    ensures x != y
  {
  }

  lemma RunPush(names: set<string>, evs: seq<Event>, e: Event)
    ensures N.Run(Plain, Obliging(), names, evs + [e]) == Step(Plain, Obliging(), N.Run(Plain, Obliging(), names, evs), e)
  {
    hide Step, Obliging;
    assert (evs + [e])[..|evs + [e]| - 1] == evs;
  }

  lemma TrimOne(c: char)
    requires 'a' <= c <= 'z'
    ensures L.Trim([c]) == [c]
  {
  }

  lemma PairCanonical(x: string, y: string)
    requires L.Trim(x) == x && L.Trim(y) == y && Less(x, y)
    ensures Canonical([x, y]) == [x, y]
  {
    hide L.Trim, Less;
    assert [x, y][..1] == [x] && [x][..0] == [];
    assert Canonical([x]) == Insert([], x) == [x];
    LessTotal(x, y);
    assert Canonical([x, y]) == Insert([x], y);
  }

  lemma PairIds(x: string, y: string)
    requires x != y
    ensures IdOf([x, y], x) == 1 && IdOf([x, y], y) == 2
  {
    assert [x, y][..1] == [x];
  }

  lemma PairProper(c: char, d: char)
    requires 'a' <= c < d <= 'z'
    ensures Proper([c], [d])
  {
    hide L.Trim, Less, Canonical, IdOf;
    TrimOne(c);
    TrimOne(d);
    LessOne(c, d);
    PairCanonical([c], [d]);
    PairIds([c], [d]);
  }

  lemma Disagree(a: string, b: string, c: string, d: string)
    requires Proper(a, b) && Proper(c, d) && a != c && a != d && b != c && b != d
    ensures var n := N.Run(Plain, Obliging(), {a, b, c, d}, Rounds(a, b) + Rounds(c, d));
            && PastRound1(n, a, "s") && PastRound1(n, c, "s")
            && n.hubs[a]["s"].roster == [a, b] && n.hubs[c]["s"].roster == [c, d]
  {
    hide Step, Proper, Rounds, Obliging;
    var names := {a, b, c, d};
    var first := Rounds(a, b);
    assert N.Run(Plain, Obliging(), names, []) == Init(names);
    hide N.Run;
    assert [] + first == first;
    PairRuns(names, [], a, b);
    PairRuns(names, first, c, d);
  }

  /**
   Agreement fails across disjoint rosters: hubs `a` and `c` both get past Round1 of session `s`, one
   with roster [a, b] and one with [c, d].
   */
  lemma DisjointRostersDisagree()
    ensures var n := N.Run(Plain, Obliging(), {"a", "b", "c", "d"}, Rounds("a", "b") + Rounds("c", "d"));
            && Addressed(Obliging()) && PastRound1(n, "a", "s") && PastRound1(n, "c", "s")
            && n.hubs["a"]["s"].roster == ["a", "b"] && n.hubs["c"]["s"].roster == ["c", "d"]
  {
    hide N.Run, Proper, Rounds, Obliging, Addressed, PastRound1;
    ObligingAddressed();
    PairProper('a', 'b');
    PairProper('c', 'd');
    Disagree("a", "b", "c", "d");
  }
}
