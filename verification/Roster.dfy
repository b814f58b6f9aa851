/**
 The canonical DKG constitution: roster numbering and the transcript preimage that binds
 session, thresholds and participants.
 */
module Roster {
  import opened Wrappers
  import opened Text
  import L = LineLog

  const U16_MAX: nat := 0xFFFF

  // ---------- sorted rosters ----------

  ghost predicate Sorted(s: seq<string>) {
    forall i, j :: 0 <= i < j < |s| ==> Less(s[i], s[j])
  }

  /** Sorted insertion that drops a duplicate. */
  function Insert(s: seq<string>, x: string): seq<string> {
    if s == [] then [x]
    else
      var last := s[|s| - 1];
      if last == x then s
      else if Less(last, x) then s + [x]
      else Insert(s[..|s| - 1], x) + [last]
  }

  /** What trimming, sorting and removing duplicates leaves of a list of names. */
  function Canonical(names: seq<string>): seq<string> {
    if names == [] then [] else Insert(Canonical(names[..|names| - 1]), L.Trim(names[|names| - 1]))
  }

  ghost function Names(names: seq<string>): set<string> {
    set i | 0 <= i < |names| :: L.Trim(names[i])
  }

  lemma {:induction false} InsertSorted(s: seq<string>, x: string)
    requires Sorted(s)
    ensures Sorted(Insert(s, x))
    ensures forall y :: y in Insert(s, x) <==> y in s || y == x
  {
    if s != [] {
      var init, last := s[..|s| - 1], s[|s| - 1];
      assert s == init + [last];
      if last != x {
        LessTotal(last, x);
        if Less(last, x) {
          forall i | 0 <= i < |s| ensures Less(s[i], x) {
            if i < |s| - 1 {
              LessTrans(s[i], last, x);
            }
          }
        } else {
          InsertSorted(init, x);
          var r := Insert(init, x);
          forall i | 0 <= i < |r| ensures Less(r[i], last) {
            assert r[i] in r;
            if r[i] != x {
              var j :| 0 <= j < |init| && init[j] == r[i];
              assert Less(s[j], s[|s| - 1]);
            }
          }
        }
      }
    }
  }

  lemma {:induction false} CanonicalSorted(names: seq<string>)
    ensures Sorted(Canonical(names))
    ensures forall y :: y in Canonical(names) <==> y in Names(names)
  {
    hide L.Trim;
    if names != [] {
      var init := names[..|names| - 1];
      CanonicalSorted(init);
      InsertSorted(Canonical(init), L.Trim(names[|names| - 1]));
      assert Names(names) == Names(init) + {L.Trim(names[|names| - 1])} by {
        forall y | y in Names(names) ensures y in Names(init) + {L.Trim(names[|names| - 1])} {
          var i :| 0 <= i < |names| && L.Trim(names[i]) == y;
          assert i < |init| ==> L.Trim(init[i]) == y;
        }
        forall y | y in Names(init) + {L.Trim(names[|names| - 1])} ensures y in Names(names) {
          if y in Names(init) {
            var i :| 0 <= i < |init| && L.Trim(init[i]) == y;
            assert L.Trim(names[i]) == y;
          }
        }
      }
    }
  }

  lemma FirstIn(s: seq<string>)
    requires s != []
    ensures s[0] in s
  {
  }

  lemma InitNames(a: seq<string>, y: string)
    requires a != [] && Sorted(a)
    ensures y in a[..|a| - 1] <==> y in a && y != a[|a| - 1]
  {
    hide Less;
    var init, last := a[..|a| - 1], a[|a| - 1];
    assert a == init + [last];
    if y in init {
      var i :| 0 <= i < |init| && init[i] == y;
      assert Less(a[i], last);
      LessTotal(last, last);
    }
  }

  /** A sorted list without duplicates is determined by its elements. */
  lemma {:induction false} SortedUnique(a: seq<string>, b: seq<string>)
    requires Sorted(a) && Sorted(b)
    requires forall y :: y in a <==> y in b
    ensures a == b
  {
    hide Less;
    if a != [] { FirstIn(a); }
    if b != [] { FirstIn(b); }
    if a != [] && b != [] {
      SameLast(a, b);
      var ai, bi := a[..|a| - 1], b[..|b| - 1];
      forall y ensures y in ai <==> y in bi {
        InitNames(a, y);
        InitNames(b, y);
      }
      SortedUnique(ai, bi);
      assert a == ai + [a[|a| - 1]] && b == bi + [b[|b| - 1]];
    }
  }

  lemma SameLast(a: seq<string>, b: seq<string>)
    requires a != [] && b != [] && Sorted(a) && Sorted(b)
    requires forall y :: y in a <==> y in b
    ensures a[|a| - 1] == b[|b| - 1]
  {
    hide Less;
    var al, bl := a[|a| - 1], b[|b| - 1];
    assert al in b && bl in a;
    LessTotal(al, bl);
  }

  // ---------- numbering ----------

  /** A roster is its sorted names; the identifier of a name is its place, counted from 1. */
  function IdOf(roster: seq<string>, name: string): nat {
    if roster == [] then 0
    else if roster[|roster| - 1] == name then |roster|
    else IdOf(roster[..|roster| - 1], name)
  }

  function Numbering(roster: seq<string>): map<string, nat> {
    map name | name in roster :: IdOf(roster, name)
  }

  function CheckRoster(names: seq<string>): Result<seq<string>> {
    var roster := Canonical(names);
    if |roster| < 2 || |roster| > U16_MAX then Err(Threshold) else Ok(roster)
  }

  lemma {:induction false} IdOfAt(roster: seq<string>, i: nat)
    requires Sorted(roster) && i < |roster|
    ensures IdOf(roster, roster[i]) == i + 1
  {
    if i < |roster| - 1 {
      LessTotal(roster[i], roster[|roster| - 1]);
      IdOfAt(roster[..|roster| - 1], i);
    }
  }

  lemma {:induction false} IdOfNone(roster: seq<string>, name: string)
    ensures IdOf(roster, name) <= |roster|
    ensures IdOf(roster, name) == 0 <==> name !in roster
    ensures IdOf(roster, name) > 0 ==> roster[IdOf(roster, name) - 1] == name
  {
    if roster != [] && roster[|roster| - 1] != name {
      IdOfNone(roster[..|roster| - 1], name);
      assert roster == roster[..|roster| - 1] + [roster[|roster| - 1]];
    }
  }

  /**
   The numbering depends only on the set of trimmed names: two rosters get the same result
   exactly when they name the same nodes, in whatever order and however often (or both are refused).
   */
  lemma RosterCanonical(a: seq<string>, b: seq<string>)
    ensures Names(a) == Names(b) ==> CheckRoster(a) == CheckRoster(b)
    ensures CheckRoster(a) == CheckRoster(b) && CheckRoster(a).Ok? ==> Names(a) == Names(b)
  {
    hide Names;
    CanonicalSorted(a);
    CanonicalSorted(b);
    if Names(a) == Names(b) {
      SortedUnique(Canonical(a), Canonical(b));
    } else if Canonical(a) == Canonical(b) {
      assert forall y :: y in Names(a) <==> y in Names(b);
    }
  }

  lemma {:induction false} SortedSize(s: seq<string>)
    requires Sorted(s)
    ensures |set n | n in s| == |s|
  {
    hide Less;
    if s != [] {
      var init, last := s[..|s| - 1], s[|s| - 1];
      SortedSize(init);
      assert s == init + [last];
      InitNames(s, last);
      assert (set n | n in s) == (set n | n in init) + {last};
    }
  }

  /** A roster is accepted exactly when it names between 2 and 65535 different nodes. */
  lemma CheckRosterExact(names: seq<string>)
    ensures CheckRoster(names).Ok? <==> 2 <= |Names(names)| <= 65535
    ensures CheckRoster(names).Ok? ==> Sorted(CheckRoster(names).value) && (set n | n in CheckRoster(names).value) == Names(names)
    ensures CheckRoster(names).Err? ==> CheckRoster(names) == Err(Threshold)
  {
    hide Names, Canonical, Sorted;
    CanonicalSorted(names);
    SortedSize(Canonical(names));
    assert (set n | n in Canonical(names)) == Names(names);
  }

  lemma NumberingNext(roster: seq<string>, ids: map<string, nat>, i: nat)
    requires Sorted(roster) && i < |roster|
    requires ids == Numbering(roster[..i])
    ensures ids[roster[i] := i + 1] == Numbering(roster[..i + 1])
  {
    var before, after := roster[..i], roster[..i + 1];
    assert after == before + [roster[i]];
    assert after[..|after| - 1] == before;
    forall k | 0 <= k < i ensures roster[k] != roster[i] {
      LessTotal(roster[k], roster[i]);
    }
  }

  /**
   Rebuild the roster as the source does: sort and drop duplicates, then number from 1 in u16
   arithmetic, refusing the identifier 0 that the 65536th name would get.
   */
  method BuildRoster(names: seq<string>) returns (r: Result<map<string, nat>>)
    ensures r == match CheckRoster(names)
                 case Ok(roster) => Ok(Numbering(roster))
                 case Err(e) => Err(e)
  {
    var sorted := SortDedup(names);
    CanonicalSorted(names);
    hide Canonical;
    if |sorted| < 2 {
      return Err(Threshold);
    }
    var ids: map<string, nat> := map[];
    var i := 0;
    while i < |sorted|
      invariant i <= |sorted| && i <= U16_MAX
      invariant ids == Numbering(sorted[..i])
    {
      var id := (i + 1) % (U16_MAX + 1);
      if id == 0 {
        return Err(Threshold);
      }
      NumberingNext(sorted, ids, i);
      ids := ids[sorted[i] := id];
      i := i + 1;
    }
    assert sorted[..|sorted|] == sorted;
    return Ok(ids);
  }

  method SortDedup(names: seq<string>) returns (sorted: seq<string>)
    ensures sorted == Canonical(names)
  {
    hide L.Trim, Insert;
    sorted := [];
    var i := 0;
    while i < |names|
      invariant i <= |names| && sorted == Canonical(names[..i])
    {
      sorted := Insert(sorted, L.Trim(names[i]));
      assert names[..i + 1][..i] == names[..i];
      i := i + 1;
    }
    assert names[..|names|] == names;
  }

  /** Every roster name has its place as identifier, and nothing else is numbered. */
  lemma NumberingPlaces(roster: seq<string>)
    requires Sorted(roster)
    ensures forall n :: n in Numbering(roster) <==> n in roster
    ensures forall i :: 0 <= i < |roster| ==> Numbering(roster)[roster[i]] == i + 1
  {
    forall i | 0 <= i < |roster| ensures IdOf(roster, roster[i]) == i + 1 {
      IdOfAt(roster, i);
    }
  }

  /** Look an identifier up by walking the roster in key order; 0 when it is not there. */
  method IdentifierToU16(roster: seq<string>, ids: map<string, nat>, id: nat) returns (n: nat)
    requires Sorted(roster) && ids == Numbering(roster)
    ensures n == if 1 <= id <= |roster| then id else 0
    ensures n > 0 ==> ids[roster[n - 1]] == id
  {
    var i := 0;
    while i < |roster|
      invariant i <= |roster|
      invariant !(1 <= id <= i)
    {
      IdOfAt(roster, i);
      if ids[roster[i]] == id {
        return i + 1;
      }
      i := i + 1;
    }
    return 0;
  }

  // ---------- the transcript ----------

  const PLAIN: string := "kerosene-dkg-wire-v1|"
  const TAPROOT: string := "kerosene-dkg-tr-wire-v1|"

  function Preimage(tag: string, session: string, max: nat, min: nat, roster: seq<string>): string {
    tag + session + "|max=" + Decimal(max) + "|min=" + Decimal(min) + "|roster=" + Join(roster)
  }

  /** Node ids the encoding can carry. */
  predicate Clean(roster: seq<string>) {
    roster != [] && forall n :: n in roster ==> ',' !in n && '|' !in n
  }

  lemma {:induction false} JoinNoBar(roster: seq<string>)
    requires forall n :: n in roster ==> '|' !in n
    ensures '|' !in Join(roster)
  {
    if |roster| > 1 {
      JoinNoBar(roster[..|roster| - 1]);
    }
  }

  /** A text splits in one way at its last tagged bar. */
  lemma BarSplit(a: string, x: string, b: string, y: string, tagged: string)
    requires a + tagged + x == b + tagged + y
    requires tagged != "" && tagged[0] == '|' && '|' !in tagged[1..] && '|' !in x && '|' !in y
    ensures a == b && x == y
  {
    var rest := tagged[1..];
    assert tagged == ['|'] + rest;
    assert a + tagged + x == a + ['|'] + (rest + x);
    assert b + tagged + y == b + ['|'] + (rest + y);
    LastSplit(a, rest + x, b, rest + y, '|');
    assert (rest + x)[|rest|..] == x && (rest + y)[|rest|..] == y;
  }

  /** One transcript preimage fixes session, thresholds and participants, whatever the session id contains. */
  lemma PreimageInjective(tag: string, s: string, max: nat, min: nat, r: seq<string>,
                          s': string, max': nat, min': nat, r': seq<string>)
    requires Clean(r) && Clean(r')
    requires Preimage(tag, s, max, min, r) == Preimage(tag, s', max', min', r')
    ensures s == s' && max == max' && min == min' && r == r'
  {
    JoinNoBar(r);
    JoinNoBar(r');
    DecimalNoBar(min);
    DecimalNoBar(min');
    DecimalNoBar(max);
    DecimalNoBar(max');
    hide Decimal, Join;
    BarSplit(tag + s + "|max=" + Decimal(max) + "|min=" + Decimal(min), Join(r),
             tag + s' + "|max=" + Decimal(max') + "|min=" + Decimal(min'), Join(r'), "|roster=");
    JoinInjective(r, r');
    BarSplit(tag + s + "|max=" + Decimal(max), Decimal(min), tag + s' + "|max=" + Decimal(max'), Decimal(min'), "|min=");
    DecimalInjective(min, min');
    BarSplit(tag + s, Decimal(max), tag + s', Decimal(max'), "|max=");
    DecimalInjective(max, max');
    assert (tag + s)[|tag|..] == s && (tag + s')[|tag|..] == s';
  }

  /** A plain transcript is never a Taproot transcript. */
  lemma DomainsApart(s: string, max: nat, min: nat, r: seq<string>, s': string, max': nat, min': nat, r': seq<string>)
    ensures Preimage(PLAIN, s, max, min, r) != Preimage(TAPROOT, s', max', min', r')
  {
    assert Preimage(PLAIN, s, max, min, r)[13] == 'w';
    assert Preimage(TAPROOT, s', max', min', r')[13] == 't';
  }

  /** A comma in a node id lets two different rosters share a transcript. */
  lemma CommaCollides()
    ensures var a, b := ["a", "b,c"], ["a,b", "c"];
            Sorted(a) && Sorted(b) && a != b && forall s, max, min :: Preimage(PLAIN, s, max, min, a) == Preimage(PLAIN, s, max, min, b)
  {
    var a, b := ["a", "b,c"], ["a,b", "c"];
    assert Join(a) == "a" + "," + "b,c" by { assert a[..1] == ["a"]; }
    assert Join(b) == "a,b" + "," + "c" by { assert b[..1] == ["a,b"]; }
    assert a[0] != b[0];
  }

  function Terms(max: nat, min: nat): string {
    "|max=" + Decimal(max) + "|min=" + Decimal(min) + "|roster="
  }

  lemma PairJoin(x: string, y: string)
    ensures Join([x, y]) == x + "," + y
  {
    assert [x, y][..1] == [x];
  }

  lemma PreimageTerms(session: string, max: nat, min: nat, roster: seq<string>)
    ensures Preimage(PLAIN, session, max, min, roster) == PLAIN + session + Terms(max, min) + Join(roster)
  {
    hide Join, Decimal;
    assert PLAIN + session + "|max=" + Decimal(max) + "|min=" + Decimal(min) + "|roster=" == PLAIN + session + Terms(max, min);
  }

  /** A bar in a node id lets two sessions with different rosters share a transcript, whatever their terms. */
  lemma BarCollides(session: string, max: nat, min: nat)
    ensures var a, b := ["a" + Terms(max, min) + "b", "c"], ["b", "c"];
            Sorted(a) && Sorted(b) && a != b &&
            Preimage(PLAIN, session, max, min, a) == Preimage(PLAIN, session + Terms(max, min) + "a", max, min, b)
  {
    hide Join, Terms, Preimage;
    var terms := Terms(max, min);
    var x := "a" + terms + "b";
    PairJoin(x, "c");
    PairJoin("b", "c");
    PreimageTerms(session, max, min, [x, "c"]);
    PreimageTerms(session + terms + "a", max, min, ["b", "c"]);
    assert x[0] == 'a';
    assert PLAIN + session + terms + (x + "," + "c") == PLAIN + (session + terms + "a") + terms + ("b" + "," + "c");
  }
}
