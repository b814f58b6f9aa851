/** The append-only line log behind both burn ledgers: one id per line, fsynced. */
module LineLog {

  /** Unicode White_Space, which is what `str::trim` removes. */
  predicate IsSpace(c: char) {
    var u := c as int;
    || 0x9 <= u <= 0xD || u == 0x20 || u == 0x85 || u == 0xA0 || u == 0x1680
    || 0x2000 <= u <= 0x200A || u == 0x2028 || u == 0x2029 || u == 0x202F || u == 0x205F || u == 0x3000
  }

  function TrimStart(s: string): (r: string)
    ensures r != "" ==> !IsSpace(r[0])
    ensures |r| <= |s| && r == s[|s| - |r|..]
  {
    if s != "" && IsSpace(s[0]) then TrimStart(s[1..]) else s
  }

  function TrimEnd(s: string): (r: string)
    ensures r != "" ==> !IsSpace(r[|r| - 1])
    ensures |r| <= |s| && r == s[..|r|]
  {
    if s != "" && IsSpace(s[|s| - 1]) then TrimEnd(s[..|s| - 1]) else s
  }

  function Trim(s: string): string {
    TrimEnd(TrimStart(s))
  }

  /**
   An id that survives being printed on a line of its own. With `comments`, as in
   the intent log, a line that starts with '#' is skipped on load.
   */
  predicate Fits(id: string, comments: bool) {
    && id != "" && '\n' !in id
    && !IsSpace(id[0]) && !IsSpace(id[|id| - 1])
    && (comments ==> id[0] != '#')
  }

  function Append(log: string, id: string): string {
    log + id + "\n"
  }

  /** Number of characters before the first newline (all of them when there is none). */
  function LineLen(text: string): (k: nat)
    ensures k <= |text| && '\n' !in text[..k]
    ensures k < |text| ==> text[k] == '\n'
  {
    if text == "" || text[0] == '\n' then 0
    else
      var k := 1 + LineLen(text[1..]);
      assert text[..k] == [text[0]] + text[1..][..k - 1];
      k
  }

  function LineIds(line: string, comments: bool): set<string> {
    var id := Trim(line);
    if id == "" || (comments && id[0] == '#') then {} else {id}
  }

  /** The ids a boot reads back. */
  function Load(text: string, comments: bool): set<string>
    decreases |text|
  {
    if text == "" then {}
    else
      var k := LineLen(text);
      LineIds(text[..k], comments) + (if k < |text| then Load(text[k + 1..], comments) else {})
  }

  function AfterLine(text: string): string {
    var k := LineLen(text);
    if k < |text| then text[k + 1..] else ""
  }

  lemma LoadLineByLine(text: string, comments: bool)
    requires text != ""
    ensures |AfterLine(text)| < |text|
    ensures Load(text, comments) == LineIds(text[..LineLen(text)], comments) + Load(AfterLine(text), comments)
  {
    hide LineIds, LineLen;
  }

  /** The boot loop: line by line, trimmed, blank lines and comments skipped. */
  method LoadIds(text: string, comments: bool) returns (ids: set<string>)
    ensures ids == Load(text, comments)
  {
    hide Trim, Load, LineLen, AfterLine;
    ids := {};
    var rest := text;
    while rest != ""
      invariant ids + Load(rest, comments) == Load(text, comments)
      decreases |rest|
    {
      LoadLineByLine(rest, comments);
      var line := rest[..LineLen(rest)];
      var id := Trim(line);
      if id != "" && !(comments && id[0] == '#') {
        ids := ids + {id};
      }
      rest := AfterLine(rest);
    }
    LoadEmpty(comments);
  }

  /** Logs are only ever grown by whole lines. */
  predicate Terminated(text: string) {
    text == "" || text[|text| - 1] == '\n'
  }

  function Print(ids: seq<string>): string {
    if ids == [] then "" else Append(Print(ids[..|ids| - 1]), ids[|ids| - 1])
  }

  lemma TrimFits(id: string)
    requires Fits(id, false)
    ensures Trim(id) == id
  {
  }

  lemma TrimmedNoNewline(line: string)
    requires '\n' !in line
    ensures '\n' !in Trim(line)
  {
    var a := TrimStart(line);
    forall i | 0 <= i < |a| ensures a[i] != '\n' {
      assert a[i] == line[|line| - |a| + i];
    }
  }

  /** Nothing but fitting ids is ever read back. */
  lemma {:induction false} LoadedFits(text: string, id: string, comments: bool)
    requires id in Load(text, comments)
    ensures Fits(id, comments)
    decreases |text|
  {
    var k := LineLen(text);
    if id in LineIds(text[..k], comments) {
      TrimmedNoNewline(text[..k]);
    } else {
      LoadedFits(text[k + 1..], id, comments);
    }
  }

  lemma {:induction false} LineLenApp(a: string, b: string)
    requires '\n' in a
    ensures LineLen(a + b) == LineLen(a) < |a|
  {
    if a[0] != '\n' {
      assert (a + b)[1..] == a[1..] + b;
      LineLenApp(a[1..], b);
    }
  }

  lemma LoadStep(text: string, k: nat, comments: bool)
    requires k < |text| && k == LineLen(text)
    ensures Load(text, comments) == LineIds(text[..k], comments) + Load(text[k + 1..], comments)
  {
    hide LineIds, LineLen, Trim;
  }

  lemma SplitApp(a: string, b: string, k: nat)
    requires k < |a|
    ensures (a + b)[..k] == a[..k] && (a + b)[k + 1..] == a[k + 1..] + b
  {
  }

  lemma LoadEmpty(comments: bool)
    ensures Load("", comments) == {} && Terminated("")
  {
  }

  /** Reading a terminated log and what follows it is reading both. */
  lemma {:induction false} LoadApp(a: string, b: string, comments: bool)
    requires Terminated(a)
    ensures Load(a + b, comments) == Load(a, comments) + Load(b, comments)
    decreases |a|
  {
    if a == "" {
      assert a + b == b;
    } else {
      assert a[|a| - 1] in a;
      LineLenApp(a, b);
      var k := LineLen(a);
      LoadApp(a[k + 1..], b, comments);
      SplitApp(a, b, k);
      LoadStep(a, k, comments);
      LoadStep(a + b, k, comments);
    }
  }

  lemma LoadLine(id: string, comments: bool)
    requires '\n' !in id
    ensures Load(id + "\n", comments) == LineIds(id, comments)
  {
    var t := id + "\n";
    assert t[|id|] == '\n';
    assert t[..LineLen(t)] == id;
  }

  lemma LoadFitting(id: string, comments: bool)
    requires Fits(id, comments)
    ensures Load(id + "\n", comments) == {id}
  {
    hide Load, Trim;
    TrimFits(id);
    LoadLine(id, comments);
  }

  /** Appending anything keeps every id already on disk and the line structure. */
  lemma AppendKeeps(log: string, id: string, comments: bool)
    requires Terminated(log)
    ensures Terminated(Append(log, id))
    ensures Load(log, comments) <= Load(Append(log, id), comments)
  {
    assert Append(log, id) == log + (id + "\n");
    LoadApp(log, id + "\n", comments);
  }

  /** Appending a fitting id adds exactly that id to what a reboot reads. */
  lemma AppendFits(log: string, id: string, comments: bool)
    requires Terminated(log) && Fits(id, comments)
    ensures Load(Append(log, id), comments) == Load(log, comments) + {id}
  {
    hide Load, Terminated, Fits;
    LoadFitting(id, comments);
    LoadApp(log, id + "\n", comments);
    assert Append(log, id) == log + (id + "\n");
  }

  /** A newly appended id survives a reboot exactly when it fits the line format. */
  lemma SurvivesIffFits(log: string, id: string, comments: bool)
    requires Terminated(log)
    ensures id in Load(Append(log, id), comments) <==> Fits(id, comments)
  {
    if Fits(id, comments) {
      AppendFits(log, id, comments);
    } else if id in Load(Append(log, id), comments) {
      LoadedFits(Append(log, id), id, comments);
    }
  }

  predicate Blank(s: string) {
    forall i :: 0 <= i < |s| ==> IsSpace(s[i])
  }

  lemma {:induction false} TrimStartPadded(a: string, s: string)
    requires Blank(a) && (s == "" || !IsSpace(s[0]))
    ensures TrimStart(a + s) == s
  {
    if a == "" {
      assert a + s == s;
    } else {
      assert (a + s)[1..] == a[1..] + s;
      TrimStartPadded(a[1..], s);
    }
  }

  lemma {:induction false} TrimEndPadded(s: string, b: string)
    requires Blank(b) && (s == "" || !IsSpace(s[|s| - 1]))
    ensures TrimEnd(s + b) == s
  {
    if b == "" {
      assert s + b == s;
    } else {
      assert (s + b)[..|s + b| - 1] == s + b[..|b| - 1];
      TrimEndPadded(s, b[..|b| - 1]);
    }
  }

  /** What trimming leaves of a padded text; a text of white space leaves nothing. */
  lemma TrimPadded(a: string, id: string, b: string)
    requires Blank(a) && Blank(b) && (id == "" || (!IsSpace(id[0]) && !IsSpace(id[|id| - 1])))
    ensures Trim(a + id + b) == id
  {
    hide IsSpace;
    if id == "" {
      assert a + id + b == (a + b) + "";
      TrimStartPadded(a + b, "");
    } else {
      assert a + id + b == a + (id + b);
      TrimStartPadded(a, id + b);
      TrimEndPadded(id, b);
    }
  }

  lemma {:induction false} TrimStartSplits(s: string)
    ensures Blank(s[..|s| - |TrimStart(s)|])
  {
    if s != "" && IsSpace(s[0]) {
      TrimStartSplits(s[1..]);
      var k := |s| - |TrimStart(s)|;
      assert s[..k] == [s[0]] + s[1..][..k - 1];
    }
  }

  lemma {:induction false} TrimEndSplits(s: string)
    ensures Blank(s[|TrimEnd(s)|..])
  {
    if s != "" && IsSpace(s[|s| - 1]) {
      TrimEndSplits(s[..|s| - 1]);
      var k := |TrimEnd(s)|;
      assert s[k..] == s[..|s| - 1][k..] + [s[|s| - 1]];
    }
  }

  /** The line is the text between white space. */
  ghost predicate Pads(line: string, id: string) {
    exists a, b :: Blank(a) && Blank(b) && line == a + id + b
  }

  /** A text is its trimmed part between white space. */
  lemma TrimPads(line: string)
    ensures Pads(line, Trim(line))
  {
    TrimStartSplits(line);
    TrimEndSplits(TrimStart(line));
    hide IsSpace, Blank, TrimStart, TrimEnd;
    var s := TrimStart(line);
    var id := TrimEnd(s);
    var a, b := line[..|line| - |s|], s[|id|..];
    assert s == id + b;
    assert line == a + id + b;
  }

  lemma TrimFitting(line: string, id: string, comments: bool)
    requires Fits(id, comments) && Pads(line, id)
    ensures Trim(line) == id
  {
    hide IsSpace, Blank, TrimStart, TrimEnd, Trim;
    var a, b :| Blank(a) && Blank(b) && line == a + id + b;
    TrimPadded(a, id, b);
  }

  lemma TrimmedEnds(line: string)
    requires Trim(line) != ""
    ensures !IsSpace(Trim(line)[0]) && !IsSpace(Trim(line)[|Trim(line)| - 1])
  {
    hide IsSpace;
  }

  /** A line reads as the fitting id it holds between white space, and as nothing when it holds none. */
  lemma LineHolds(line: string, id: string, comments: bool)
    requires '\n' !in line
    ensures id in LineIds(line, comments) <==> Fits(id, comments) && Pads(line, id)
  {
    hide Trim, IsSpace, Pads;
    TrimPads(line);
    TrimmedNoNewline(line);
    if Trim(line) != "" {
      TrimmedEnds(line);
    }
    if Fits(id, comments) && Pads(line, id) {
      TrimFitting(line, id, comments);
    }
  }

  /**
   Reading line by line: one more line, ended or cut off, adds the fitting id it holds between white
   space, and nothing else.
   */
  lemma LineReads(log: string, line: string, ended: bool, id: string, comments: bool)
    requires Terminated(log) && '\n' !in line
    ensures id in Load(log + line + (if ended then "\n" else ""), comments) <==>
              id in Load(log, comments) || (Fits(id, comments) && Pads(line, id))
  {
    hide Fits, Pads, Terminated, Trim;
    LineHolds(line, id, comments);
    hide Load;
    var more := line + if ended then "\n" else "";
    assert log + line + (if ended then "\n" else "") == log + more;
    LoadApp(log, more, comments);
    if ended {
      LoadLine(line, comments);
    } else {
      LoadCut(line, comments);
    }
  }

  lemma LoadCut(line: string, comments: bool)
    requires '\n' !in line
    ensures Load(line, comments) == LineIds(line, comments)
  {
    if line != "" {
      assert line[..LineLen(line)] == line;
    }
  }

  function Elements(ids: seq<string>): (s: set<string>)
    ensures forall x :: x in s <==> x in ids
  {
    if ids == [] then {} else Elements(ids[..|ids| - 1]) + {ids[|ids| - 1]}
  }

  /** Printing then loading a log of fitting ids is the identity on sets. */
  lemma {:induction false} PrintLoad(ids: seq<string>, comments: bool)
    requires forall id :: id in ids ==> Fits(id, comments)
    ensures Terminated(Print(ids))
    ensures Load(Print(ids), comments) == Elements(ids)
  {
    if ids != [] {
      var init, last := ids[..|ids| - 1], ids[|ids| - 1];
      PrintLoad(init, comments);
      AppendFits(Print(init), last, comments);
    }
  }
}
