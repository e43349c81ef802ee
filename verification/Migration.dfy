/** Migrating renamed server sections in a config file, by editing its lines. */
module Migration {

  const HEAD := "[mcp_servers."
  const COMMAND := "command"

  // ---- Text -----------------------------------------------------------------------------------------------------

  function Find(s: string, c: char): (i: nat)
    ensures i <= |s| && (i < |s| ==> s[i] == c) && forall j | 0 <= j < i :: s[j] != c
  {
    if s == "" || s[0] == c then 0
    else
      var i := Find(s[1..], c);
      assert forall j | 0 < j < i + 1 :: s[j] == s[1..][j - 1];
      i + 1
  }

  function Split(s: string): (lines: seq<string>)
    ensures lines != [] && lines[0] == s[..Find(s, '\n')] && forall i | 0 <= i < |lines| :: '\n' !in lines[i]
  {
    var k := Find(s, '\n');
    if k == |s| then [s] else [s[..k]] + Split(s[k + 1..])
  }

  function Join(lines: seq<string>): string {
    if lines == [] then ""
    else if |lines| == 1 then lines[0]
    else lines[0] + "\n" + Join(lines[1..])
  }

  lemma {:induction false} JoinOfSplit(s: string)
    ensures Join(Split(s)) == s
  {
    hide Find;
    var k := Find(s, '\n');
    if k < |s| {
      JoinOfSplit(s[k + 1..]);
      assert s == s[..k] + "\n" + s[k + 1..];
      assert ([s[..k]] + Split(s[k + 1..]))[1..] == Split(s[k + 1..]);
    }
  }

  lemma FindFirst(a: string, c: char, b: string)
    requires c !in a
    ensures Find(a + [c] + b, c) == |a|
    ensures Find(a, c) == |a|
  {
    var s := a + [c] + b;
    assert s[|a|] == c;
    assert forall j | 0 <= j < |a| :: s[j] == a[j] && a[j] in a;
  }

  lemma {:induction false} SplitOfJoin(lines: seq<string>)
    requires lines != [] && forall i | 0 <= i < |lines| :: '\n' !in lines[i]
    ensures Split(Join(lines)) == lines
  {
    hide Find;
    if |lines| == 1 {
      FindFirst(lines[0], '\n', "");
    } else {
      SplitOfJoin(lines[1..]);
      SplitAtBreak(lines[0], Join(lines[1..]));
      assert lines == [lines[0]] + lines[1..];
    }
  }

  lemma SplitAtBreak(a: string, b: string)
    requires '\n' !in a
    ensures Split(a + "\n" + b) == [a] + Split(b)
  {
    hide Find;
    FindFirst(a, '\n', b);
    var s := a + "\n" + b;
    assert s[..|a|] == a && s[|a| + 1..] == b;
  }

  /** Length of the leading blanks. */
  function Blanks(s: string): (i: nat)
    ensures i <= |s| && forall j | 0 <= j < i :: s[j] in " \t"
    ensures i < |s| ==> s[i] !in " \t"
  {
    if s != "" && s[0] in " \t" then
      var i := Blanks(s[1..]);
      assert forall j | 0 < j < i + 1 :: s[j] == s[1..][j - 1];
      i + 1
    else 0
  }

  predicate AllBlank(s: string) {
    Blanks(s) == |s|
  }

  /** The rest of a header line: a closing bracket, perhaps after a dotted path, then blanks. */
  predicate Closes(t: string) {
    var k := Find(t, ']');
    k < |t| && (k == 0 || t[0] == '.') && AllBlank(t[k + 1..])
  }

  /** The header of the section of a server, or of one of its sub-sections. */
  predicate IsHeaderOf(name: string, s: string) {
    var b := Blanks(s);
    HEAD + name <= s[b..] && Closes(s[b + |HEAD + name|..])
  }

  predicate IsHeader(line: string) {
    var b := Blanks(line);
    b < |line| && line[b] == '['
  }

  predicate IsCommand(line: string) {
    var b := Blanks(line);
    COMMAND <= line[b..] && "=" <= line[b + |COMMAND|..][Blanks(line[b + |COMMAND|..])..]
  }

  predicate StartsAt(s: string, i: nat, sub: string)
    requires i <= |s|
  {
    sub <= s[i..]
  }

  predicate Contains(s: string, sub: string) {
    exists i :: 0 <= i <= |s| && StartsAt(s, i, sub)
  }

  function ReplaceAll(s: string, was: string, now: string): string
    requires was != ""
  {
    if |s| < |was| then s
    else if s[..|was|] == was then now + ReplaceAll(s[|was|..], was, now)
    else [s[0]] + ReplaceAll(s[1..], was, now)
  }

  /** The whole-text search: a header from the start of some line to the end of some line, not always the same one. */
  predicate Mentions(name: string, content: string) {
    exists i, j :: 0 <= i <= j <= |content| && HeaderSpans(name, content, i, j)
  }

  predicate HeaderSpans(name: string, content: string, i: nat, j: nat)
    requires i <= j <= |content|
  {
    && (i == 0 || content[i - 1] == '\n') && (j == |content| || content[j] == '\n')
    && IsHeaderOf(name, content[i..j])
  }

  // ---- Removing sections ------------------------------------------------------------------------------------------

  /** What stands before the first header, and then every section with its header. */
  function Blocks(lines: seq<string>): (blocks: seq<seq<string>>)
    ensures blocks != []
  {
    if lines == [] then [[]]
    else
      var n := |lines| - 1;
      var before, line := Blocks(lines[..n]), lines[n];
      if IsHeader(line) then before + [[line]]
      else before[..|before| - 1] + [before[|before| - 1] + [line]]
  }

  predicate Dropped(name: string, block: seq<string>) {
    block != [] && IsHeaderOf(name, block[0])
  }

  function Keep(name: string, blocks: seq<seq<string>>): seq<string> {
    if blocks == [] then []
    else
      var n := |blocks| - 1;
      Keep(name, blocks[..n]) + if Dropped(name, blocks[n]) then [] else blocks[n]
  }

  method RemoveTomlSections(content: string, name: string) returns (result: string)
    ensures result == Join(Keep(name, Blocks(Split(content))))
  {
    hide IsHeaderOf, IsHeader, Dropped, Keep;
    var lines := Split(content);
    var out: seq<string>, skipping := [], false;
    NothingKept(name);
    for i := 0 to |lines|
      invariant out == Keep(name, Blocks(lines[..i]))
      invariant skipping <==> Dropped(name, Blocks(lines[..i])[|Blocks(lines[..i])| - 1])
    {
      var line := lines[i];
      KeepStep(name, lines, i);
      if IsHeaderOf(name, line) {
        skipping := true;
        continue;
      } else if skipping && IsHeader(line) {
        skipping := false;
      } else if skipping {
        continue;
      }
      out := out + [line];
    }
    assert lines[..|lines|] == lines;
    result := Join(out);
  }

  lemma NothingKept(name: string)
    ensures Keep(name, Blocks([])) == [] && !Dropped(name, Blocks([])[0])
  {
  }

  lemma HeaderOfIsHeader(name: string, line: string)
    requires IsHeaderOf(name, line)
    ensures IsHeader(line)
  {
    assert (HEAD + name)[0] == '[';
  }

  lemma KeepStep(name: string, lines: seq<string>, i: nat)
    requires i < |lines|
    ensures var before, after, line := Blocks(lines[..i]), Blocks(lines[..i + 1]), lines[i];
      var skipping := Dropped(name, before[|before| - 1]);
      && (Dropped(name, after[|after| - 1]) <==> IsHeaderOf(name, line) || (skipping && !IsHeader(line)))
      && Keep(name, after) ==
           Keep(name, before) + if IsHeaderOf(name, line) || (skipping && !IsHeader(line)) then [] else [line]
  {
    var before, line := Blocks(lines[..i]), lines[i];
    var n := |before| - 1;
    assert lines[..i + 1][..i] == lines[..i];
    if IsHeaderOf(name, line) { HeaderOfIsHeader(name, line); }
    if IsHeader(line) {
      assert (before + [[line]])[..n + 1] == before;
    } else {
      var last := before[n] + [line];
      assert (before[..n] + [last])[..n] == before[..n];
    }
  }

  // ---- Renaming sections ------------------------------------------------------------------------------------------

  /** The last header at or before line `i`, or -1. */
  function HeaderOver(lines: seq<string>, i: nat): (h: int)
    requires i <= |lines|
    ensures -1 <= h < i && (h >= 0 ==> IsHeader(lines[h])) && forall k | h < k < i :: !IsHeader(lines[k])
  {
    if i == 0 then -1 else if IsHeader(lines[i - 1]) then i - 1 else HeaderOver(lines, i - 1)
  }

  predicate InSectionOf(name: string, lines: seq<string>, i: nat)
    requires i <= |lines|
  {
    HeaderOver(lines, i) >= 0 && IsHeaderOf(name, lines[HeaderOver(lines, i)])
  }

  function RenamedLine(lines: seq<string>, i: nat, was: string, now: string): string
    requires i < |lines| && was != ""
  {
    var line := lines[i];
    if IsHeaderOf(was, line) then ReplaceAll(line, was, now)
    else if !IsHeader(line) && InSectionOf(was, lines, i) && IsCommand(line) && Contains(line, was + "-")
      then ReplaceAll(line, was + "-", now + "-")
    else line
  }

  function Renamed(lines: seq<string>, was: string, now: string): (renamed: seq<string>)
    requires was != ""
    ensures |renamed| == |lines| && forall i | 0 <= i < |lines| :: renamed[i] == RenamedLine(lines, i, was, now)
  {
    seq(|lines|, i requires 0 <= i < |lines| => RenamedLine(lines, i, was, now))
  }

  method RenameLegacyMcpSections(content: string, was: string, now: string) returns (result: string)
    requires was != ""
    ensures result == Join(Renamed(Split(content), was, now))
  {
    hide IsHeaderOf, IsHeader, IsCommand, Contains, ReplaceAll, Split, InSectionOf, RenamedLine;
    ghost var before := Split(content);
    var text := Split(content);
    var lines := new string[|text|](i requires 0 <= i < |text| => text[i]);
    var inSection := false;
    NotYetInSection(was, before);
    for i := 0 to lines.Length
      invariant forall k | 0 <= k < i :: lines[k] == RenamedLine(before, k, was, now)
      invariant forall k | i <= k < lines.Length :: lines[k] == before[k]
      invariant inSection <==> InSectionOf(was, before, i)
    {
      var line := lines[i];
      RenameStep(before, i, was, now);
      if IsHeaderOf(was, line) {
        lines[i] := ReplaceAll(line, was, now);
        inSection := true;
      } else if IsHeader(line) {
        inSection := false;
      } else if inSection && IsCommand(line) && Contains(line, was + "-") {
        lines[i] := ReplaceAll(line, was + "-", now + "-");
      }
    }
    assert lines[..] == Renamed(before, was, now);
    result := Join(lines[..]);
  }

  lemma NotYetInSection(name: string, lines: seq<string>)
    ensures !InSectionOf(name, lines, 0)
  {
  }

  lemma RenameStep(lines: seq<string>, i: nat, was: string, now: string)
    requires i < |lines| && was != ""
    ensures var line, here := lines[i], InSectionOf(was, lines, i);
      && (InSectionOf(was, lines, i + 1) <==> IsHeaderOf(was, line) || (here && !IsHeader(line)))
      && RenamedLine(lines, i, was, now) == (
           if IsHeaderOf(was, line) then ReplaceAll(line, was, now)
           else if !IsHeader(line) && here && IsCommand(line) && Contains(line, was + "-")
             then ReplaceAll(line, was + "-", now + "-")
           else line)
  {
    hide IsHeaderOf, IsHeader, IsCommand, Contains, ReplaceAll;
    HeaderOfIsHeaderOrNot(was, lines[i]);
  }

  lemma HeaderOfIsHeaderOrNot(name: string, line: string)
    ensures IsHeaderOf(name, line) ==> IsHeader(line)
  {
    if IsHeaderOf(name, line) { HeaderOfIsHeader(name, line); }
  }

  datatype Verdict = Untouched | Removed | Renaming

  method MigrateLegacyMcpSection(content: string, was: string, now: string) returns (result: string, verdict: Verdict)
    requires was != ""
    ensures result == Migrated(content, was, now) && verdict == VerdictOn(content, was, now)
  {
    result := content;
    if !Mentions(was, content) { return content, Untouched; }
    if Mentions(now, content) {
      result := RemoveTomlSections(content, was);
      return result, Removed;
    }
    result := RenameLegacyMcpSections(content, was, now);
    verdict := Renaming;
  }

  function VerdictOn(content: string, was: string, now: string): Verdict {
    if !Mentions(was, content) then Untouched else if Mentions(now, content) then Removed else Renaming
  }

  function Migrated(content: string, was: string, now: string): string
    requires was != ""
  {
    match VerdictOn(content, was, now)
    case Untouched => content
    case Removed => Join(Keep(was, Blocks(Split(content))))
    case Renaming => Join(Renamed(Split(content), was, now))
  }

  // ---- Laws -------------------------------------------------------------------------------------------------------

  /** What the table of renames promises of its names: the new one differs from the old at a shared position, the
      old one begins with nothing a header or a command line begins with, and neither breaks a line or a bracket. */
  predicate Rename(was: string, now: string) {
    && was != "" && was[0] !in " \t" + HEAD + COMMAND
    && ']' !in was + now && '\n' !in was + now
    && exists k :: 0 <= k < |was| && k < |now| && was[k] != now[k]
  }

  lemma TheTableRenames()
    ensures Rename("tmux-msg", "tmux-tell")
  {
    assert "tmux-msg"[5] != "tmux-tell"[5];
  }

  lemma {:induction false} ReplaceAfter(p: string, s: string, was: string, now: string)
    requires was != "" && was[0] !in p
    ensures ReplaceAll(p + s, was, now) == p + ReplaceAll(s, was, now)
  {
    if p != "" {
      assert p[0] in p && (p + s)[0] == p[0];
      assert (p + s)[1..] == p[1..] + s;
      ReplaceAfter(p[1..], s, was, now);
      Unmatched(p + s, was, now);
    } else {
      assert p + s == s;
    }
  }

  lemma Unmatched(s: string, was: string, now: string)
    requires s != "" && was != "" && s[0] != was[0]
    ensures ReplaceAll(s, was, now) == [s[0]] + ReplaceAll(s[1..], was, now)
  {
    if |s| < |was| {
      Short(s[1..], was, now);
    } else {
      assert s[..|was|][0] == s[0];
    }
  }

  lemma Short(s: string, was: string, now: string)
    requires |s| < |was|
    ensures ReplaceAll(s, was, now) == s
  {
  }

  lemma ReplaceHead(t: string, was: string, now: string)
    requires was != ""
    ensures ReplaceAll(was + t, was, now) == now + ReplaceAll(t, was, now)
  {
    assert (was + t)[..|was|] == was && (was + t)[|was|..] == t;
  }

  lemma NoMatchAcross(a: string, c: char, b: string, was: string)
    requires c !in was && !(|a| >= |was| && a[..|was|] == was)
    ensures var s := a + [c] + b; !(|s| >= |was| && s[..|was|] == was)
  {
    var s := a + [c] + b;
    assert |a| < |was| <= |s| ==> s[..|was|][|a|] == c;
    assert |was| <= |a| ==> s[..|was|] == a[..|was|];
  }

  lemma ReplaceStep(s: string, was: string, now: string)
    requires s != "" && was != "" && !(|s| >= |was| && s[..|was|] == was)
    ensures ReplaceAll(s, was, now) == [s[0]] + ReplaceAll(s[1..], was, now)
  {
    if |s| < |was| { Short(s[1..], was, now); }
  }

  /** A character that the old name does not contain keeps replacements apart. */
  lemma {:induction false} ReplaceAcross(a: string, c: char, b: string, was: string, now: string)
    requires was != "" && c !in was
    ensures ReplaceAll(a + [c] + b, was, now) == ReplaceAll(a, was, now) + [c] + ReplaceAll(b, was, now)
    decreases |a|
  {
    hide ReplaceAll;
    var s := a + [c] + b;
    if a == "" {
      assert s == [c] + b;
      ReplaceAfter([c], b, was, now);
      Short(a, was, now);
    } else if |a| >= |was| && a[..|was|] == was {
      var a' := a[|was|..];
      assert a == was + a' && s == was + (a' + [c] + b);
      ReplaceHead(a', was, now);
      ReplaceHead(a' + [c] + b, was, now);
      ReplaceAcross(a', c, b, was, now);
    } else {
      assert s[1..] == a[1..] + [c] + b;
      NoMatchAcross(a, c, b, was);
      ReplaceStep(s, was, now);
      ReplaceStep(a, was, now);
      ReplaceAcross(a[1..], c, b, was, now);
    }
  }

  lemma {:induction false} ReplaceBrings(s: string, c: char, was: string, now: string)
    requires was != "" && c !in s && c !in now
    ensures c !in ReplaceAll(s, was, now)
  {
    if |s| >= |was| {
      if s[..|was|] == was { ReplaceBrings(s[|was|..], c, was, now); } else { ReplaceBrings(s[1..], c, was, now); }
    }
  }

  lemma BlanksOf(p: string, c: char, t: string)
    requires AllBlank(p) && c !in " \t"
    ensures Blanks(p + [c] + t) == |p|
  {
    var s := p + [c] + t;
    assert s[|p|] == c;
    assert forall j | 0 <= j < |p| :: s[j] == p[j];
  }

  /** What follows the name in a header. */
  predicate IsTail(t: string, m: string, trail: string) {
    t == m + "]" + trail && AllBlank(trail) && ']' !in m && (m == "" || m[0] == '.')
  }

  lemma TailParts(t: string) returns (m: string, trail: string)
    requires Closes(t)
    ensures IsTail(t, m, trail)
  {
    var k := Find(t, ']');
    m, trail := t[..k], t[k + 1..];
  }

  lemma TailCloses(t: string, m: string, trail: string)
    requires IsTail(t, m, trail)
    ensures Closes(t)
  {
    FindFirst(m, ']', trail);
    assert t[|m| + 1..] == trail;
  }

  /** A header line of the old section, taken apart. */
  lemma HeaderParts(name: string, line: string) returns (p: string, t: string)
    requires IsHeaderOf(name, line)
    ensures AllBlank(p) && Closes(t) && line == p + (HEAD + name + t)
  {
    hide Closes;
    var b := Blanks(line);
    p, t := line[..b], line[b + |HEAD + name|..];
    PrefixIsBlank(line, b);
    assert line[b..] == HEAD + name + line[b..][|HEAD + name|..];
    assert line[b..][|HEAD + name|..] == t;
    assert line == p + line[b..];
  }

  lemma PrefixIsBlank(line: string, b: nat)
    requires b <= Blanks(line)
    ensures AllBlank(line[..b])
  {
    assert forall j | 0 <= j < b :: line[..b][j] == line[j];
  }

  lemma PartsMakeHeader(name: string, p: string, t: string)
    requires AllBlank(p) && Closes(t)
    ensures IsHeaderOf(name, p + (HEAD + name + t))
  {
    hide Closes;
    var line := p + (HEAD + name + t);
    BlanksOfHeader(p, name, t);
    assert line[|p|..] == HEAD + name + t;
    assert line[|p| + |HEAD + name|..] == t;
  }

  lemma BlanksOfHeader(p: string, name: string, t: string)
    requires AllBlank(p)
    ensures Blanks(p + (HEAD + name + t)) == |p|
  {
    var rest := HEAD + name + t;
    assert rest == ['['] + rest[1..];
    assert p + ['['] + rest[1..] == p + rest;
    BlanksOf(p, '[', rest[1..]);
  }

  lemma NotIn(c: char, p: string)
    requires AllBlank(p) && c !in " \t"
    ensures c !in p
  {
  }

  /** A migrated header becomes the header of the same section under the new name, and not of the old. */
  lemma HeaderBecomesNew(line: string, was: string, now: string)
    requires Rename(was, now) && IsHeaderOf(was, line)
    ensures IsHeaderOf(now, ReplaceAll(line, was, now)) && !IsHeaderOf(was, ReplaceAll(line, was, now))
  {
    hide IsHeaderOf, ReplaceAll, Closes;
    var p, t := HeaderParts(was, line);
    NotIn(was[0], p);
    TailStaysTail(t, was, now);
    assert line == (p + HEAD) + (was + t);
    ReplaceAfter(p + HEAD, was + t, was, now);
    ReplaceHead(t, was, now);
    var t' := ReplaceAll(t, was, now);
    assert (p + HEAD) + (now + t') == p + (HEAD + now + t');
    PartsMakeHeader(now, p, t');
    OtherName(p, was, now, t');
  }

  lemma TailStaysTail(t: string, was: string, now: string)
    requires Rename(was, now) && Closes(t)
    ensures Closes(ReplaceAll(t, was, now))
  {
    hide ReplaceAll, Closes;
    var m, trail := TailParts(t);
    NotIn(was[0], trail);
    ReplaceAcross(m, ']', trail, was, now);
    ReplaceAfter(trail, "", was, now);
    Short("", was, now);
    assert trail + "" == trail;
    ReplaceBrings(m, ']', was, now);
    if m == "" { Short(m, was, now); } else { Unmatched(m, was, now); }
    TailCloses(ReplaceAll(t, was, now), ReplaceAll(m, was, now), trail);
  }

  lemma OtherName(p: string, was: string, now: string, t: string)
    requires AllBlank(p) && Rename(was, now)
    ensures !IsHeaderOf(was, p + (HEAD + now + t))
  {
    hide Closes;
    var r, rest := p + (HEAD + now + t), HEAD + now + t;
    BlanksOfHeader(p, now, t);
    var k :| 0 <= k < |was| && k < |now| && was[k] != now[k];
    assert r[|p|..] == rest;
    assert (HEAD + was)[|HEAD| + k] == was[k] && rest[|HEAD| + k] == now[k];
  }

  /** A command line stays a line that is no header. */
  lemma CommandStaysCommand(line: string, was: string, now: string)
    requires Rename(was, now) && IsCommand(line)
    ensures !IsHeader(ReplaceAll(line, was + "-", now + "-"))
  {
    var b := Blanks(line);
    var p, t := line[..b], line[b + 1..];
    assert line[b] == COMMAND[0] == 'c';
    assert line == p + ['c'] + t && line == (p + ['c']) + t;
    PrefixIsBlank(line, b);
    NotIn(was[0], p);
    assert (was + "-")[0] == was[0];
    ReplaceAfter(p + ['c'], t, was + "-", now + "-");
    BlanksOf(p, 'c', ReplaceAll(t, was + "-", now + "-"));
  }

  /** No header of the old section is left, and no line is broken. */
  lemma NoOldHeaderSurvives(lines: seq<string>, was: string, now: string)
    requires Rename(was, now) && forall i | 0 <= i < |lines| :: '\n' !in lines[i]
    ensures forall i | 0 <= i < |lines| :: !IsHeaderOf(was, Renamed(lines, was, now)[i]) && '\n' !in Renamed(lines, was, now)[i]
  {
    forall i | 0 <= i < |lines|
      ensures !IsHeaderOf(was, RenamedLine(lines, i, was, now)) && '\n' !in RenamedLine(lines, i, was, now)
    {
      hide IsHeaderOf, IsHeader, IsCommand, ReplaceAll;
      var line, r := lines[i], RenamedLine(lines, i, was, now);
      if IsHeaderOf(was, line) {
        HeaderBecomesNew(line, was, now);
        ReplaceBrings(line, '\n', was, now);
      } else if r != line {
        CommandStaysCommand(line, was, now);
        HeaderOfIsHeaderOrNot(was, r);
        ReplaceBrings(line, '\n', was + "-", now + "-");
      }
    }
  }

  /** The blocks are the lines in order, cut before each header. */
  predicate AreSections(blocks: seq<seq<string>>) {
    && (forall b | 0 < b < |blocks| :: blocks[b] != [] && IsHeader(blocks[b][0]))
    && (forall b, k | 0 <= b < |blocks| && (if b == 0 then 0 else 1) <= k < |blocks[b]| :: !IsHeader(blocks[b][k]))
  }

  function Concat(blocks: seq<seq<string>>): seq<string> {
    if blocks == [] then [] else Concat(blocks[..|blocks| - 1]) + blocks[|blocks| - 1]
  }

  lemma HeaderOpensBlock(blocks: seq<seq<string>>, line: string)
    requires AreSections(blocks) && blocks != [] && IsHeader(line)
    ensures AreSections(blocks + [[line]]) && Concat(blocks + [[line]]) == Concat(blocks) + [line]
  {
    hide IsHeader;
    assert (blocks + [[line]])[..|blocks|] == blocks;
  }

  lemma LineJoinsBlock(blocks: seq<seq<string>>, line: string)
    requires AreSections(blocks) && blocks != [] && !IsHeader(line)
    ensures var n := |blocks| - 1; var longer := blocks[..n] + [blocks[n] + [line]];
      AreSections(longer) && Concat(longer) == Concat(blocks) + [line]
  {
    hide IsHeader;
    var n := |blocks| - 1;
    var longer := blocks[..n] + [blocks[n] + [line]];
    assert longer[..n] == blocks[..n];
    assert Concat(blocks[..n]) + (blocks[n] + [line]) == Concat(blocks[..n]) + blocks[n] + [line];
    forall b | 0 < b < |longer| ensures longer[b] != [] && IsHeader(longer[b][0]) {
      assert longer[b][0] == blocks[b][0];
    }
    forall b, k | 0 <= b < |longer| && (if b == 0 then 0 else 1) <= k < |longer[b]| ensures !IsHeader(longer[b][k]) {
      if k < |blocks[b]| { assert longer[b][k] == blocks[b][k]; }
    }
  }

  lemma {:induction false} BlocksCutAtHeaders(lines: seq<string>)
    ensures AreSections(Blocks(lines)) && Concat(Blocks(lines)) == lines
  {
    hide IsHeader, AreSections, Concat;
    if lines == [] {
      EmptyPreamble();
    } else {
      var n := |lines| - 1;
      BlocksCutAtHeaders(lines[..n]);
      assert lines == lines[..n] + [lines[n]];
      if IsHeader(lines[n]) { HeaderOpensBlock(Blocks(lines[..n]), lines[n]); }
      else { LineJoinsBlock(Blocks(lines[..n]), lines[n]); }
    }
  }

  lemma EmptyPreamble()
    ensures AreSections([[]]) && Concat([[]]) == []
  {
    assert Concat([[]]) == Concat([[]][..0]) + [];
  }

  predicate Free(name: string, lines: seq<string>) {
    forall i | 0 <= i < |lines| :: !IsHeaderOf(name, lines[i])
  }

  predicate Whole(lines: seq<string>) {
    forall i | 0 <= i < |lines| :: '\n' !in lines[i]
  }

  /** What is kept is free of the section's headers, and comes from the lines there were. */
  lemma {:induction false} KeptIsFree(name: string, blocks: seq<seq<string>>)
    requires AreSections(blocks)
    ensures Free(name, Keep(name, blocks))
    ensures forall x | x in Keep(name, blocks) :: exists b :: 0 <= b < |blocks| && x in blocks[b]
  {
    hide IsHeader, IsHeaderOf;
    if blocks != [] {
      var n := |blocks| - 1;
      KeptIsFree(name, blocks[..n]);
      if !Dropped(name, blocks[n]) {
        forall k | 0 <= k < |blocks[n]| ensures !IsHeaderOf(name, blocks[n][k]) {
          HeaderOfIsHeaderOrNot(name, blocks[n][k]);
        }
      }
      forall x | x in Keep(name, blocks) ensures exists b :: 0 <= b < |blocks| && x in blocks[b] {
        if x in Keep(name, blocks[..n]) {
          var b :| 0 <= b < n && x in blocks[..n][b];
          assert x in blocks[b];
        } else {
          assert x in blocks[n];
        }
      }
    }
  }

  lemma {:induction false} InConcat(blocks: seq<seq<string>>, b: nat, x: string)
    requires b < |blocks| && x in blocks[b]
    ensures x in Concat(blocks)
  {
    var n := |blocks| - 1;
    if b < n { InConcat(blocks[..n], b, x); }
  }

  lemma KeptIsWhole(name: string, lines: seq<string>)
    requires Whole(lines)
    ensures Free(name, Keep(name, Blocks(lines))) && Whole(Keep(name, Blocks(lines)))
    ensures forall x | x in Keep(name, Blocks(lines)) :: x in lines
  {
    hide IsHeader, IsHeaderOf, Keep, AreSections;
    var blocks := Blocks(lines);
    BlocksCutAtHeaders(lines);
    KeptIsFree(name, blocks);
    forall x | x in Keep(name, blocks) ensures x in lines {
      var b :| 0 <= b < |blocks| && x in blocks[b];
      InConcat(blocks, b, x);
    }
    assert forall i | 0 <= i < |Keep(name, blocks)| :: Keep(name, blocks)[i] in lines;
  }

  lemma {:induction false} FreeKeepsAll(name: string, blocks: seq<seq<string>>)
    requires forall b | 0 <= b < |blocks| :: Free(name, blocks[b])
    ensures Keep(name, blocks) == Concat(blocks)
  {
    if blocks != [] { FreeKeepsAll(name, blocks[..|blocks| - 1]); }
  }

  /** Lines without old headers are left alone by both edits. */
  lemma FreeIsSettled(lines: seq<string>, was: string, now: string)
    requires was != "" && Free(was, lines)
    ensures Keep(was, Blocks(lines)) == lines && Renamed(lines, was, now) == lines
  {
    hide IsHeader, IsHeaderOf;
    var blocks := Blocks(lines);
    BlocksCutAtHeaders(lines);
    forall b | 0 <= b < |blocks| ensures Free(was, blocks[b]) {
      forall k | 0 <= k < |blocks[b]| ensures !IsHeaderOf(was, blocks[b][k]) {
        InConcat(blocks, b, blocks[b][k]);
        var i :| 0 <= i < |lines| && lines[i] == blocks[b][k];
      }
    }
    FreeKeepsAll(was, blocks);
  }

  /** The lines a migration leaves behind are free of the old section's headers, unless it did nothing. */
  lemma MigratedIsFree(content: string, was: string, now: string)
    requires Rename(was, now) && VerdictOn(content, was, now) != Untouched
    ensures Free(was, Split(Migrated(content, was, now)))
  {
    hide IsHeader, IsHeaderOf, Mentions, Split, Join, Keep;
    var lines := Split(content);
    if VerdictOn(content, was, now) == Removed {
      KeptIsWhole(was, lines);
      SplitKept(Keep(was, Blocks(lines)), was);
    } else {
      NoOldHeaderSurvives(lines, was, now);
      SplitKept(Renamed(lines, was, now), was);
    }
  }

  lemma SplitKept(lines: seq<string>, name: string)
    requires Whole(lines)
    ensures lines != [] ==> Split(Join(lines)) == lines
    ensures lines == [] ==> Split(Join(lines)) == [""] && !IsHeaderOf(name, "")
    ensures Free(name, lines) ==> Free(name, Split(Join(lines)))
  {
    if lines != [] { SplitOfJoin(lines); }
  }

  /** Migrating a second time changes nothing, whatever the text. */
  lemma MigrationIsIdempotent(content: string, was: string, now: string)
    requires Rename(was, now)
    ensures was != "" && Migrated(Migrated(content, was, now), was, now) == Migrated(content, was, now)
  {
    hide IsHeader, IsHeaderOf, Mentions, Split, Join, Keep, Rename;
    RenameIsNamed(was, now);
    var once := Migrated(content, was, now);
    if VerdictOn(content, was, now) != Untouched {
      MigratedIsFree(content, was, now);
      FreeIsSettled(Split(once), was, now);
      JoinOfSplit(once);
    }
  }

  lemma RenameIsNamed(was: string, now: string)
    requires Rename(was, now)
    ensures was != "" && '\n' !in was
  {
  }

  // ---- When the search and the edit agree ---------------------------------------------------------------------------

  /** A header of the section that does not close on its own line. */
  predicate OpensOver(name: string, line: string) {
    var b := Blanks(line);
    HEAD + name <= line[b..]
    && var t := line[b + |HEAD + name|..]; t != "" && t[0] == '.' && ']' !in t
  }

  predicate SelfClosing(name: string, lines: seq<string>) {
    forall i | 0 <= i < |lines| :: !OpensOver(name, lines[i])
  }

  /** Some line at or after the first closes the bracket, with only blanks behind it. */
  predicate ClosesLater(lines: seq<string>) {
    lines != [] && if ']' in lines[0] then Finishes(lines[0]) else ClosesLater(lines[1..])
  }

  predicate Finishes(t: string) {
    var k := Find(t, ']');
    k < |t| && AllBlank(t[k + 1..])
  }

  /** Some header of the section opens on one line and closes on a later one. */
  predicate SpreadLines(name: string, lines: seq<string>) {
    lines != [] && ((OpensOver(name, lines[0]) && ClosesLater(lines[1..])) || SpreadLines(name, lines[1..]))
  }

  lemma SpanShifts(name: string, a: string, rest: string, i: nat, j: nat)
    requires i <= j <= |rest|
    ensures HeaderSpans(name, rest, i, j) <==> HeaderSpans(name, a + "\n" + rest, i + |a| + 1, j + |a| + 1)
  {
    var s := a + "\n" + rest;
    assert s[i + |a| + 1..j + |a| + 1] == rest[i..j];
    assert i > 0 ==> s[i + |a|] == rest[i - 1];
    assert j < |rest| ==> s[j + |a| + 1] == rest[j];
  }

  lemma MentionAt(name: string, content: string, i: nat, j: nat)
    requires i <= j <= |content| && HeaderSpans(name, content, i, j)
    ensures Mentions(name, content)
  {
  }

  lemma SplitFirst(content: string)
    ensures var k := Find(content, '\n');
      && Split(content)[0] == content[..k]
      && (k < |content| ==> Split(content)[1..] == Split(content[k + 1..]))
  {
    hide Find;
    var k := Find(content, '\n');
    if k < |content| { TailOf(content[..k], Split(content[k + 1..])); }
  }

  lemma TailOf(a: string, rest: seq<string>)
    ensures ([a] + rest)[0] == a && ([a] + rest)[1..] == rest
  {
  }

  lemma NotTheOnlyLine(content: string)
    requires |Split(content)| > 1
    ensures Find(content, '\n') < |content|
  {
  }

  lemma FirstLineSpans(name: string, content: string)
    requires IsHeaderOf(name, content[..Find(content, '\n')])
    ensures HeaderSpans(name, content, 0, Find(content, '\n'))
  {
    assert content[0..Find(content, '\n')] == content[..Find(content, '\n')];
  }

  /** A header line is found by the search. */
  lemma {:induction false} LineSpans(name: string, content: string, n: nat) returns (i: nat, j: nat)
    requires n < |Split(content)| && IsHeaderOf(name, Split(content)[n])
    ensures i <= j <= |content| && HeaderSpans(name, content, i, j)
  {
    hide IsHeaderOf, HeaderSpans, Split, Find;
    var k := Find(content, '\n');
    SplitFirst(content);
    if n == 0 {
      FirstLineSpans(name, content);
      i, j := 0, k;
    } else {
      NotTheOnlyLine(content);
      var a, rest := content[..k], content[k + 1..];
      assert content == a + "\n" + rest;
      assert Split(content)[n] == Split(content)[1..][n - 1];
      i, j := LineSpans(name, rest, n - 1);
      SpanShifts(name, a, rest, i, j);
      i, j := i + k + 1, j + k + 1;
    }
  }

  lemma TailBreaks(t: string, q: nat)
    requires Closes(t) && q < |t| && t[q] == '\n'
    ensures q > 0 && t[0] == '.' && ']' !in t[..q]
  {
    var k := Find(t, ']');
    assert forall j | k < j < |t| :: t[j] == t[k + 1..][j - k - 1] && t[j] in " \t";
  }

  lemma HeadHasNoBreak(p: string, name: string)
    requires AllBlank(p) && '\n' !in name
    ensures '\n' !in p + (HEAD + name)
  {
    NotIn('\n', p);
  }

  /** A header that runs past the end of a line opened on it and did not close. */
  lemma LongHeaderOpensOver(name: string, a: string, more: string)
    requires '\n' !in name && '\n' !in a && IsHeaderOf(name, a + "\n" + more)
    ensures OpensOver(name, a)
  {
    hide IsHeaderOf, Closes;
    var s := a + "\n" + more;
    var p, t := HeaderParts(name, s);
    var u := p + (HEAD + name);
    HeadHasNoBreak(p, name);
    assert s == u + t;
    assert s[|a|] == '\n';
    assert |u| <= |a| by {
      assert forall j | 0 <= j < |u| :: s[j] == u[j] && u[j] in u;
    }
    var q := |a| - |u|;
    assert t[q] == s[|a|];
    TailBreaks(t, q);
    assert a == s[..|a|] && s[..|a|] == u + t[..q];
    assert u + t[..q] == p + (HEAD + name + t[..q]);
    BlanksOfHeader(p, name, t[..q]);
    assert a[|p|..] == HEAD + name + t[..q];
    assert a[|p| + |HEAD + name|..] == t[..q];
  }

  lemma StartsAfterBreak(content: string, i: nat, j: nat, name: string)
    requires 0 < i <= j <= |content| && HeaderSpans(name, content, i, j)
    ensures Find(content, '\n') < i
  {
    hide IsHeaderOf;
  }

  lemma SpanFromLater(content: string, i: nat, j: nat, name: string)
    requires 0 < i <= j <= |content| && HeaderSpans(name, content, i, j)
    ensures var k := Find(content, '\n'); k < i && HeaderSpans(name, content[k + 1..], i - k - 1, j - k - 1)
  {
    hide HeaderSpans, Find;
    StartsAfterBreak(content, i, j, name);
    var k := Find(content, '\n');
    assert content == content[..k] + "\n" + content[k + 1..];
    SpanShifts(name, content[..k], content[k + 1..], i - k - 1, j - k - 1);
  }

  lemma {:induction false} FirstLineFirst(name: string, x: string, more: seq<string>)
    ensures ClosesLater([x] + more) <==> if ']' in x then Finishes(x) else ClosesLater(more)
    ensures SpreadLines(name, [x] + more) <==> (OpensOver(name, x) && ClosesLater(more)) || SpreadLines(name, more)
  {
    hide OpensOver, Finishes;
    assert ([x] + more)[0] == x && ([x] + more)[1..] == more;
  }

  lemma {:induction false} NoLines(name: string)
    ensures !ClosesLater([]) && !SpreadLines(name, [])
  {
  }

  /** A span without a line break is a header line. */
  lemma {:induction false} SpanIsALine(name: string, content: string, i: nat, j: nat) returns (n: nat)
    requires i <= j <= |content| && HeaderSpans(name, content, i, j) && '\n' !in content[i..j]
    ensures n < |Split(content)| && IsHeaderOf(name, Split(content)[n])
  {
    hide IsHeaderOf, HeaderSpans, Split;
    var lines, k := Split(content), Find(content, '\n');
    SplitFirst(content);
    if i == 0 {
      n := 0;
      ShortSpan(name, content, j);
    } else {
      SpanFromLater(content, i, j, name);
      SliceBehind(content, k + 1, i, j);
      n := SpanIsALine(name, content[k + 1..], i - k - 1, j - k - 1);
      assert lines[1..][n] == lines[n + 1];
      n := n + 1;
    }
  }

  lemma {:induction false} SliceBehind(s: string, k: nat, i: nat, j: nat)
    requires k <= i <= j <= |s|
    ensures s[k..][i - k..j - k] == s[i..j]
  {
  }

  lemma {:induction false} ShortSpan(name: string, content: string, j: nat)
    requires j <= |content| && HeaderSpans(name, content, 0, j) && '\n' !in content[..j]
    ensures IsHeaderOf(name, content[..Find(content, '\n')])
  {
    hide IsHeaderOf;
    FirstIsLater(content, '\n', j);
    assert content[0..j] == content[..j];
  }

  lemma {:induction false} FirstIsLater(s: string, c: char, j: nat)
    requires j <= |s| && c !in s[..j]
    ensures Find(s, c) >= j
  {
    assert forall q | 0 <= q < j :: s[q] == s[..j][q] && s[..j][q] in s[..j];
  }

  lemma {:induction false} FindBeyond(x: string, c: char, y: string)
    requires c !in x
    ensures Find(x + y, c) == |x| + Find(y, c)
  {
    var s, k := x + y, Find(y, c);
    if k < |y| { assert s[|x| + k] == c; }
    assert forall q | 0 <= q < |x| :: s[q] == x[q] && x[q] in x;
    assert forall q | |x| <= q < |x| + k :: s[q] == y[q - |x|];
  }

  /** Behind a line on which a header opens and does not close, what finishes it is exactly what closes the bracket. */
  lemma {:induction false} OpenedThenFinished(name: string, a: string, more: string)
    requires OpensOver(name, a)
    ensures IsHeaderOf(name, a + "\n" + more) <==> Finishes(more)
  {
    hide AllBlank, Closes, Finishes, IsHeaderOf, OpensOver;
    var p, t := OpenParts(name, a);
    ClosesBehind(t, more);
    assert a + "\n" + more == p + (HEAD + name + (t + "\n" + more));
    HeaderExactly(name, p, t + "\n" + more);
  }

  lemma OpenParts(name: string, line: string) returns (p: string, t: string)
    requires OpensOver(name, line)
    ensures AllBlank(p) && line == p + (HEAD + name + t) && t != "" && t[0] == '.' && ']' !in t
  {
    var b := Blanks(line);
    p, t := line[..b], line[b + |HEAD + name|..];
    PrefixIsBlank(line, b);
    assert line[b..] == HEAD + name + line[b..][|HEAD + name|..];
    assert line[b..][|HEAD + name|..] == t;
    assert line == p + line[b..];
  }

  lemma {:induction false} ClosesBehind(t: string, more: string)
    requires t != "" && t[0] == '.' && ']' !in t
    ensures Closes(t + "\n" + more) <==> Finishes(more)
  {
    hide AllBlank;
    var tail, k := t + "\n" + more, Find(more, ']');
    assert ']' !in t + "\n";
    FindBeyond(t + "\n", ']', more);
    if k < |more| { assert tail[|t| + 1 + k + 1..] == more[k + 1..]; }
  }

  lemma HeaderExactly(name: string, p: string, t: string)
    requires AllBlank(p)
    ensures IsHeaderOf(name, p + (HEAD + name + t)) <==> Closes(t)
  {
    hide Closes;
    var line := p + (HEAD + name + t);
    BlanksOfHeader(p, name, t);
    assert line[|p|..] == HEAD + name + t;
    assert line[|p| + |HEAD + name|..] == t;
  }

  /** From the start of the text to the end of line at `j`, the bracket is closed. */
  predicate FinishesAt(s: string, j: nat)
    requires j <= |s|
  {
    (j == |s| || s[j] == '\n') && Finishes(s[..j])
  }

  lemma {:induction false} FinishesBeyond(a: string, u: string)
    ensures ']' !in a ==> (Finishes(a + "\n" + u) <==> Finishes(u))
    ensures ']' in a ==> !Finishes(a + "\n" + u)
  {
    var s := a + "\n" + u;
    if ']' !in a {
      assert ']' !in a + "\n";
      FindBeyond(a + "\n", ']', u);
      var k := Find(u, ']');
      if k < |u| { assert s[|a| + 1 + k + 1..] == u[k + 1..]; }
    } else {
      var k := Find(s, ']');
      var q :| 0 <= q < |a| && a[q] == ']';
      assert s[q] == ']';
      assert s[k + 1..][|a| - k - 1] == '\n';
    }
  }

  lemma {:induction false} OnlyLineCloses(s: string)
    requires '\n' !in s
    ensures ClosesLater(Split(s)) <==> Finishes(s)
  {
    hide Find, Finishes, ClosesLater;
    NoLines("");
    FirstLineFirst("", s, []);
    assert [s] + [] == [s];
    FindFirst(s, '\n', "");
    NoBracketNoFinish(s);
  }

  lemma {:induction false} NoBracketNoFinish(s: string)
    ensures Finishes(s) ==> ']' in s
  {
  }

  lemma {:induction false} ClosesInTurn(a: string, rest: string)
    requires '\n' !in a
    ensures ClosesLater(Split(a + "\n" + rest)) <==> if ']' in a then Finishes(a) else ClosesLater(Split(rest))
  {
    hide Split, ClosesLater, SpreadLines, Finishes;
    SplitAtBreak(a, rest);
    FirstLineFirst("", a, Split(rest));
  }

  /** The lines close the bracket exactly when the text does, up to the end of one of them. */
  lemma {:induction false} CloserAt(s: string) returns (j: nat)
    requires ClosesLater(Split(s))
    ensures j <= |s| && FinishesAt(s, j)
    decreases |s|
  {
    hide Finishes, Split, ClosesLater;
    if '\n' !in s {
      OnlyLineCloses(s);
      j := |s|;
      assert s[..j] == s;
    } else {
      var a, rest := CutAtBreak(s);
      ClosesInTurn(a, rest);
      if ']' in a {
        j := |a|;
        assert s[..j] == a;
      } else {
        j := CloserAt(rest);
        FinishesBeyond(a, rest[..j]);
        j := j + |a| + 1;
        assert s[..j] == a + "\n" + rest[..j - |a| - 1];
      }
    }
  }

  lemma {:induction false} FinisherCloses(s: string, j: nat)
    requires j <= |s| && FinishesAt(s, j)
    ensures ClosesLater(Split(s))
    decreases |s|
  {
    hide Finishes, Split, ClosesLater, FinishesAt;
    if '\n' !in s {
      OnlyLineCloses(s);
      OnlyLineFinishes(s, j);
    } else {
      var a, rest := CutAtBreak(s);
      ClosesInTurn(a, rest);
      if j <= |a| {
        FirstLineFinishes(a, rest, j);
      } else {
        FinishesNext(a, rest, j - |a| - 1);
        FinisherCloses(rest, j - |a| - 1);
      }
    }
  }

  lemma {:induction false} OnlyLineFinishes(s: string, j: nat)
    requires '\n' !in s && j <= |s| && FinishesAt(s, j)
    ensures Finishes(s)
  {
    hide Finishes;
    assert s[..|s|] == s;
  }

  lemma {:induction false} FirstLineFinishes(a: string, rest: string, j: nat)
    requires '\n' !in a && j <= |a| && FinishesAt(a + "\n" + rest, j)
    ensures ']' in a && Finishes(a)
  {
    hide Finishes;
    var s := a + "\n" + rest;
    assert s[..j] == a;
    NoBracketNoFinish(a);
  }

  lemma {:induction false} FinishesNext(a: string, rest: string, j: nat)
    requires j <= |rest| && FinishesAt(a + "\n" + rest, j + |a| + 1)
    ensures ']' !in a && FinishesAt(rest, j)
  {
    hide Finishes;
    var s := a + "\n" + rest;
    assert s[..j + |a| + 1] == a + "\n" + rest[..j];
    assert j < |rest| ==> s[j + |a| + 1] == rest[j];
    FinishesBeyond(a, rest[..j]);
  }

  /** A header with a line break inside. */
  predicate SpreadSpan(name: string, content: string, i: nat, j: nat) {
    i <= j <= |content| && HeaderSpans(name, content, i, j) && '\n' in content[i..j]
  }

  lemma {:induction false} CutAtBreak(s: string) returns (a: string, rest: string)
    requires '\n' in s
    ensures s == a + "\n" + rest && '\n' !in a
  {
    var k := Find(s, '\n');
    a, rest := s[..k], s[k + 1..];
  }

  lemma {:induction false} SpreadInTurn(name: string, a: string, rest: string)
    requires '\n' !in a
    ensures SpreadLines(name, Split(a + "\n" + rest)) <==>
      (OpensOver(name, a) && ClosesLater(Split(rest))) || SpreadLines(name, Split(rest))
  {
    hide Split, ClosesLater, SpreadLines, OpensOver;
    SplitAtBreak(a, rest);
    FirstLineFirst(name, a, Split(rest));
  }

  lemma {:induction false} OneLineIsNotSpread(name: string, s: string)
    requires '\n' !in s
    ensures !SpreadLines(name, Split(s))
  {
    hide Find, OpensOver, SpreadLines;
    NoLines(name);
    FirstLineFirst(name, s, []);
    assert [s] + [] == [s];
    FindFirst(s, '\n', "");
  }

  /** A header that opens on the first line and is closed by a later one. */
  lemma {:induction false} FirstOpens(name: string, a: string, rest: string) returns (j: nat)
    requires OpensOver(name, a) && ClosesLater(Split(rest))
    ensures SpreadSpan(name, a + "\n" + rest, 0, j)
  {
    hide IsHeaderOf, HeaderSpans, OpensOver, ClosesLater, Split, FinishesAt;
    var q := CloserAt(rest);
    SpreadFromStart(name, a, rest, q);
    j := q + |a| + 1;
    assert (a + "\n" + rest)[0..j][|a|] == '\n';
  }

  lemma {:induction false} SpanBehind(name: string, a: string, rest: string, i: nat, j: nat)
    ensures SpreadSpan(name, rest, i, j) <==> SpreadSpan(name, a + "\n" + rest, i + |a| + 1, j + |a| + 1)
  {
    hide HeaderSpans;
    if i <= j <= |rest| {
      SpanShifts(name, a, rest, i, j);
      assert (a + "\n" + rest)[i + |a| + 1..j + |a| + 1] == rest[i..j];
    }
  }

  lemma {:induction false} SpreadFromStart(name: string, a: string, rest: string, j: nat)
    requires j <= |rest| && OpensOver(name, a)
    ensures FinishesAt(rest, j) <==> HeaderSpans(name, a + "\n" + rest, 0, j + |a| + 1)
  {
    hide IsHeaderOf, OpensOver, Finishes;
    var s := a + "\n" + rest;
    assert s[0..j + |a| + 1] == a + "\n" + rest[..j];
    assert j < |rest| ==> s[j + |a| + 1] == rest[j];
    OpenedThenFinished(name, a, rest[..j]);
  }

  /** A span across a line break is a spread header, and the other way round. */
  lemma {:induction false} SpreadAt(name: string, content: string) returns (i: nat, j: nat)
    requires SpreadLines(name, Split(content))
    ensures SpreadSpan(name, content, i, j)
    decreases |content|
  {
    hide SpreadSpan, OpensOver, ClosesLater, SpreadLines, Split;
    if '\n' !in content { OneLineIsNotSpread(name, content); }
    var a, rest := CutAtBreak(content);
    SpreadInTurn(name, a, rest);
    if OpensOver(name, a) && ClosesLater(Split(rest)) {
      i := 0;
      j := FirstOpens(name, a, rest);
    } else {
      i, j := SpreadAt(name, rest);
      SpanBehind(name, a, rest, i, j);
      i, j := i + |a| + 1, j + |a| + 1;
    }
  }

  lemma {:induction false} SpanSpreads(name: string, content: string, i: nat, j: nat)
    requires '\n' !in name && SpreadSpan(name, content, i, j)
    ensures SpreadLines(name, Split(content))
    decreases |content|
  {
    hide SpreadSpan, OpensOver, ClosesLater, SpreadLines, Split;
    BreakInside(name, content, i, j);
    var a, rest := CutAtBreak(content);
    SpreadInTurn(name, a, rest);
    if i == 0 {
      LongSpanSpreads(name, a, rest, j);
    } else {
      SpanNotFirst(name, a, rest, i, j);
      SpanBehind(name, a, rest, i - |a| - 1, j - |a| - 1);
      SpanSpreads(name, rest, i - |a| - 1, j - |a| - 1);
    }
  }

  lemma {:induction false} BreakInside(name: string, content: string, i: nat, j: nat)
    requires SpreadSpan(name, content, i, j)
    ensures '\n' in content
  {
    hide HeaderSpans;
    var q :| 0 <= q < |content[i..j]| && content[i..j][q] == '\n';
    assert content[i + q] == '\n';
  }

  lemma {:induction false} SpanNotFirst(name: string, a: string, rest: string, i: nat, j: nat)
    requires '\n' !in a && i > 0 && SpreadSpan(name, a + "\n" + rest, i, j)
    ensures |a| < i <= j
  {
    hide IsHeaderOf;
  }

  lemma {:induction false} LongSpanSpreads(name: string, a: string, rest: string, j: nat)
    requires '\n' !in name && '\n' !in a && SpreadSpan(name, a + "\n" + rest, 0, j)
    ensures OpensOver(name, a) && ClosesLater(Split(rest))
  {
    hide IsHeaderOf, OpensOver, ClosesLater, FinishesAt, Split, Find;
    var s := a + "\n" + rest;
    var q := j - |a| - 1;
    assert s[0..j] == a + "\n" + rest[..q];
    LongHeaderOpensOver(name, a, rest[..q]);
    SpreadFromStart(name, a, rest, q);
    FinisherCloses(rest, q);
  }

  /** Read line by line or as one text, the spread headers are the same. */
  lemma SpreadLinesAreSpans(name: string, content: string)
    requires '\n' !in name
    ensures SpreadLines(name, Split(content)) <==> exists i, j :: SpreadSpan(name, content, i, j)
  {
    hide SpreadSpan, SpreadLines, Split;
    if SpreadLines(name, Split(content)) { var i, j := SpreadAt(name, content); }
    if i, j :| SpreadSpan(name, content, i, j) { SpanSpreads(name, content, i, j); }
  }

  /** The search finds a section exactly when some line is its header, or some header of it is spread over lines. */
  lemma SearchFindsExactly(name: string, content: string)
    requires '\n' !in name
    ensures Mentions(name, content) <==> !Free(name, Split(content)) || SpreadLines(name, Split(content))
  {
    hide IsHeaderOf, SpreadLines, HeaderSpans, Split;
    if Mentions(name, content) {
      var i, j :| 0 <= i <= j <= |content| && HeaderSpans(name, content, i, j);
      if '\n' in content[i..j] { SpanSpreads(name, content, i, j); }
      else { var n := SpanIsALine(name, content, i, j); }
    }
    if !Free(name, Split(content)) {
      var n :| 0 <= n < |Split(content)| && IsHeaderOf(name, Split(content)[n]);
      var i, j := LineSpans(name, content, n);
    }
    if SpreadLines(name, Split(content)) { var i, j := SpreadAt(name, content); }
  }

  lemma {:induction false} SelfClosingIsNotSpread(name: string, lines: seq<string>)
    requires SelfClosing(name, lines)
    ensures !SpreadLines(name, lines)
  {
    hide OpensOver;
    if lines != [] {
      assert forall i | 0 <= i < |lines[1..]| :: lines[1..][i] == lines[i + 1];
      SelfClosingIsNotSpread(name, lines[1..]);
    }
  }

  /** On text whose headers close on their own line, the search finds a section exactly when some line is its header. */
  lemma SearchFindsHeaderLines(name: string, content: string)
    requires '\n' !in name && SelfClosing(name, Split(content))
    ensures Mentions(name, content) <==> !Free(name, Split(content))
  {
    hide Mentions, Free, SpreadLines;
    SearchFindsExactly(name, content);
    SelfClosingIsNotSpread(name, Split(content));
  }

  lemma OpeningIsHeader(name: string, line: string)
    ensures OpensOver(name, line) ==> IsHeader(line)
  {
    if OpensOver(name, line) { assert (HEAD + name)[0] == '['; }
  }

  lemma NewNameDoesNotOpenOld(line: string, was: string, now: string)
    requires Rename(was, now) && IsHeaderOf(was, line)
    ensures !OpensOver(was, ReplaceAll(line, was, now))
  {
    hide IsHeaderOf, ReplaceAll, Closes;
    var p, t := HeaderParts(was, line);
    NotIn(was[0], p);
    assert line == (p + HEAD) + (was + t);
    ReplaceAfter(p + HEAD, was + t, was, now);
    ReplaceHead(t, was, now);
    var t' := ReplaceAll(t, was, now);
    assert (p + HEAD) + (now + t') == p + (HEAD + now + t');
    NotOver(p, was, now, t');
  }

  lemma NotOver(p: string, was: string, now: string, t: string)
    requires AllBlank(p) && Rename(was, now)
    ensures !OpensOver(was, p + (HEAD + now + t))
  {
    var r, rest := p + (HEAD + now + t), HEAD + now + t;
    BlanksOfHeader(p, now, t);
    var k :| 0 <= k < |was| && k < |now| && was[k] != now[k];
    assert r[|p|..] == rest;
    assert (HEAD + was)[|HEAD| + k] == was[k] && rest[|HEAD| + k] == now[k];
  }

  /** A line that closes a bracket still does when names in it are replaced: what is put in is not blank. */
  lemma {:induction false} BlanksStay(s: string, was: string, now: string)
    requires was != "" && was[0] !in " \t" && exists c :: c in now && c !in " \t"
    ensures AllBlank(ReplaceAll(s, was, now)) <==> AllBlank(s)
  {
    hide Blanks;
    BlankChars(s);
    BlankChars(ReplaceAll(s, was, now));
    if |s| < |was| {
    } else if s[..|was|] == was {
      var c :| c in now && c !in " \t";
      assert s[0] == s[..|was|][0];
      assert c in now + ReplaceAll(s[|was|..], was, now);
    } else {
      BlanksStay(s[1..], was, now);
      BlankChars(s[1..]);
      BlankChars(ReplaceAll(s[1..], was, now));
      assert s == [s[0]] + s[1..];
    }
  }

  lemma BlankChars(s: string)
    ensures AllBlank(s) <==> forall c | c in s :: c in " \t"
  {
  }

  lemma ReplacedCloses(line: string, was: string, now: string)
    requires was != "" && was[0] !in " \t" && ']' !in was && ']' !in now && exists c :: c in now && c !in " \t"
    ensures ']' in ReplaceAll(line, was, now) <==> ']' in line
    ensures Finishes(ReplaceAll(line, was, now)) <==> Finishes(line)
  {
    hide ReplaceAll, AllBlank;
    if ']' !in line {
      ReplaceBrings(line, ']', was, now);
    } else {
      var k := Find(line, ']');
      var a, b := line[..k], line[k + 1..];
      assert line == a + [']'] + b;
      var a', b' := ReplaceAll(a, was, now), ReplaceAll(b, was, now);
      ReplaceAcross(a, ']', b, was, now);
      ReplaceBrings(a, ']', was, now);
      FindFirst(a', ']', b');
      var r := a' + [']'] + b';
      assert r[|a'|] == ']' && r[|a'| + 1..] == b';
      BlanksStay(b, was, now);
    }
  }

  lemma {:induction false} HeaderFinishes(name: string, line: string)
    requires IsHeaderOf(name, line) && ']' !in name
    ensures ']' in line && Finishes(line) && !OpensOver(name, line)
  {
    hide Closes, IsHeaderOf, OpensOver, AllBlank;
    var p, t := HeaderParts(name, line);
    var m, trail := TailParts(t);
    NotIn(']', p);
    var u := p + (HEAD + name + m);
    assert line == u + [']'] + trail && ']' !in u;
    FindFirst(u, ']', trail);
    assert line[|u| + 1..] == trail && line[|u|] == ']';
    ClosedDoesNotOpen(name, line);
  }

  lemma {:induction false} ClosedDoesNotOpen(name: string, line: string)
    requires IsHeaderOf(name, line)
    ensures !OpensOver(name, line)
  {
    var t := line[Blanks(line) + |HEAD + name|..];
    NoBracketNoClose(t);
  }

  lemma {:induction false} NoBracketNoClose(t: string)
    requires Closes(t)
    ensures ']' in t
  {
  }

  /** What a spread header needs of each line survives renaming. */
  lemma RenamedLineSpreads(lines: seq<string>, i: nat, was: string, now: string)
    requires Rename(was, now) && i < |lines|
    ensures var line, r := lines[i], RenamedLine(lines, i, was, now);
      && (OpensOver(was, r) <==> OpensOver(was, line))
      && (']' in r <==> ']' in line) && (Finishes(r) <==> Finishes(line))
  {
    hide IsHeaderOf, IsHeader, IsCommand, ReplaceAll, OpensOver, Finishes, Contains;
    var line, r := lines[i], RenamedLine(lines, i, was, now);
    if IsHeaderOf(was, line) {
      HeaderBecomesNew(line, was, now);
      NewNameDoesNotOpenOld(line, was, now);
      HeaderFinishes(was, line);
      HeaderFinishes(now, r);
    } else if r != line {
      CommandStaysCommand(line, was, now);
      OpeningIsHeader(was, r);
      OpeningIsHeader(was, line);
      assert '-' in now + "-" && '-' !in " \t";
      ReplacedCloses(line, was + "-", now + "-");
    }
  }

  /** Line by line alike, for a spread header. */
  ghost predicate SpreadAlike(name: string, a: seq<string>, b: seq<string>) {
    && |a| == |b|
    && forall i | 0 <= i < |a| :: AlikeLine(name, a[i], b[i])
  }

  ghost predicate AlikeLine(name: string, x: string, y: string) {
    && (OpensOver(name, x) <==> OpensOver(name, y))
    && (']' in x <==> ']' in y) && (Finishes(x) <==> Finishes(y))
  }

  lemma {:induction false} AlikeSpread(name: string, a: seq<string>, b: seq<string>)
    requires SpreadAlike(name, a, b)
    ensures SpreadLines(name, a) <==> SpreadLines(name, b)
    ensures ClosesLater(a) <==> ClosesLater(b)
  {
    hide OpensOver, Finishes;
    if a != [] {
      assert AlikeLine(name, a[0], b[0]);
      forall i | 0 <= i < |a[1..]| ensures AlikeLine(name, a[1..][i], b[1..][i]) {
        assert a[1..][i] == a[i + 1] && b[1..][i] == b[i + 1];
      }
      AlikeSpread(name, a[1..], b[1..]);
    }
  }

  /** Renaming sections neither makes nor mends a spread header. */
  lemma RenamingKeepsSpread(lines: seq<string>, was: string, now: string)
    requires Rename(was, now) && was != ""
    ensures SpreadLines(was, Renamed(lines, was, now)) <==> SpreadLines(was, lines)
  {
    hide RenamedLine, AlikeLine, SpreadLines;
    forall i | 0 <= i < |lines| ensures AlikeLine(was, Renamed(lines, was, now)[i], lines[i]) {
      LineIsAlike(lines, i, was, now);
    }
    AlikeSpread(was, Renamed(lines, was, now), lines);
  }

  lemma LineIsAlike(lines: seq<string>, i: nat, was: string, now: string)
    requires Rename(was, now) && was != "" && i < |lines|
    ensures AlikeLine(was, RenamedLine(lines, i, was, now), lines[i])
  {
    hide OpensOver, Finishes, RenamedLine;
    RenamedLineSpreads(lines, i, was, now);
  }

  /** A second migration finds nothing to do exactly when the first left no header spread over lines. */
  lemma SecondVerdict(content: string, was: string, now: string)
    requires Rename(was, now)
    ensures was != ""
    ensures var once := Migrated(content, was, now);
      VerdictOn(once, was, now) == Untouched <==> !SpreadLines(was, Split(once))
  {
    hide IsHeaderOf, SpreadLines, Mentions, Split, Join, Keep, Free, Rename;
    RenameIsNamed(was, now);
    var once := Migrated(content, was, now);
    SearchFindsExactly(was, once);
    if VerdictOn(content, was, now) != Untouched { MigratedIsFree(content, was, now); }
  }

  /** After a renaming that can be told beforehand: exactly when there was none in the first place. */
  lemma SecondVerdictAfterRenaming(content: string, was: string, now: string)
    requires Rename(was, now) && VerdictOn(content, was, now) == Renaming
    ensures was != ""
    ensures VerdictOn(Migrated(content, was, now), was, now) == Untouched <==> !SpreadLines(was, Split(content))
  {
    hide IsHeaderOf, SpreadLines, Mentions, Split, Join, Renamed, VerdictOn;
    var lines := Split(content);
    SecondVerdict(content, was, now);
    NoOldHeaderSurvives(lines, was, now);
    SplitOfJoin(Renamed(lines, was, now));
    RenamingKeepsSpread(lines, was, now);
  }

  /** After a removal, exactly when there is none in what was kept: a kept opening may find another closing line. */
  lemma SecondVerdictAfterRemoval(content: string, was: string, now: string)
    requires Rename(was, now) && VerdictOn(content, was, now) == Removed
    ensures was != ""
    ensures VerdictOn(Migrated(content, was, now), was, now) == Untouched <==>
            !SpreadLines(was, Keep(was, Blocks(Split(content))))
  {
    hide IsHeaderOf, SpreadLines, Mentions, Split, Join, Keep, VerdictOn;
    var kept := Keep(was, Blocks(Split(content)));
    SecondVerdict(content, was, now);
    KeptIsWhole(was, Split(content));
    SplitKept(kept, was);
    if kept == [] {
      NoLines(was);
      FirstLineFirst(was, "", []);
      OpeningIsHeader(was, "");
      assert [""] + [] == [""];
    }
  }

  /** A second migration finds nothing to do on text whose headers close on their own line. */
  lemma SecondMigrationFindsNothing(content: string, was: string, now: string)
    requires Rename(was, now) && SelfClosing(was, Split(content))
    ensures was != "" && VerdictOn(Migrated(content, was, now), was, now) == Untouched
  {
    hide IsHeaderOf, OpensOver, SpreadLines, Mentions, Split, Join, Keep, Rename;
    RenameIsNamed(was, now);
    var lines := Split(content);
    SelfClosingIsNotSpread(was, lines);
    match VerdictOn(content, was, now)
    case Untouched =>
    case Renaming => SecondVerdictAfterRenaming(content, was, now);
    case Removed =>
      var kept := Keep(was, Blocks(lines));
      SecondVerdictAfterRemoval(content, was, now);
      KeptIsWhole(was, lines);
      forall i | 0 <= i < |kept| ensures !OpensOver(was, kept[i]) {
        assert kept[i] in lines;
      }
      SelfClosingIsNotSpread(was, kept);
  }

  // ---- Which edit, and what it does -------------------------------------------------------------------------------

  /** Some line is a header of the section, or some header of it is spread over lines. */
  ghost predicate HasHeader(name: string, lines: seq<string>) {
    (exists i :: 0 <= i < |lines| && IsHeaderOf(name, lines[i])) || SpreadLines(name, lines)
  }

  /** The choice, from the lines alone: nothing without an old header, removal when the new section is there already,
      and renaming otherwise. */
  lemma ChoiceByHeaders(content: string, was: string, now: string)
    requires Rename(was, now)
    ensures var lines := Split(content);
      && (VerdictOn(content, was, now) == Untouched <==> !HasHeader(was, lines))
      && (VerdictOn(content, was, now) == Removed <==> HasHeader(was, lines) && HasHeader(now, lines))
      && (VerdictOn(content, was, now) == Renaming <==> HasHeader(was, lines) && !HasHeader(now, lines))
  {
    hide IsHeaderOf, SpreadLines, Mentions, Split;
    RenameIsNamed(was, now);
    SearchFindsExactly(was, content);
    SearchFindsExactly(now, content);
  }

  /** A config with the old section and without the new one keeps every line in its place: old headers head the new
      section, lines outside the old sections are as they were, and so are lines inside them that are no command lines. */
  lemma RenamingKeepsEveryLine(content: string, was: string, now: string)
    requires Rename(was, now) && HasHeader(was, Split(content)) && !HasHeader(now, Split(content))
    ensures was != ""
    ensures var lines, result := Split(content), Split(Migrated(content, was, now));
      && |result| == |lines|
      && (forall i | 0 <= i < |lines| && IsHeaderOf(was, lines[i]) ::
            IsHeaderOf(now, result[i]) && result[i] == ReplaceAll(lines[i], was, now))
      && (forall i | 0 <= i < |lines| && !IsHeaderOf(was, lines[i]) && (IsHeader(lines[i]) || !IsCommand(lines[i])) ::
            result[i] == lines[i])
      && (forall i | 0 <= i < |lines| && !InSectionOf(was, lines, i + 1) :: result[i] == lines[i])
  {
    hide IsHeaderOf, IsHeader, IsCommand, SpreadLines, Mentions, Split, Join, HasHeader, ReplaceAll, Contains, VerdictOn;
    hide Rename;
    ChoiceByHeaders(content, was, now);
    RenameIsNamed(was, now);
    var lines := Split(content);
    NoOldHeaderSurvives(lines, was, now);
    SplitOfJoin(Renamed(lines, was, now));
    forall i | 0 <= i < |lines| && IsHeaderOf(was, lines[i]) ensures IsHeaderOf(now, RenamedLine(lines, i, was, now)) {
      HeaderBecomesNew(lines[i], was, now);
    }
    forall i | 0 <= i < |lines| && !InSectionOf(was, lines, i + 1) ensures RenamedLine(lines, i, was, now) == lines[i] {
      HeaderOfIsHeaderOrNot(was, lines[i]);
    }
  }

  /** A section goes on over every line that does not begin, behind blanks, with a bracket, and ends at every one that
      does and is no header of it. */
  lemma SectionsEndAtBrackets(name: string, lines: seq<string>, i: nat, p: string, c: char, q: string)
    requires i < |lines| && lines[i] == p + [c] + q && (forall x | x in p :: x in " \t") && c !in " \t"
    ensures c != '[' ==> (InSectionOf(name, lines, i + 1) <==> InSectionOf(name, lines, i))
    ensures c == '[' ==> (InSectionOf(name, lines, i + 1) <==> IsHeaderOf(name, lines[i]))
  {
    hide IsHeaderOf, InSectionOf;
    BlankChars(p);
    BlanksOf(p, c, q);
    HeaderOfIsHeaderOrNot(name, lines[i]);
    InSectionStep(name, lines, i);
  }

  /** A line cut into a header's parts. */
  predicate HasShape(name: string, line: string, p: string, m: string, trail: string) {
    && line == p + "[mcp_servers." + name + m + "]" + trail
    && (forall x | x in p + trail :: x in " \t") && ']' !in m && (m == "" || m[0] == '.')
  }

  /** A header of a section: brackets around the path, perhaps longer by a dotted rest, and blanks around them. */
  lemma HeaderShape(name: string, line: string)
    requires ']' !in name
    ensures IsHeaderOf(name, line) <==> exists p, m, trail :: HasShape(name, line, p, m, trail)
  {
    hide IsHeaderOf, Closes, AllBlank;
    if IsHeaderOf(name, line) {
      var p, t := HeaderParts(name, line);
      var m, trail := TailParts(t);
      BlankChars(p);
      BlankChars(trail);
      assert HasShape(name, line, p, m, trail);
    }
    if p, m, trail :| HasShape(name, line, p, m, trail) {
      assert (forall x | x in p :: x in p + trail) && (forall x | x in trail :: x in p + trail);
      BlankChars(p);
      BlankChars(trail);
      var t := m + "]" + trail;
      TailCloses(t, m, trail);
      PartsMakeHeader(name, p, t);
      assert line == p + (HEAD + name + t);
    }
  }

  /** The lines that stand in no section of that name, in order. */
  function Outside(name: string, lines: seq<string>, n: nat): seq<string>
    requires n <= |lines|
  {
    if n == 0 then []
    else Outside(name, lines, n - 1) + if InSectionOf(name, lines, n) then [] else [lines[n - 1]]
  }

  lemma {:induction false} HeaderOverPrefix(lines: seq<string>, n: nat, i: nat)
    requires i <= n <= |lines|
    ensures HeaderOver(lines[..n], i) == HeaderOver(lines, i)
  {
    hide IsHeader;
    if i > 0 { HeaderOverPrefix(lines, n, i - 1); }
  }

  lemma {:induction false} KeepIsOutside(name: string, lines: seq<string>, n: nat)
    requires n <= |lines|
    ensures var blocks := Blocks(lines[..n]);
      && Keep(name, blocks) == Outside(name, lines, n)
      && (Dropped(name, blocks[|blocks| - 1]) <==> InSectionOf(name, lines, n))
  {
    hide IsHeader, IsHeaderOf, Keep, Dropped, Blocks;
    if n == 0 {
      assert lines[..0] == [];
      NothingKept(name);
      NotYetInSection(name, lines);
      OneEmptyBlock();
    } else {
      KeepIsOutside(name, lines, n - 1);
      KeepStep(name, lines, n - 1);
      InSectionStep(name, lines, n - 1);
    }
  }

  lemma OneEmptyBlock()
    ensures |Blocks([])| == 1
  {
  }

  lemma InSectionStep(name: string, lines: seq<string>, i: nat)
    requires i < |lines|
    ensures InSectionOf(name, lines, i + 1) <==>
      IsHeaderOf(name, lines[i]) || (InSectionOf(name, lines, i) && !IsHeader(lines[i]))
  {
    hide IsHeader, IsHeaderOf;
    HeaderOfIsHeaderOrNot(name, lines[i]);
  }

  lemma {:induction false} OutsideStays(name: string, lines: seq<string>, n: nat, i: nat)
    requires i < n <= |lines| && !InSectionOf(name, lines, i + 1)
    ensures lines[i] in Outside(name, lines, n)
  {
    hide InSectionOf;
    if i < n - 1 { OutsideStays(name, lines, n - 1, i); }
  }

  /** A config with both sections loses the old one: what is left is every line that stands in no old section, in
      order, among them every header of the new one. */
  lemma RemovalKeepsTheRest(content: string, was: string, now: string)
    requires Rename(was, now) && HasHeader(was, Split(content)) && HasHeader(now, Split(content))
    ensures was != ""
    ensures var lines, result := Split(content), Migrated(content, was, now);
      && result == Join(Outside(was, lines, |lines|))
      && (forall i | 0 <= i < |lines| && IsHeaderOf(now, lines[i]) :: lines[i] in Outside(was, lines, |lines|))
  {
    hide IsHeaderOf, IsHeader, SpreadLines, Mentions, Split, Join, HasHeader, Keep, Blocks, VerdictOn, Outside, InSectionOf;
    ChoiceByHeaders(content, was, now);
    RenameIsNamed(was, now);
    var lines := Split(content);
    assert lines[..|lines|] == lines;
    KeepIsOutside(was, lines, |lines|);
    forall i | 0 <= i < |lines| && IsHeaderOf(now, lines[i]) ensures lines[i] in Outside(was, lines, |lines|) {
      OneNameOnly(lines[i], was, now);
      HeaderOfIsHeaderOrNot(now, lines[i]);
      InSectionStep(was, lines, i);
      OutsideStays(was, lines, |lines|, i);
    }
  }

  lemma OneNameOnly(line: string, was: string, now: string)
    requires Rename(was, now) && IsHeaderOf(now, line)
    ensures !IsHeaderOf(was, line)
  {
    hide IsHeaderOf, Closes;
    var p, t := HeaderParts(now, line);
    OtherName(p, was, now, t);
  }

  lemma {:induction false} ReplacesFirst(p: string, q: string, was: string, now: string)
    requires was != "" && forall i | 0 <= i < |p| :: !(was <= (p + was + q)[i..])
    ensures ReplaceAll(p + was + q, was, now) == p + now + ReplaceAll(q, was, now)
    decreases |p|
  {
    hide ReplaceAll;
    var s := p + was + q;
    if p == "" {
      assert s == was + q;
      ReplaceHead(q, was, now);
    } else {
      assert s[0..] == s;
      assert s[1..] == p[1..] + was + q;
      forall i | 0 <= i < |p[1..]| ensures !(was <= (p[1..] + was + q)[i..]) {
        assert s[i + 1..] == (p[1..] + was + q)[i..];
      }
      ReplacesFirst(p[1..], q, was, now);
      ReplaceStep(s, was, now);
    }
  }

  /** A command line of a renamed section calls the new program: where it first names the old one, it names the new,
      and so on to its end. */
  lemma CommandsFollow(lines: seq<string>, i: nat, was: string, now: string, p: string, q: string)
    requires Rename(was, now) && i < |lines| && InSectionOf(was, lines, i) && IsCommand(lines[i]) && !IsHeader(lines[i])
    requires lines[i] == p + (was + "-") + q && forall k | 0 <= k < |p| :: !(was + "-" <= lines[i][k..])
    ensures was != ""
    ensures RenamedLine(lines, i, was, now) == p + (now + "-") + ReplaceAll(q, was + "-", now + "-")
  {
    hide IsHeaderOf, IsHeader, IsCommand, ReplaceAll, InSectionOf;
    HeaderOfIsHeaderOrNot(was, lines[i]);
    assert StartsAt(lines[i], |p|, was + "-") by { assert lines[i][|p|..] == (was + "-") + q; }
    ReplacesFirst(p, q, was + "-", now + "-");
  }

  lemma {:induction false} SkipsBlanks(p: string, c: char, t: string)
    requires AllBlank(p) && c !in " \t"
    ensures Blanks(p + [c] + t) == |p| && (p + [c] + t)[|p|..] == [c] + t
  {
    BlanksOf(p, c, t);
  }

  lemma {:induction false} PrefixRest(sub: string, s: string)
    requires sub <= s
    ensures s == sub + s[|sub|..]
  {
  }

  lemma {:induction false} BlanksSplit(s: string)
    ensures AllBlank(s[..Blanks(s)]) && s == s[..Blanks(s)] + s[Blanks(s)..]
  {
    PrefixIsBlank(s, Blanks(s));
  }

  /** A command line is the word between blanks and an equals sign. */
  lemma {:induction false} PartsMakeCommand(p: string, b: string, q: string)
    requires AllBlank(p) && AllBlank(b)
    ensures IsCommand(p + "command" + b + "=" + q) && !IsHeader(p + "command" + b + "=" + q)
  {
    hide AllBlank, Blanks;
    var rest, line := b + "=" + q, p + "command" + b + "=" + q;
    assert line == p + ['c'] + ("ommand" + rest) && ['c'] + ("ommand" + rest) == "command" + rest;
    SkipsBlanks(p, 'c', "ommand" + rest);
    assert line[|p| + |COMMAND|..] == rest;
    assert rest == b + ['='] + q;
    SkipsBlanks(b, '=', q);
  }

  lemma {:induction false} CommandParts(line: string) returns (p: string, b: string, q: string)
    requires IsCommand(line)
    ensures AllBlank(p) && AllBlank(b) && line == p + "command" + b + "=" + q
  {
    hide AllBlank, Blanks;
    var i := Blanks(line);
    BlanksSplit(line);
    PrefixRest(COMMAND, line[i..]);
    var rest := line[i + |COMMAND|..];
    assert line[i..][|COMMAND|..] == rest;
    BlanksSplit(rest);
    var j := Blanks(rest);
    PrefixRest("=", rest[j..]);
    p, b, q := line[..i], rest[..j], rest[j..][1..];
    Regroup(p, COMMAND, b, "=", q);
  }

  lemma {:induction false} Regroup(a: string, b: string, c: string, d: string, e: string)
    ensures a + (b + (c + (d + e))) == a + b + c + d + e
  {
  }

  /** The config an older release wrote becomes the one this release writes. */
  lemma OldConfigBecomesNew(rest: string)
    requires '\n' !in rest && rest != "" && rest[0] !in " \t[c"
    ensures Renamed(["[mcp_servers.tmux-msg]", "command = \"tmux-msg-mcp\"", rest], "tmux-msg", "tmux-tell") ==
            ["[mcp_servers.tmux-tell]", "command = \"tmux-tell-mcp\"", rest]
  {
    hide ReplaceAll, IsHeaderOf, IsHeader, IsCommand, InSectionOf, RenamedLine;
    var was, now := "tmux-msg", "tmux-tell";
    var head, command := "[mcp_servers.tmux-msg]", "command = \"tmux-msg-mcp\"";
    var lines := [head, command, rest];
    TheTableRenames();
    OldHeader();
    OldCommand();
    PlainLine(rest);
    NotYetInSection(was, lines);
    InSectionStep(was, lines, 0);
    HeaderOfIsHeaderOrNot(was, command);
    HeaderOfIsHeaderOrNot(was, rest);
    RenameStep(lines, 0, was, now);
    RenameStep(lines, 2, was, now);
    CommandsFollow(lines, 1, was, now, "command = \"", "mcp\"");
    NewCommand();
  }

  lemma OldHeader()
    ensures IsHeaderOf("tmux-msg", "[mcp_servers.tmux-msg]")
    ensures ReplaceAll("[mcp_servers.tmux-msg]", "tmux-msg", "tmux-tell") == "[mcp_servers.tmux-tell]"
  {
    hide ReplaceAll, IsHeaderOf;
    TailCloses("]", "", "");
    PartsMakeHeader("tmux-msg", "", "]");
    assert "" + (HEAD + "tmux-msg" + "]") == "[mcp_servers.tmux-msg]";
    ReplaceAfterPrefix("[mcp_servers.", "]", "tmux-msg", "tmux-tell");
    assert "[mcp_servers." + "tmux-msg" + "]" == "[mcp_servers.tmux-msg]";
    assert "[mcp_servers." + "tmux-tell" + "]" == "[mcp_servers.tmux-tell]";
  }

  lemma OldCommand()
    ensures var line := "command = \"tmux-msg-mcp\"";
      && IsCommand(line) && !IsHeader(line) && line == "command = \"" + ("tmux-msg" + "-") + "mcp\""
      && forall k | 0 <= k < 11 :: !("tmux-msg" + "-" <= line[k..])
  {
    hide IsCommand, IsHeader;
    PartsMakeCommand("", " ", " \"tmux-msg-mcp\"");
    var line := "command = \"tmux-msg-mcp\"";
    assert "" + "command" + " " + "=" + " \"tmux-msg-mcp\"" == line;
    forall k | 0 <= k < 11 ensures !("tmux-msg" + "-" <= line[k..]) {
      NoPrefixByFirst("tmux-msg" + "-", line, k);
    }
  }

  lemma NoPrefixByFirst(sub: string, s: string, k: nat)
    requires sub != "" && k < |s| && s[k] != sub[0]
    ensures !(sub <= s[k..])
  {
    assert s[k..][0] == s[k];
  }

  lemma NewCommand()
    ensures "command = \"" + ("tmux-tell" + "-") + ReplaceAll("mcp\"", "tmux-msg" + "-", "tmux-tell" + "-") ==
            "command = \"tmux-tell-mcp\""
  {
    Short("mcp\"", "tmux-msg" + "-", "tmux-tell" + "-");
  }

  lemma PlainLine(line: string)
    requires line != "" && line[0] !in " \t[c"
    ensures !IsHeader(line) && !IsCommand(line)
  {
  }

  lemma ReplaceAfterPrefix(p: string, q: string, was: string, now: string)
    requires was != "" && was[0] !in p && |q| < |was|
    ensures ReplaceAll(p + was + q, was, now) == p + now + q
  {
    hide ReplaceAll;
    assert p + was + q == p + (was + q);
    ReplaceAfter(p, was + q, was, now);
    ReplaceHead(q, was, now);
    Short(q, was, now);
  }

  /** A header spread over two lines is found by the search and edited by neither branch: every run reports a
      migration and none changes the text. */
  lemma SpreadHeaderNeverSettles(was: string, now: string)
    requires Rename(was, now)
    ensures var content := Join(Spread(was));
      VerdictOn(content, was, now) != Untouched && was != "" && Migrated(content, was, now) == content
  {
    hide IsHeaderOf, Mentions, Blocks, Keep, Renamed, Split, Spread;
    SpreadIsFound(was);
    SpreadIsFree(was);
    SplitKept(Spread(was), was);
    FreeIsSettled(Spread(was), was, now);
  }

  function Spread(name: string): seq<string> {
    [HEAD + name + ".", "]"]
  }

  lemma SpreadIsFound(name: string)
    requires ']' !in name && '\n' !in name
    ensures Mentions(name, Join(Spread(name)))
  {
    hide IsHeaderOf;
    var content := Join(Spread(name));
    assert ".\n]" == ".\n" + "]" + "" && ']' !in ".\n";
    TailCloses(".\n]", ".\n", "");
    PartsMakeHeader(name, "", ".\n]");
    assert Join(["]"]) == "]" && Spread(name)[1..] == ["]"];
    assert ".\n]" == "." + ("\n" + "]");
    assert content == HEAD + name + ".\n]";
    assert content == "" + (HEAD + name + ".\n]");
    assert content[0..|content|] == content;
    MentionAt(name, content, 0, |content|);
  }

  lemma NoBracketNoHeader(name: string, line: string)
    requires ']' !in line
    ensures !IsHeaderOf(name, line)
  {
  }

  lemma SpreadIsFree(name: string)
    requires ']' !in name && '\n' !in name
    ensures Spread(name) != [] && Free(name, Spread(name)) && Whole(Spread(name))
  {
    hide IsHeaderOf;
    assert ']' !in HEAD + name + ".";
    NoBracketNoHeader(name, HEAD + name + ".");
    HeaderOfIsHeaderOrNot(name, "]");
  }
}
