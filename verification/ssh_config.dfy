/**
 The text transformation that disables password authentication in an sshd
 configuration, and the first-value-wins reading that gives such a text its meaning.
 Text is ASCII: white space, letter case and line ends are the ASCII ones.
 */
module SshConfig {
  import opened Prelude

  const MARKER: string := "# WitShield: password " + "authentication hardening"
  const WORD: string := "PasswordAuthentication"
  const DIRECTIVE: string := WORD + " " + "no"
  const KEY: string := "passwordauthentication"

  // ---------------------------------------------------------------------------
  // White space, words, letter case
  // ---------------------------------------------------------------------------

  predicate Space(c: char) { c == ' ' || '\t' <= c <= '\r' }

  function TrimRight(s: string): string {
    if s != "" && Space(s[|s| - 1]) then TrimRight(s[..|s| - 1]) else s
  }

  function TrimLeft(s: string): string {
    if s != "" && Space(s[0]) then TrimLeft(s[1..]) else s
  }

  function Trim(s: string): string { TrimLeft(TrimRight(s)) }

  /** The length of the leading run of non-space characters. */
  function WordLength(s: string): (n: nat)
    ensures n <= |s|
  {
    if s == "" || Space(s[0]) then 0 else 1 + WordLength(s[1..])
  }

  function Fields(s: string): seq<string>
    decreases |s|
  {
    if s == "" then []
    else if Space(s[0]) then Fields(s[1..])
    else [s[..WordLength(s)]] + Fields(s[WordLength(s)..])
  }

  function LowerChar(c: char): char {
    if 'A' <= c <= 'Z' then (c as int + 32) as char else c
  }

  function Lower(s: string): string { seq(|s|, i requires 0 <= i < |s| => LowerChar(s[i])) }

  // ---------------------------------------------------------------------------
  // Lines
  // ---------------------------------------------------------------------------

  function Lines(s: string): (r: seq<string>)
    ensures r != []
  {
    if s == "" then [""]
    else if s[0] == '\n' then [""] + Lines(s[1..])
    else var r := Lines(s[1..]); [[s[0]] + r[0]] + r[1..]
  }

  function Join(lines: seq<string>, newline: string): string
    requires lines != []
  {
    if |lines| == 1 then lines[0] else lines[0] + newline + Join(lines[1..], newline)
  }

  /** Every "\r\n" replaced by "\n". */
  function Unix(s: string): string {
    if |s| < 2 then s
    else if s[0] == '\r' && s[1] == '\n' then "\n" + Unix(s[2..])
    else [s[0]] + Unix(s[1..])
  }

  predicate ContainsCRLF(s: string) {
    |s| >= 2 && ((s[0] == '\r' && s[1] == '\n') || ContainsCRLF(s[1..]))
  }

  function Newline(content: string): string { if ContainsCRLF(content) then "\r\n" else "\n" }

  // ---------------------------------------------------------------------------
  // Hardening
  // ---------------------------------------------------------------------------

  predicate IsMarker(line: string) { Trim(line) == MARKER }

  predicate IsDirective(line: string) {
    var fields := Fields(Trim(line));
    fields != [] && Lower(fields[0]) == KEY
  }

  predicate Exact(line: string) { Trim(line) == DIRECTIVE }

  predicate IsKept(line: string) { !IsMarker(line) && !IsDirective(line) }

  function Kept(lines: seq<string>): seq<string> {
    if lines == [] then []
    else if IsKept(lines[0]) then [lines[0]] + Kept(lines[1..])
    else Kept(lines[1..])
  }

  function Hardened(content: string): string {
    Join([MARKER, DIRECTIVE] + Kept(Lines(Unix(content))), Newline(content))
  }

  /** How many directive lines differ from the exact directive. */
  function Inexact(lines: seq<string>): nat {
    if lines == [] then 0
    else (if !IsMarker(lines[0]) && IsDirective(lines[0]) && !Exact(lines[0]) then 1 else 0) + Inexact(lines[1..])
  }

  ghost predicate HasMarker(lines: seq<string>) { exists l :: l in lines && IsMarker(l) }

  ghost predicate HasDirective(lines: seq<string>) { exists l :: l in lines && !IsMarker(l) && IsDirective(l) }

  lemma {:induction false} KeptAppend(a: seq<string>, b: seq<string>)
    ensures Kept(a + b) == Kept(a) + Kept(b) && Inexact(a + b) == Inexact(a) + Inexact(b)
  {
    if a == [] {
      assert a + b == b;
    } else {
      assert (a + b)[1..] == a[1..] + b;
      KeptAppend(a[1..], b);
    }
  }

  /** One round of the hardening loop. */
  lemma NextLine(lines: seq<string>, i: nat)
    requires i < |lines|
    ensures
      var line := lines[i];
      && Kept(lines[..i + 1]) == Kept(lines[..i]) + (if IsKept(line) then [line] else [])
      && Inexact(lines[..i + 1]) == Inexact(lines[..i])
          + (if !IsMarker(line) && IsDirective(line) && !Exact(line) then 1 else 0)
      && (HasMarker(lines[..i + 1]) <==> HasMarker(lines[..i]) || IsMarker(line))
      && (HasDirective(lines[..i + 1]) <==> HasDirective(lines[..i]) || (!IsMarker(line) && IsDirective(line)))
  {
    var line := lines[i];
    assert lines[..i + 1] == lines[..i] + [line];
    KeptAppend(lines[..i], [line]);
    assert line in lines[..i + 1];
    assert forall l :: l in lines[..i + 1] <==> l in lines[..i] || l == line;
  }

  /** What the hardening reports as changed lines. */
  ghost function Reported(content: string): nat {
    var lines := Lines(Unix(content));
    Inexact(lines) + (if HasMarker(lines) then 0 else 1) + (if HasDirective(lines) then 0 else 1)
  }

  method HardenSSHConfig(content: string) returns (hardened: string, changed: nat)
    ensures hardened == Hardened(content)
    ensures changed == Reported(content)
  {
    hide Trim, Fields, Lower, Lines, Unix, Join, Newline, MARKER, DIRECTIVE, KEY;
    var newline := Newline(content);
    var lines := Lines(Unix(content));
    var output: seq<string> := [];
    changed := 0;
    var markerSeen, directiveSeen := false, false;
    for i := 0 to |lines|
      invariant output == Kept(lines[..i]) && changed == Inexact(lines[..i])
      invariant markerSeen == HasMarker(lines[..i]) && directiveSeen == HasDirective(lines[..i])
    {
      var line := lines[i];
      NextLine(lines, i);
      var trimmed := Trim(line);
      if trimmed == MARKER {
        markerSeen := true;
        continue;
      }
      var fields := Fields(trimmed);
      if |fields| > 0 && Lower(fields[0]) == KEY {
        directiveSeen := true;
        if trimmed != DIRECTIVE { changed := changed + 1; }
        continue;
      }
      output := output + [line];
    }
    assert lines[..|lines|] == lines;
    if !markerSeen { changed := changed + 1; }
    if !directiveSeen { changed := changed + 1; }
    output := [MARKER, DIRECTIVE] + output;
    hardened := Join(output, newline);
  }

  // ---------------------------------------------------------------------------
  // Splitting undoes joining
  // ---------------------------------------------------------------------------

  predicate OneLine(line: string) { '\n' !in line }

  predicate EndsInCR(line: string) { line != "" && line[|line| - 1] == '\r' }

  ghost predicate AllOneLine(lines: seq<string>) { forall l | l in lines :: OneLine(l) }

  /** No line but the last ends in a carriage return. */
  ghost predicate NoInnerCR(lines: seq<string>) { forall i | 0 <= i < |lines| - 1 :: !EndsInCR(lines[i]) }

  lemma UnixStep(c: char, s: string)
    requires !(c == '\r' && s != "" && s[0] == '\n')
    ensures Unix([c] + s) == [c] + Unix(s)
  {
    assert ([c] + s)[1..] == s;
  }

  lemma {:induction false} UnixLine(line: string, newline: string, rest: string)
    requires OneLine(line)
    requires newline == "\r\n" || (newline == "\n" && !EndsInCR(line))
    ensures Unix(line + newline + rest) == line + "\n" + Unix(rest)
  {
    if line == "" {
      var s := newline + rest;
      assert "" + newline + rest == s && "" + "\n" + Unix(rest) == "\n" + Unix(rest);
      if newline == "\r\n" { assert s[2..] == rest; } else { assert s[1..] == rest; }
    } else {
      var c, later := line[0], line[1..];
      var tail := later + newline + rest;
      assert line == [c] + later && line + newline + rest == [c] + tail;
      assert tail[0] == if |line| > 1 then line[1] else newline[0];
      UnixLine(later, newline, rest);
      hide Unix;
      UnixStep(c, tail);
      assert [c] + (later + "\n" + Unix(rest)) == [c] + later + "\n" + Unix(rest);
    }
  }

  lemma {:induction false} UnixLastLine(line: string)
    requires OneLine(line)
    ensures Unix(line) == line
  {
    if |line| >= 2 {
      UnixLastLine(line[1..]);
    }
  }

  lemma {:induction false} LinesOfLine(line: string, rest: string)
    requires OneLine(line)
    ensures Lines(line) == [line]
    ensures Lines(line + "\n" + rest) == [line] + Lines(rest)
  {
    var s := line + "\n" + rest;
    if line == "" {
      assert s[1..] == rest;
    } else {
      LinesOfLine(line[1..], rest);
      assert [line[0]] + line[1..] == line;
      assert s[1..] == line[1..] + "\n" + rest;
      assert s[0] == line[0];
    }
  }

  lemma {:induction false} LinesOfJoin(lines: seq<string>, newline: string)
    requires lines != [] && AllOneLine(lines)
    requires newline == "\r\n" || (newline == "\n" && NoInnerCR(lines))
    ensures Unix(Join(lines, newline)) == Join(lines, "\n")
    ensures Lines(Join(lines, "\n")) == lines
  {
    if |lines| == 1 {
      UnixLastLine(lines[0]);
      LinesOfLine(lines[0], "");
    } else {
      var rest := lines[1..];
      LinesOfJoin(rest, newline);
      UnixLine(lines[0], newline, Join(rest, newline));
      LinesOfLine(lines[0], Join(rest, "\n"));
    }
  }

  lemma {:induction false} LinesAreLines(s: string)
    ensures AllOneLine(Lines(s))
    ensures !ContainsCRLF(s) ==> NoInnerCR(Lines(s))
  {
    if s != "" {
      LinesAreLines(s[1..]);
      var r := Lines(s[1..]);
      assert r[0] in r && OneLine(r[0]);
      forall l | l in Lines(s) ensures OneLine(l) {
        assert l in r || l == "" || l == [s[0]] + r[0];
      }
      if s[0] == '\n' {
        assert forall i | 0 <= i < |Lines(s)| - 1 :: Lines(s)[i] == if i == 0 then "" else r[i - 1];
      } else if !ContainsCRLF(s) {
        if |s| >= 2 { assert !ContainsCRLF(s[1..]); }
        assert !ContainsCRLF(s[1..]);
        forall i | 0 <= i < |Lines(s)| - 1 ensures !EndsInCR(Lines(s)[i]) {
          if i == 0 {
            if r[0] == "" { assert s[1] == '\n' by { FirstLineEmpty(s[1..]); } }
            assert Lines(s)[0] == [s[0]] + r[0];
          } else {
            assert Lines(s)[i] == r[i];
          }
        }
      }
    }
  }

  lemma FirstLineEmpty(s: string)
    requires |Lines(s)| > 1 && Lines(s)[0] == ""
    ensures s != "" && s[0] == '\n'
  {
  }

  lemma {:induction false} UnixWithoutCRLF(s: string)
    ensures ContainsCRLF(s) <==> Unix(s) != s
    ensures |Unix(s)| <= |s|
  {
    if |s| >= 2 {
      if s[0] == '\r' && s[1] == '\n' {
        UnixWithoutCRLF(s[2..]);
      } else {
        UnixWithoutCRLF(s[1..]);
      }
    }
  }

  lemma {:induction false} JoinLength(lines: seq<string>)
    requires |lines| >= 2
    ensures Join(lines, "\r\n") != Join(lines, "\n")
    ensures |Join(lines, "\r\n")| > |Join(lines, "\n")|
  {
    if |lines| > 2 { JoinLength(lines[1..]); }
  }

  // ---------------------------------------------------------------------------
  // The two managed lines
  // ---------------------------------------------------------------------------

  lemma TrimNothing(s: string)
    requires s != "" && !Space(s[0]) && !Space(s[|s| - 1])
    ensures Trim(s) == s
  {
  }

  lemma TwoWords(first: string, second: string)
    requires first != "" && second != ""
    requires (forall c | c in first :: !Space(c)) && (forall c | c in second :: !Space(c))
    ensures Fields(first + (" " + second)) == [first, second]
  {
    var rest := " " + second;
    Word(first, rest);
    assert rest[1..] == second == second + "";
    Word(second, "");
  }

  lemma TrimTwoWords(first: string, second: string)
    requires first != "" && second != ""
    requires (forall c | c in first :: !Space(c)) && (forall c | c in second :: !Space(c))
    ensures Trim(first + " " + second) == first + " " + second
  {
    var text := first + " " + second;
    assert text[0] == first[0] && first[0] in first;
    assert text[|text| - 1] == second[|second| - 1] && second[|second| - 1] in second;
    TrimNothing(text);
  }

  lemma DirectiveWords()
    ensures Trim(DIRECTIVE) == DIRECTIVE && Fields(DIRECTIVE) == [WORD, "no"]
  {
    WordHasNoSpace();
    TrimTwoWords(WORD, "no");
    assert DIRECTIVE == WORD + (" " + "no");
    TwoWords(WORD, "no");
  }

  lemma WordHasNoSpace()
    ensures forall c | c in WORD :: !Space(c)
  {
  }

  lemma DirectiveIsOneLine()
    ensures OneLine(DIRECTIVE) && !EndsInCR(DIRECTIVE)
  {
    WordHasNoSpace();
    assert DIRECTIVE[|DIRECTIVE| - 1] == 'o';
  }

  lemma MarkerLine()
    ensures IsMarker(MARKER) && OneLine(MARKER) && !EndsInCR(MARKER) && MARKER[0] == '#'
  {
    var left, right := "# WitShield: password ", "authentication hardening";
    assert MARKER == left + right;
    assert left[0] == '#' && right[|right| - 1] == 'g';
    assert '\n' !in left && '\n' !in right;
    assert MARKER[0] == '#' && MARKER[|MARKER| - 1] == 'g';
    TrimNothing(MARKER);
  }

  lemma KeyWord()
    ensures Lower(WORD) == KEY
  {
  }

  lemma DirectiveLine()
    ensures IsDirective(DIRECTIVE)
  {
    DirectiveWords();
    KeyWord();
  }

  lemma {:induction false} Word(word: string, rest: string)
    requires word != "" && forall c | c in word :: !Space(c)
    requires rest == "" || Space(rest[0])
    ensures WordLength(word + rest) == |word|
    ensures Fields(word + rest) == [word] + Fields(rest)
  {
    WordLengthOf(word, rest);
    assert (word + rest)[0] == word[0] && word[0] in word;
    assert (word + rest)[..|word|] == word && (word + rest)[|word|..] == rest;
  }

  lemma {:induction false} WordLengthOf(word: string, rest: string)
    requires forall c | c in word :: !Space(c)
    requires rest == "" || Space(rest[0])
    ensures WordLength(word + rest) == |word|
  {
    if word == "" {
      assert word + rest == rest;
    } else {
      assert word[0] in word;
      assert (word + rest)[1..] == word[1..] + rest;
      assert forall c | c in word[1..] :: c in word;
      WordLengthOf(word[1..], rest);
    }
  }

  lemma {:induction false} KeptSound(lines: seq<string>)
    ensures forall l | l in Kept(lines) :: l in lines && IsKept(l)
    ensures |Kept(lines)| <= |lines|
    ensures NoInnerCR(lines) ==> NoInnerCR(Kept(lines))
  {
    if lines != [] {
      KeptSound(lines[1..]);
      var rest := lines[1..];
      if NoInnerCR(lines) {
        assert forall i | 0 <= i < |rest| - 1 :: rest[i] == lines[i + 1];
        if IsKept(lines[0]) {
          forall i | 0 <= i < |Kept(lines)| - 1 ensures !EndsInCR(Kept(lines)[i]) {
            if i > 0 { assert Kept(lines)[i] == Kept(rest)[i - 1]; }
          }
        }
      }
    }
  }

  lemma {:induction false} KeptAll(lines: seq<string>)
    requires forall l | l in lines :: IsKept(l)
    ensures Kept(lines) == lines
  {
    if lines != [] {
      assert lines[0] in lines;
      assert forall l | l in lines[1..] :: l in lines;
      KeptAll(lines[1..]);
    }
  }

  // ---------------------------------------------------------------------------
  // What splitting a text into words, trimming it and lowering its case amount to
  // ---------------------------------------------------------------------------

  /** Words with white space before, between and after them. */
  datatype Layout = Layout(words: seq<string>, gaps: seq<string>) {
    predicate Proper() {
      && |gaps| == |words| + 1
      && (forall g | g in gaps :: forall c | c in g :: Space(c))
      && (forall i | 0 < i < |words| :: gaps[i] != "")
      && (forall w | w in words :: w != "" && forall c | c in w :: !Space(c))
    }

    function Text(): string
      requires |gaps| == |words| + 1
      decreases |words|
    {
      if words == [] then gaps[0] else gaps[0] + (words[0] + Rest().Text())
    }

    function Rest(): (l: Layout)
      requires |gaps| == |words| + 1 && words != []
      ensures |l.words| == |words| - 1 && |l.gaps| == |l.words| + 1
    {
      Layout(words[1..], gaps[1..])
    }
  }

  lemma SpacesAre(c: char)
    ensures Space(c) <==> c in {' ', '\t', '\n', '\r', 11 as char, 12 as char}
  {
  }

  lemma RestIsProper(l: Layout)
    requires l.Proper() && l.words != []
    ensures l.Rest().Proper()
    ensures var t := l.Rest().Text(); t == "" || Space(t[0])
  {
    var r := l.Rest();
    forall g | g in r.gaps ensures g in l.gaps {}
    forall w | w in r.words ensures w in l.words {}
    assert forall i | 0 < i < |r.words| :: r.gaps[i] == l.gaps[i + 1];
    assert r.gaps[0] == l.gaps[1] && r.gaps[0] in l.gaps;
    if r.words != [] { assert r.gaps[0] != "" && r.gaps[0][0] in r.gaps[0]; }
    else if r.gaps[0] != "" { assert r.gaps[0][0] in r.gaps[0]; }
  }

  lemma {:induction false} GapDoesNotMatter(gap: string, rest: string)
    requires forall c | c in gap :: Space(c)
    ensures Fields(gap + rest) == Fields(rest)
  {
    if gap == "" {
      assert gap + rest == rest;
    } else {
      assert gap[0] in gap && (gap + rest)[1..] == gap[1..] + rest;
      assert forall c | c in gap[1..] :: c in gap;
      GapDoesNotMatter(gap[1..], rest);
    }
  }

  /** Laid-out words are found again, whatever the white space around them. */
  lemma {:induction false} FieldsOfLayout(l: Layout)
    requires l.Proper()
    ensures Fields(l.Text()) == l.words
    decreases |l.words|
  {
    if l.words == [] {
      assert l.gaps[0] in l.gaps && l.gaps[0] + "" == l.gaps[0];
      GapDoesNotMatter(l.gaps[0], "");
    } else {
      RestIsProper(l);
      FieldsOfLayout(l.Rest());
      assert l.gaps[0] in l.gaps && l.words[0] in l.words;
      GapDoesNotMatter(l.gaps[0], l.words[0] + l.Rest().Text());
      Word(l.words[0], l.Rest().Text());
    }
  }

  lemma {:induction false} WordLengthIsWord(s: string)
    ensures var n := WordLength(s); (forall c | c in s[..n] :: !Space(c)) && (n < |s| ==> Space(s[n]))
  {
    if s != "" && !Space(s[0]) {
      WordLengthIsWord(s[1..]);
      var n := WordLength(s);
      assert s[..n] == [s[0]] + s[1..][..n - 1];
    }
  }

  /** Every text is its fields, laid out. */
  lemma {:induction false} LaidOut(s: string) returns (l: Layout)
    ensures l.Proper() && l.Text() == s && l.words == Fields(s)
    decreases |s|
  {
    if s == "" {
      l := Layout([], [""]);
    } else if Space(s[0]) {
      var m := LaidOut(s[1..]);
      l := Layout(m.words, [[s[0]] + m.gaps[0]] + m.gaps[1..]);
      LongerGap(s[0], m);
    } else {
      var n := WordLength(s);
      WordLengthIsWord(s);
      var m := LaidOut(s[n..]);
      l := Layout([s[..n]] + m.words, [""] + m.gaps);
      assert s == s[..n] + s[n..] && (s[n..] == "" || Space(s[n..][0]));
      hide Layout.Text, Layout.Proper;
      MoreWords(s[..n], m);
    }
  }

  lemma LongerGap(c: char, m: Layout)
    requires m.Proper() && Space(c)
    ensures var l := Layout(m.words, [[c] + m.gaps[0]] + m.gaps[1..]); l.Proper() && l.Text() == [c] + m.Text()
  {
    var l := Layout(m.words, [[c] + m.gaps[0]] + m.gaps[1..]);
    LongerGapText(c, m);
    assert m.gaps[0] in m.gaps;
    forall g | g in l.gaps ensures forall d | d in g :: Space(d) {
      if g != l.gaps[0] { assert g in m.gaps[1..] && g in m.gaps; }
    }
    forall i | 0 < i < |l.words| ensures l.gaps[i] != "" { assert l.gaps[i] == m.gaps[i]; }
  }

  lemma LongerGapText(c: char, m: Layout)
    requires |m.gaps| == |m.words| + 1
    ensures Layout(m.words, [[c] + m.gaps[0]] + m.gaps[1..]).Text() == [c] + m.Text()
  {
    var l := Layout(m.words, [[c] + m.gaps[0]] + m.gaps[1..]);
    if m.words != [] {
      assert l.Rest() == m.Rest();
      var rest := m.words[0] + m.Rest().Text();
      assert [c] + (m.gaps[0] + rest) == [c] + m.gaps[0] + rest;
    }
  }

  lemma FirstOfText(m: Layout)
    requires |m.gaps| == |m.words| + 1 && m.words != [] && m.words[0] != ""
    ensures m.Text() != "" && m.Text()[0] == if m.gaps[0] != "" then m.gaps[0][0] else m.words[0][0]
  {
  }

  lemma MoreWords(word: string, m: Layout)
    requires m.Proper() && word != "" && forall c | c in word :: !Space(c)
    requires m.Text() == "" || Space(m.Text()[0])
    ensures var l := Layout([word] + m.words, [""] + m.gaps); l.Proper() && l.Text() == word + m.Text()
  {
    var l := Layout([word] + m.words, [""] + m.gaps);
    assert l.Rest() == m && "" + (word + m.Text()) == word + m.Text();
    forall w | w in l.words ensures w != "" && forall c | c in w :: !Space(c) {
      assert w == word || w in m.words;
    }
    forall i | 0 < i < |l.words| ensures l.gaps[i] != "" {
      assert l.gaps[i] == m.gaps[i - 1];
      if i == 1 {
        assert m.words[0] in m.words && m.words[0][0] in m.words[0];
        FirstOfText(m);
      }
    }
    forall g | g in l.gaps ensures forall c | c in g :: Space(c) { assert g == "" || g in m.gaps; }
  }

  /** Trimming a layout leaves it from its first to its last word. */
  lemma {:induction false} TrimIs(s: string) returns (left: string, right: string)
    ensures s == left + Trim(s) + right && forall c | c in left + right :: Space(c)
    ensures Trim(s) != "" ==> !Space(Trim(s)[0]) && !Space(Trim(s)[|Trim(s)| - 1])
  {
    right := TrimRightIs(s);
    left := TrimLeftIs(TrimRight(s));
    var t := TrimRight(s);
    if Trim(s) != "" { assert t[|t| - 1] == Trim(s)[|Trim(s)| - 1]; }
  }

  lemma {:induction false} TrimRightIs(s: string) returns (right: string)
    ensures s == TrimRight(s) + right && forall c | c in right :: Space(c)
    ensures TrimRight(s) != "" ==> !Space(TrimRight(s)[|TrimRight(s)| - 1])
  {
    right := "";
    if s != "" && Space(s[|s| - 1]) {
      var shorter := s[..|s| - 1];
      var r := TrimRightIs(shorter);
      right := r + [s[|s| - 1]];
      assert s == shorter + [s[|s| - 1]];
    }
  }

  lemma {:induction false} TrimLeftIs(s: string) returns (left: string)
    ensures s == left + TrimLeft(s) && forall c | c in left :: Space(c)
    ensures TrimLeft(s) != "" ==> !Space(TrimLeft(s)[0])
  {
    left := "";
    if s != "" && Space(s[0]) {
      var l := TrimLeftIs(s[1..]);
      left := [s[0]] + l;
      assert s == [s[0]] + s[1..];
    }
  }

  /** Lower case changes exactly the capital letters, each to its small one. */
  lemma LowerIs(s: string, i: nat)
    requires i < |s|
    ensures |Lower(s)| == |s| && ('A' <= s[i] <= 'Z' <==> Lower(s)[i] != s[i])
    ensures 'A' <= s[i] <= 'Z' ==> (Lower(s)[i] as int) - ('a' as int) == (s[i] as int) - ('A' as int)
  {
  }

  /** Lines joined again are the text. */
  lemma {:induction false} JoinOfLines(s: string)
    ensures Join(Lines(s), "\n") == s
  {
    if s != "" {
      JoinOfLines(s[1..]);
      var r := Lines(s[1..]);
      if s[0] == '\n' {
        assert Lines(s)[1..] == r;
        assert "" + "\n" + s[1..] == s;
      } else {
        assert Lines(s)[1..] == r[1..];
        if |r| == 1 { assert Lines(s) == [[s[0]] + r[0]]; }
        else { assert [s[0]] + r[0] + "\n" + Join(r[1..], "\n") == [s[0]] + (r[0] + "\n" + Join(r[1..], "\n")); }
        assert [s[0]] + s[1..] == s;
      }
    }
  }

  // ---------------------------------------------------------------------------
  // Hardening is idempotent
  // ---------------------------------------------------------------------------

  /** Reading back a text whose lines are two given ones and some lines of `content`. */
  lemma PrefixedLines(first: string, second: string, content: string)
    requires OneLine(first) && OneLine(second) && !EndsInCR(first) && !EndsInCR(second)
    ensures
      var lines := [first, second] + Kept(Lines(Unix(content)));
      var text := Join(lines, Newline(content));
      Newline(text) == Newline(content) && Lines(Unix(text)) == lines
  {
    var original := Lines(Unix(content));
    var kept := Kept(original);
    var lines := [first, second] + kept;
    LinesAreLines(Unix(content));
    KeptSound(original);
    UnixWithoutCRLF(content);
    if !ContainsCRLF(content) {
      assert forall i | 2 <= i < |lines| :: lines[i] == kept[i - 2];
    }
    LinesOfJoin(lines, Newline(content));
    UnixWithoutCRLF(Join(lines, Newline(content)));
    JoinLength(lines);
  }

  /** What the hardened text reads back as. */
  lemma HardenedLines(content: string)
    ensures Newline(Hardened(content)) == Newline(content)
    ensures Lines(Unix(Hardened(content))) == [MARKER, DIRECTIVE] + Kept(Lines(Unix(content)))
  {
    MarkerLine();
    DirectiveIsOneLine();
    PrefixedLines(MARKER, DIRECTIVE, content);
  }

  lemma KeptAgain(first: string, second: string, lines: seq<string>)
    requires !IsKept(first) && !IsKept(second)
    ensures Kept([first, second] + Kept(lines)) == Kept(lines)
  {
    KeptSound(lines);
    KeptAll(Kept(lines));
    KeptAppend([first, second], Kept(lines));
    assert [first, second][1..] == [second];
  }

  lemma HardenIsIdempotent(content: string)
    ensures Hardened(Hardened(content)) == Hardened(content)
  {
    HardenedLines(content);
    MarkerLine();
    DirectiveLine();
    KeptAgain(MARKER, DIRECTIVE, Lines(Unix(content)));
  }

  /** The two managed lines come first and only there, and all lines end alike. */
  predicate Managed(content: string) {
    var lines := Lines(Unix(content));
    lines == [MARKER, DIRECTIVE] + Kept(lines) && content == Join(lines, Newline(content))
  }

  /** Hardening leaves a text alone exactly when it starts with the two managed lines,
      repeats neither, and uses one line end throughout. */
  lemma UnchangedIff(content: string)
    ensures Hardened(content) == content <==> Managed(content)
  {
    if Hardened(content) == content { HardenedLines(content); }
  }

  // ---------------------------------------------------------------------------
  // What a configuration means: the first value of each key wins
  // ---------------------------------------------------------------------------

  function DropCR(line: string): string { if EndsInCR(line) then line[..|line| - 1] else line }

  /** The lines a line scanner yields: a final empty line is not one. */
  function ScanLines(s: string): seq<string> {
    var lines := Lines(s);
    var body := if lines[|lines| - 1] == "" then lines[..|lines| - 1] else lines;
    seq(|body|, i requires 0 <= i < |body| => DropCR(body[i]))
  }

  function Entry(text: string): Option<(string, string)> {
    var line := Trim(text);
    if line == "" || line[0] == '#' || (|line| >= 6 && Lower(line[..6]) == "match ") then None
    else
      var fields := Fields(line);
      if |fields| >= 2 then Some((Lower(fields[0]), fields[1])) else None
  }

  // What an entry is, in terms of the words of its line

  lemma {:induction false} TrimRightOf(core: string, right: string)
    requires core != "" && !Space(core[|core| - 1]) && forall c | c in right :: Space(c)
    ensures TrimRight(core + right) == core
  {
    var s := core + right;
    if right == "" {
      assert s == core;
    } else {
      var n := |right| - 1;
      assert right[n] in right && s[|s| - 1] == right[n] && s[..|s| - 1] == core + right[..n];
      assert forall c | c in right[..n] :: c in right;
      TrimRightOf(core, right[..n]);
    }
  }

  lemma {:induction false} TrimLeftOf(left: string, core: string)
    requires core != "" && !Space(core[0]) && forall c | c in left :: Space(c)
    ensures TrimLeft(left + core) == core
  {
    var s := left + core;
    if left == "" {
      assert s == core;
    } else {
      assert left[0] in left && s[1..] == left[1..] + core;
      assert forall c | c in left[1..] :: c in left;
      TrimLeftOf(left[1..], core);
    }
  }

  /** The layout without the white space around it. */
  function Bare(l: Layout): (b: Layout)
    requires |l.gaps| == |l.words| + 1 && l.words != []
    ensures |b.gaps| == |b.words| + 1 && b.words == l.words && b.gaps[0] == b.gaps[|b.gaps| - 1] == ""
  {
    Layout(l.words, [""] + l.gaps[1..|l.words|] + [""])
  }

  lemma BareIsProper(l: Layout)
    requires l.Proper() && l.words != []
    ensures Bare(l).Proper() && (|l.words| >= 2 ==> Bare(l).gaps[1] == l.gaps[1])
  {
    var b := Bare(l);
    assert forall i | 0 < i < |b.words| :: b.gaps[i] == l.gaps[i];
    forall g | g in b.gaps ensures forall c | c in g :: Space(c) { assert g == "" || g in l.gaps; }
  }

  /** The last gap comes last. */
  lemma {:induction false} LastGap(words: seq<string>, gaps: seq<string>, last: string)
    requires |gaps| == |words|
    ensures Layout(words, gaps + [last]).Text() == Layout(words, gaps + [""]).Text() + last
    decreases |words|
  {
    var l, e := Layout(words, gaps + [last]), Layout(words, gaps + [""]);
    if words == [] {
      assert gaps + [last] == [last] && gaps + [""] == [""];
    } else {
      LastGap(words[1..], gaps[1..], last);
      assert (gaps + [last])[1..] == gaps[1..] + [last] && (gaps + [""])[1..] == gaps[1..] + [""];
      var rest := e.Rest().Text();
      assert gaps[0] + (words[0] + (rest + last)) == gaps[0] + (words[0] + rest) + last;
    }
  }

  lemma {:induction false} LastOfText(words: seq<string>, gaps: seq<string>)
    requires |gaps| == |words| && words != [] && words[|words| - 1] != ""
    ensures var t := Layout(words, gaps + [""]).Text(); var w := words[|words| - 1];
            |t| >= |w| && t[|t| - 1] == w[|w| - 1]
    decreases |words|
  {
    var l := Layout(words, gaps + [""]);
    assert (gaps + [""])[1..] == gaps[1..] + [""];
    if |words| > 1 {
      LastOfText(words[1..], gaps[1..]);
    } else {
      assert gaps[1..] + [""] == [""] && l.Rest().Text() == "";
    }
  }

  lemma BareInside(l: Layout)
    requires |l.gaps| == |l.words| + 1 && l.words != []
    ensures l.Text() == l.gaps[0] + Bare(l).Text() + l.gaps[|l.words|]
  {
    var n, inner := |l.words|, [""] + l.gaps[1..|l.words|];
    var m := Layout(l.words, inner + [l.gaps[n]]);
    FirstGap(l);
    FirstGap(m);
    hide Layout.Text;
    SameRest(l, m);
    LastGap(l.words, inner, l.gaps[n]);
    var core, body := Bare(l).Text(), l.words[0] + l.Rest().Text();
    Grouping("", "", body);
    Grouping(l.gaps[0], core, l.gaps[n]);
  }

  lemma Grouping(a: string, b: string, c: string)
    ensures a + (b + c) == a + b + c && "" + c == c
  {
  }

  lemma SameRest(l: Layout, m: Layout)
    requires |l.gaps| == |l.words| + 1 && l.words != [] && m.words == l.words
    requires m.gaps == [""] + l.gaps[1..|l.words|] + [l.gaps[|l.words|]]
    ensures |m.gaps| == |l.gaps| && m.Rest() == l.Rest()
  {
    assert m.gaps[1..] == l.gaps[1..];
  }

  lemma FirstGap(l: Layout)
    requires |l.gaps| == |l.words| + 1 && l.words != []
    ensures l.Text() == l.gaps[0] + (l.words[0] + l.Rest().Text())
  {
  }

  lemma BareEnds(l: Layout)
    requires l.Proper() && l.words != []
    ensures var t := Bare(l).Text();
            t != "" && l.words[0] != "" && t[0] == l.words[0][0] && !Space(t[0]) && !Space(t[|t| - 1])
  {
    var first, last := l.words[0], l.words[|l.words| - 1];
    assert first in l.words && last in l.words;
    assert first[0] in first && last[|last| - 1] in last;
    LastOfText(l.words, [""] + l.gaps[1..|l.words|]);
    FirstOfText(Bare(l));
  }

  lemma TrimmedLayout(l: Layout)
    requires l.Proper() && l.words != []
    ensures Trim(l.Text()) == Bare(l).Text()
  {
    BareInside(l);
    BareEnds(l);
    assert l.gaps[0] in l.gaps && l.gaps[|l.words|] in l.gaps;
    TrimCore(l.gaps[0], Bare(l).Text(), l.gaps[|l.words|]);
  }

  lemma TrimCore(left: string, core: string, right: string)
    requires core != "" && !Space(core[0]) && !Space(core[|core| - 1])
    requires (forall c | c in left :: Space(c)) && (forall c | c in right :: Space(c))
    ensures Trim(left + core + right) == core
  {
    var front := left + core;
    assert front[|front| - 1] == core[|core| - 1];
    TrimRightOf(front, right);
    TrimLeftOf(left, core);
  }

  predicate Comment(word: string) { word != "" && word[0] == '#' }

  const MATCH: string := "match "

  /** A line starts with "match " exactly if that is its first word, with a blank after it. */
  lemma MatchPrefix(word: string, gap: string, rest: string)
    requires word != "" && gap != "" && (forall c | c in word :: !Space(c)) && (forall c | c in gap :: Space(c))
    ensures var line := word + (gap + rest);
            |line| >= 6 && Lower(line[..6]) == MATCH <==> Lower(word) == MATCH[..5] && gap[0] == ' '
  {
    var line := word + (gap + rest);
    assert gap[0] in gap && line[|word|] == gap[0] && LowerChar(gap[0]) == gap[0];
    assert forall i | 0 <= i < |word| :: line[i] == word[i] && word[i] in word;
    assert forall i | 0 <= i < 5 :: !Space(MATCH[i]);
    if |line| >= 6 && Lower(line[..6]) == MATCH {
      assert forall i | 0 <= i < 6 :: Lower(line[..6])[i] == MATCH[i] && LowerChar(line[i]) == MATCH[i];
      assert Space(line[5]);
      assert |word| == 5;
      assert Lower(word) == MATCH[..5];
    }
    if Lower(word) == MATCH[..5] && gap[0] == ' ' {
      assert |word| == |Lower(word)| == 5;
      forall i | 0 <= i < 6 ensures LowerChar(line[i]) == MATCH[i] {
        if i < 5 { assert Lower(word)[i] == MATCH[i] && line[i] == word[i]; } else { assert line[i] == gap[0]; }
      }
      assert Lower(line[..6]) == MATCH;
    }
  }

  /** A line sets its first word, in lower case, to its second, unless it is a comment or
      opens a Match block. */
  lemma EntryOfLayout(l: Layout)
    requires l.Proper()
    ensures var w := l.words;
            Entry(l.Text()) ==
            if |w| < 2 || Comment(w[0]) || (Lower(w[0]) == MATCH[..5] && l.gaps[1][0] == ' ') then None
            else Some((Lower(w[0]), w[1]))
  {
    if l.words == [] {
      assert l.gaps[0] in l.gaps;
      TrimSpaces(l.gaps[0]);
    } else {
      TrimmedLayout(l);
      BareEnds(l);
      BareIsProper(l);
      var b := Bare(l);
      FieldsOfLayout(b);
      if |l.words| >= 2 {
        assert l.words[0] in l.words && l.gaps[1] in l.gaps;
        var rest := b.Rest();
        assert b.Text() == "" + (b.words[0] + rest.Text()) == b.words[0] + rest.Text();
        assert rest.Text() == rest.gaps[0] + (rest.words[0] + rest.Rest().Text());
        MatchPrefix(l.words[0], l.gaps[1], rest.words[0] + rest.Rest().Text());
      }
    }
  }

  lemma {:induction false} TrimSpaces(s: string)
    requires forall c | c in s :: Space(c)
    ensures Trim(s) == ""
  {
    if s != "" {
      assert s[|s| - 1] in s;
      assert forall c | c in s[..|s| - 1] :: c in s;
      TrimSpaces(s[..|s| - 1]);
    }
  }

  function Settings(lines: seq<string>): map<string, string> {
    if lines == [] then map[]
    else
      var rest := Settings(lines[1..]);
      match Entry(lines[0])
      case Some(e) => rest[e.0 := e.1]
      case None => rest
  }

  function Meaning(content: string): map<string, string> { Settings(ScanLines(content)) }

  method ParseSSHD(content: string) returns (out: map<string, string>)
    ensures out == Meaning(content)
  {
    out := map[];
    var lines := ScanLines(content);
    for i := 0 to |lines|
      invariant Settings(lines[i..]) + out == Settings(lines)
    {
      assert lines[i..][1..] == lines[i + 1..];
      var line := Trim(lines[i]);
      if line == "" || line[0] == '#' || (|line| >= 6 && Lower(line[..6]) == "match ") { continue; }
      var fields := Fields(line);
      if |fields| >= 2 {
        var key := Lower(fields[0]);
        if key !in out { out := out[key := fields[1]]; }
      }
    }
  }

  lemma {:induction false} SameEntries(a: seq<string>, b: seq<string>)
    requires |a| == |b| && forall i | 0 <= i < |a| :: Entry(a[i]) == Entry(b[i])
    ensures Settings(a) == Settings(b)
  {
    if a != [] {
      forall i | 0 <= i < |a[1..]| ensures Entry(a[1..][i]) == Entry(b[1..][i]) {
        assert a[1..][i] == a[i + 1] && b[1..][i] == b[i + 1];
      }
      SameEntries(a[1..], b[1..]);
    }
  }

  lemma {:induction false} TrailingEmptyLine(lines: seq<string>)
    ensures Settings(lines + [""]) == Settings(lines)
  {
    if lines == [] {
      assert lines + [""] == [""];
      assert Entry("") == None;
      assert [""][1..] == [];
    } else {
      assert (lines + [""])[1..] == lines[1..] + [""];
      TrailingEmptyLine(lines[1..]);
    }
  }

  /** `b` is `a`, possibly followed by a carriage return. */
  predicate SameUpToCR(a: string, b: string) { b == a || b == a + "\r" }

  lemma CRDoesNotMatter(a: string, b: string)
    requires SameUpToCR(a, b)
    ensures Entry(a) == Entry(b)
  {
    if a != b {
      assert b[..|b| - 1] == a;
      assert TrimRight(a) == TrimRight(b);
    }
  }

  lemma LinesStep(c: char, s: string)
    ensures Lines([c] + s) == if c == '\n' then [""] + Lines(s) else [[c] + Lines(s)[0]] + Lines(s)[1..]
  {
    assert ([c] + s)[1..] == s;
  }

  lemma LinesAfterBreak(s: string)
    ensures Lines("\n" + s) == [""] + Lines(s)
    ensures Lines("\r" + ("\n" + s)) == ["\r"] + Lines(s)
  {
    var lf := "\n" + s;
    assert lf[1..] == s;
    var crlf := "\r" + lf;
    assert crlf[1..] == lf;
    assert ['\r'] + "" == "\r";
  }

  /** `u` is `r` without the carriage return that ends an inner line. */
  ghost predicate Dropped(r: seq<string>, u: seq<string>) {
    |u| == |r| && forall i | 0 <= i < |r| :: u[i] == if i < |r| - 1 then DropCR(r[i]) else r[i]
  }

  lemma DroppedGrows(c: char, r: seq<string>, u: seq<string>)
    requires r != [] && Dropped(r, u) && (|r| > 1 && r[0] == "" ==> c != '\r')
    ensures Dropped([[c] + r[0]] + r[1..], [[c] + u[0]] + u[1..])
  {
    if |r| > 1 { assert DropCR([c] + r[0]) == [c] + DropCR(r[0]); }
  }

  lemma DroppedBreak(line: string, r: seq<string>, u: seq<string>)
    requires r != [] && Dropped(r, u) && (line == "" || line == "\r")
    ensures Dropped([line] + r, [""] + u)
  {
    assert DropCR(line) == "";
  }

  /** Replacing the line ends takes exactly one carriage return off each line that has an
      end and one before it. */
  lemma {:induction false} LinesOfUnix(s: string)
    ensures Dropped(Lines(s), Lines(Unix(s)))
  {
    if |s| < 2 {
    } else if s[0] == '\r' && s[1] == '\n' {
      LinesOfUnix(s[2..]);
      LinesAfterBreak(s[2..]);
      LinesAfterBreak(Unix(s[2..]));
      assert s == "\r" + ("\n" + s[2..]);
      hide Dropped;
      DroppedBreak("\r", Lines(s[2..]), Lines(Unix(s[2..])));
    } else {
      LinesOfUnix(s[1..]);
      assert s == [s[0]] + s[1..];
      UnixStep(s[0], s[1..]);
      LinesStep(s[0], s[1..]);
      LinesStep(s[0], Unix(s[1..]));
      var r, u := Lines(s[1..]), Lines(Unix(s[1..]));
      if |r| > 1 && r[0] == "" { FirstLineEmpty(s[1..]); }
      hide Dropped, Lines, Unix;
      if s[0] == '\n' { DroppedBreak("", r, u); } else { DroppedGrows(s[0], r, u); }
    }
  }

  lemma UnixLines(s: string)
    ensures |Lines(s)| == |Lines(Unix(s))|
    ensures forall i | 0 <= i < |Lines(s)| :: SameUpToCR(Lines(Unix(s))[i], Lines(s)[i])
  {
    LinesOfUnix(s);
    hide Lines, Unix;
    forall i | 0 <= i < |Lines(s)| ensures SameUpToCR(Lines(Unix(s))[i], Lines(s)[i]) { DroppedIsSame(Lines(s)[i]); }
  }

  lemma DroppedIsSame(line: string)
    ensures SameUpToCR(DropCR(line), line)
  {
    if EndsInCR(line) { assert line == DropCR(line) + "\r"; }
  }

  /** The scanner and the plain splitter read the same settings. */
  lemma MeaningOfLines(content: string)
    ensures Meaning(content) == Settings(Lines(Unix(content)))
  {
    hide Entry, Lines, Unix, Settings;
    var lines := Lines(content);
    var body := if lines[|lines| - 1] == "" then lines[..|lines| - 1] else lines;
    forall i | 0 <= i < |body| ensures Entry(ScanLines(content)[i]) == Entry(body[i]) {
      if EndsInCR(body[i]) { assert body[i] == DropCR(body[i]) + "\r"; }
      CRDoesNotMatter(DropCR(body[i]), body[i]);
    }
    SameEntries(ScanLines(content), body);
    if lines[|lines| - 1] == "" {
      assert lines == body + [""];
      TrailingEmptyLine(body);
    }
    UnixLines(content);
    forall i | 0 <= i < |lines| ensures Entry(lines[i]) == Entry(Lines(Unix(content))[i]) {
      CRDoesNotMatter(Lines(Unix(content))[i], lines[i]);
    }
    SameEntries(lines, Lines(Unix(content)));
  }

  /** Dropping the managed lines changes at most the managed key. */
  lemma {:induction false} KeptSettings(lines: seq<string>, value: string)
    ensures Settings(Kept(lines))[KEY := value] == Settings(lines)[KEY := value]
  {
    if lines != [] {
      KeptSettings(lines[1..], value);
      if IsKept(lines[0]) {
        assert ([lines[0]] + Kept(lines[1..]))[1..] == Kept(lines[1..]);
        if Entry(lines[0]).Some? {
          var e := Entry(lines[0]).value;
          var a, b := Settings(Kept(lines[1..])), Settings(lines[1..]);
          assert a[e.0 := e.1][KEY := value] == a[KEY := value][e.0 := e.1][KEY := value];
          assert b[e.0 := e.1][KEY := value] == b[KEY := value][e.0 := e.1][KEY := value];
        }
      } else if IsMarker(lines[0]) {
        MarkerLine();
        assert Entry(lines[0]) == None;
      } else {
        assert Entry(lines[0]) == None || Entry(lines[0]).value.0 == KEY;
      }
    }
  }

  lemma ManagedEntries()
    ensures Entry(MARKER) == None && Entry(DIRECTIVE) == Some((KEY, "no"))
  {
    MarkerLine();
    DirectiveWords();
    KeyWord();
    assert DIRECTIVE[0] == 'P';
    var start := DIRECTIVE[..6];
    assert start[0] == 'P' && Lower(start)[0] == 'p';
  }

  lemma FirstWins(first: string, second: string, key: string, value: string, rest: seq<string>)
    requires Entry(first) == None && Entry(second) == Some((key, value))
    ensures Settings([first, second] + rest) == Settings(rest)[key := value]
  {
    var lines := [first, second] + rest;
    assert lines[1..] == [second] + rest;
    assert lines[1..][1..] == rest;
  }

  /** The hardened text means what the original meant, with password authentication off. */
  lemma HardenedMeaning(content: string)
    ensures Meaning(Hardened(content)) == Meaning(content)[KEY := "no"]
  {
    var lines := Lines(Unix(content));
    MeaningOfLines(content);
    MeaningOfLines(Hardened(content));
    HardenedLines(content);
    ManagedEntries();
    FirstWins(MARKER, DIRECTIVE, KEY, "no", Kept(lines));
    KeptSettings(lines, "no");
  }

  // ---------------------------------------------------------------------------
  // The reported number of changed lines
  // ---------------------------------------------------------------------------

  lemma {:induction false} AllExact(lines: seq<string>)
    requires forall l | l in lines :: IsKept(l) || IsMarker(l) || Exact(l)
    ensures Inexact(lines) == 0
  {
    if lines != [] {
      assert lines[0] in lines;
      assert forall l | l in lines[1..] :: l in lines;
      AllExact(lines[1..]);
    }
  }

  lemma ManagedReportsZero(content: string, lines: seq<string>)
    requires lines == Lines(Unix(content)) && MARKER in lines && DIRECTIVE in lines
    requires forall l | l in lines :: IsKept(l) || l == MARKER || l == DIRECTIVE
    ensures Reported(content) == 0
  {
    MarkerLine();
    DirectiveWords();
    DirectiveLine();
    NotAMarker();
    AllExact(lines);
  }

  /** A text the hardening leaves alone reports no change ... */
  lemma UnchangedReportsZero(content: string)
    requires Hardened(content) == content
    ensures Reported(content) == 0
  {
    UnchangedIff(content);
    var lines := Lines(Unix(content));
    KeptSound(lines);
    assert lines == [MARKER, DIRECTIVE] + Kept(lines);
    assert lines[0] == MARKER && lines[1] == DIRECTIVE;
    ManagedReportsZero(content, lines);
  }

  /** ... but a text with both managed lines further down also reports none, and changes. */
  lemma ChangeCanReportZero(line: string)
    requires OneLine(line) && IsKept(line) && !EndsInCR(line)
    ensures var content := Join([line, MARKER, DIRECTIVE], "\n");
            Reported(content) == 0 && Hardened(content) != content
  {
    var lines := [line, MARKER, DIRECTIVE];
    var content := Join(lines, "\n");
    MarkerLine();
    DirectiveIsOneLine();
    LinesOfJoin(lines, "\n");
    ManagedReportsZero(content, lines);
    UnchangedIff(content);
    assert lines[0] != MARKER;
  }

  /** The reported count tells changed from unchanged exactly for the texts that report
      something or already have the managed form. */
  lemma CountTellsChangeIff(content: string)
    ensures (Reported(content) == 0 <==> Hardened(content) == content) <==> Reported(content) != 0 || Managed(content)
  {
    UnchangedIff(content);
    if Hardened(content) == content { UnchangedReportsZero(content); }
  }

  lemma NotAMarker()
    ensures !IsMarker(DIRECTIVE)
  {
    DirectiveWords();
    MarkerLine();
    assert DIRECTIVE[0] == 'P';
  }
}
