/**
 The plan that APT streams to the guard while it owns the package lock: a line parser,
 and the rules by which a plan is allowed. Text is ASCII.
 */
module PackagePlan {
  import opened Prelude
  import Text = SshConfig

  const MAX_PLAN_BYTES: nat := 4 * 1024 * 1024
  const MAX_LINE: nat := 64 * 1024
  const MAX_ENTRIES: nat := 512

  type Package = string

  datatype Transition = Transition(from: string, to: string, direction: string)

  type Plan = map<Package, Transition>

  /** One package line: an archive or remove action, or a configure action. */
  datatype Entry = Entry(name: Package, transition: Transition, configure: bool)

  // ---------------------------------------------------------------------------
  // The words of a package line
  // ---------------------------------------------------------------------------

  predicate LowerOrDigit(c: char) { 'a' <= c <= 'z' || '0' <= c <= '9' }

  predicate BasePackage(s: string) {
    && 1 <= |s| <= 128 && LowerOrDigit(s[0])
    && forall i | 1 <= i < |s| :: LowerOrDigit(s[i]) || s[i] in "+.-"
  }

  predicate Architecture(s: string) {
    && 1 <= |s| <= 32 && LowerOrDigit(s[0])
    && forall i | 1 <= i < |s| :: LowerOrDigit(s[i]) || s[i] == '-'
  }

  predicate Version(s: string) {
    && 1 <= |s| <= 256 && (LowerOrDigit(s[0]) || 'A' <= s[0] <= 'Z')
    && forall i | 1 <= i < |s| :: LowerOrDigit(s[i]) || 'A' <= s[i] <= 'Z' || s[i] in ".+:~_-"
  }

  /** A character class, as the ranges it lists. */
  type Class = set<(char, char)>

  predicate In(c: char, ranges: Class) { exists r :: r in ranges && r.0 <= c <= r.1 }

  /** One character of the first class and up to `most` of the second. */
  predicate Matches(s: string, first: Class, others: Class, most: nat) {
    s != "" && In(s[0], first) && |s| <= most + 1 && forall i | 1 <= i < |s| :: In(s[i], others)
  }

  /** The three patterns are [a-z0-9][a-z0-9+.-]{0,127}, [a-z0-9][a-z0-9-]{0,31} and
      [A-Za-z0-9][A-Za-z0-9.+:~_-]{0,255}. */
  lemma PatternsAre(s: string)
    ensures BasePackage(s) <==>
      Matches(s, {('a', 'z'), ('0', '9')}, {('a', 'z'), ('0', '9'), ('+', '+'), ('.', '.'), ('-', '-')}, 127)
    ensures Architecture(s) <==> Matches(s, {('a', 'z'), ('0', '9')}, {('a', 'z'), ('0', '9'), ('-', '-')}, 31)
    ensures Version(s) <==>
      Matches(s, {('A', 'Z'), ('a', 'z'), ('0', '9')},
              {('A', 'Z'), ('a', 'z'), ('0', '9'), ('.', '.'), ('+', '+'), (':', ':'), ('~', '~'), ('_', '_'),
               ('-', '-')},
              255)
  {
    forall c: char ensures
      && (LowerOrDigit(c) <==> In(c, {('a', 'z'), ('0', '9')}))
      && (LowerOrDigit(c) || 'A' <= c <= 'Z' <==> In(c, {('A', 'Z'), ('a', 'z'), ('0', '9')}))
      && (LowerOrDigit(c) || c in "+.-" <==> In(c, {('a', 'z'), ('0', '9'), ('+', '+'), ('.', '.'), ('-', '-')}))
      && (LowerOrDigit(c) || c == '-' <==> In(c, {('a', 'z'), ('0', '9'), ('-', '-')}))
      && (LowerOrDigit(c) || 'A' <= c <= 'Z' || c in ".+:~_-" <==>
            In(c, {('A', 'Z'), ('a', 'z'), ('0', '9'), ('.', '.'), ('+', '+'), (':', ':'), ('~', '~'), ('_', '_'),
                   ('-', '-')}))
    {
    }
  }

  datatype Side = Absent | Present(architecture: string, multiArch: string)

  function ParseSide(version: string, architecture: string, multiArch: string): Option<Side> {
    if version == "-" then
      if architecture == "-" && multiArch in {"none", "no"} then Some(Absent) else None
    else if !Version(version) || !Architecture(architecture) then None
    else
      var kind := if multiArch == "none" then "no" else multiArch;
      if kind in {"same", "foreign", "allowed", "no"} then Some(Present(architecture, kind)) else None
  }

  predicate DebFile(path: string) { path != "" && path[0] == '/' && |path| >= 4 && path[|path| - 4..] == ".deb" }

  function ParseWords(w: seq<string>): Option<Entry> {
    if |w| != 9 || !BasePackage(w[0]) || w[4] !in {"<", "=", ">"} then None
    else
      var former := ParseSide(w[1], w[2], w[3]);
      var latter := ParseSide(w[5], w[6], w[7]);
      if former.None? || latter.None? || (former.value.Absent? && latter.value.Absent?) then None
      else if former.value.Present? && latter.value.Present? && former.value != latter.value then None
      else
        var side := if former.value.Present? then former.value else latter.value;
        var entry := Entry(w[0] + ":" + side.architecture, Transition(w[1], w[5], w[4]), w[8] == "**CONFIGURE**");
        if entry.configure || w[8] == "**REMOVE**" || DebFile(w[8]) then Some(entry) else None
  }

  // ---------------------------------------------------------------------------
  // The actions that the words stand for
  // ---------------------------------------------------------------------------

  /** One side of a package action as APT prints it. */
  datatype Half = Gone(word: string) | Held(version: string, architecture: string, multiArch: string)

  datatype Means = Unpack(path: string) | Remove | Configure

  datatype Action = Action(name: string, before: Half, direction: string, after: Half, means: Means)

  const CONFIGURE_WORD: string := "**CONFIGURE**"
  const REMOVE_WORD: string := "**REMOVE**"

  function HalfWords(h: Half): seq<string> {
    match h
    case Gone(word) => ["-", "-", word]
    case Held(version, architecture, multiArch) => [version, architecture, multiArch]
  }

  function MeansWord(m: Means): string {
    match m
    case Unpack(path) => path
    case Remove => REMOVE_WORD
    case Configure => CONFIGURE_WORD
  }

  function WordsOf(a: Action): seq<string> {
    [a.name] + HalfWords(a.before) + [a.direction] + HalfWords(a.after) + [MeansWord(a.means)]
  }

  predicate ProperHalf(h: Half) {
    match h
    case Gone(word) => word == "none" || word == "no"
    case Held(version, architecture, multiArch) =>
      && Version(version) && Architecture(architecture)
      && (multiArch == "none" || multiArch == "no" || multiArch == "same" || multiArch == "foreign"
          || multiArch == "allowed")
  }

  /** The words "none" and "no" mean the same. */
  predicate SameKind(x: string, y: string) { x == y || (x == "none" && y == "no") || (x == "no" && y == "none") }

  /** A package is there before or after, and if both, with the same architecture and kind. */
  predicate Proper(a: Action) {
    && BasePackage(a.name) && (a.direction == "<" || a.direction == "=" || a.direction == ">")
    && ProperHalf(a.before) && ProperHalf(a.after) && !(a.before.Gone? && a.after.Gone?)
    && (a.before.Held? && a.after.Held? ==>
          && a.before.architecture == a.after.architecture && SameKind(a.before.multiArch, a.after.multiArch))
    && (a.means.Unpack? ==> |a.means.path| >= 4 && a.means.path[0] == '/'
                            && a.means.path[|a.means.path| - 4..] == ".deb")
  }

  function HalfVersion(h: Half): string { if h.Gone? then "-" else h.version }

  function EntryOf(a: Action): Entry
    requires Proper(a)
  {
    var architecture := if a.before.Held? then a.before.architecture else a.after.architecture;
    Entry(a.name + ":" + architecture, Transition(HalfVersion(a.before), HalfVersion(a.after), a.direction),
          a.means == Configure)
  }

  lemma MeansDiffer(path: string)
    requires path != "" && path[0] == '/'
    ensures path != CONFIGURE_WORD && path != REMOVE_WORD && CONFIGURE_WORD != REMOVE_WORD
  {
    assert CONFIGURE_WORD[0] == '*' && REMOVE_WORD[0] == '*' && CONFIGURE_WORD[2] == 'C' && REMOVE_WORD[2] == 'R';
  }

  lemma SideOfHalf(h: Half)
    requires ProperHalf(h)
    ensures ParseSide(HalfWords(h)[0], HalfWords(h)[1], HalfWords(h)[2]) ==
      if h.Gone? then Some(Absent)
      else Some(Present(h.architecture, if h.multiArch == "none" then "no" else h.multiArch))
  {
    if h.Held? { assert h.version[0] != '-'; }
  }

  lemma HalfOfSide(version: string, architecture: string, multiArch: string) returns (h: Half)
    requires ParseSide(version, architecture, multiArch).Some?
    ensures ProperHalf(h) && HalfWords(h) == [version, architecture, multiArch]
  {
    h := if version == "-" then Gone(multiArch) else Held(version, architecture, multiArch);
  }

  /** The words of every proper action are read as that action. */
  lemma WordsParse(a: Action)
    requires Proper(a)
    ensures ParseWords(WordsOf(a)) == Some(EntryOf(a))
  {
    SideOfHalf(a.before);
    SideOfHalf(a.after);
    hide ParseSide, BasePackage, Version, Architecture, CONFIGURE_WORD, REMOVE_WORD;
    var w := WordsOf(a);
    assert |w| == 9 && w[0] == a.name && w[4] == a.direction && w[8] == MeansWord(a.means);
    assert w[1..4] == HalfWords(a.before) && w[5..8] == HalfWords(a.after);
    if a.means.Unpack? { MeansDiffer(a.means.path); } else { MeansDiffer("/"); }
  }

  function MeansOf(word: string): Means {
    if word == "**CONFIGURE**" then Configure else if word == "**REMOVE**" then Remove else Unpack(word)
  }

  lemma MeansWordBack(word: string)
    ensures MeansWord(MeansOf(word)) == word
  {
  }

  /** Words are read exactly if they are those of a proper action. */
  lemma ParsedIsProper(w: seq<string>) returns (a: Action)
    requires ParseWords(w).Some?
    ensures Proper(a) && WordsOf(a) == w
  {
    var before := HalfOfSide(w[1], w[2], w[3]);
    var after := HalfOfSide(w[5], w[6], w[7]);
    SideOfHalf(before);
    SideOfHalf(after);
    a := Action(w[0], before, w[4], after, MeansOf(w[8]));
    assert Proper(a) by { hide WordsOf, MeansWord; }
    hide Proper, ParseWords, ParseSide, MeansOf;
    MeansWordBack(w[8]);
    hide MeansWord;
    assert WordsOf(a) == [w[0]] + [w[1], w[2], w[3]] + [w[4]] + [w[5], w[6], w[7]] + [w[8]];
    assert WordsOf(a) == w;
  }

  /** A package line is read exactly as the proper action that its words are. */
  lemma WordsAreActions(w: seq<string>, e: Entry)
    ensures ParseWords(w) == Some(e) <==> exists a: Action :: Proper(a) && WordsOf(a) == w && EntryOf(a) == e
  {
    hide ParseWords, Proper, WordsOf, EntryOf;
    if ParseWords(w).Some? {
      var a := ParsedIsProper(w);
      WordsParse(a);
      assert Proper(a) && WordsOf(a) == w;
    }
    forall a: Action | Proper(a) && WordsOf(a) == w ensures ParseWords(w) == Some(EntryOf(a)) { WordsParse(a); }
  }

  // ---------------------------------------------------------------------------
  // Lines
  // ---------------------------------------------------------------------------

  function NewlineAt(s: string): (n: nat)
    ensures n <= |s|
  {
    if s == "" || s[0] == '\n' then 0 else 1 + NewlineAt(s[1..])
  }

  function TrimCR(s: string): string { if s != "" && s[|s| - 1] == '\r' then s[..|s| - 1] else s }

  datatype Read = Line(line: string, rest: string) | Eof | TooLong

  /** The next line, without its end; the last one may lack it. */
  function ReadLine(s: string): (r: Read)
    ensures r.Line? ==> |r.rest| < |s|
  {
    var n := NewlineAt(s);
    var line := TrimCR(s[..n]);
    if n < |s| then
      if n + 1 > MAX_LINE then TooLong else Line(line, s[n + 1..])
    else if n > MAX_LINE then TooLong
    else if line == "" then Eof
    else Line(line, "")
  }

  lemma {:induction false} NewlineIsFirst(s: string)
    ensures var n := NewlineAt(s); '\n' !in s[..n] && (n < |s| ==> s[n] == '\n')
  {
    if s != "" && s[0] != '\n' {
      NewlineIsFirst(s[1..]);
      var n := NewlineAt(s);
      assert s[..n] == [s[0]] + s[1..][..n - 1];
    }
  }

  lemma TrimmedOnce(raw: string)
    requires '\n' !in raw
    ensures '\n' !in TrimCR(raw) && (raw == TrimCR(raw) || raw == TrimCR(raw) + "\r")
  {
    if raw != "" && raw[|raw| - 1] == '\r' { assert raw == TrimCR(raw) + "\r"; }
  }

  /** A read takes one line off the text: the line, its end in either style, and the rest
      make up the text again. The end of the text is reported only where at most a lone
      carriage return is left, and a refusal only for an over-long first line. */
  lemma ReadLineSplits(s: string)
    ensures match ReadLine(s)
            case Line(line, rest) =>
              && '\n' !in line
              && (s == line + "\n" + rest || s == line + "\r\n" + rest
                  || (rest == "" && (s == line || s == line + "\r")))
            case Eof => s == "" || s == "\r"
            case TooLong => |s| > MAX_LINE && forall i | 0 <= i < MAX_LINE - 1 :: s[i] != '\n'
  {
    hide NewlineAt, TrimCR;
    NewlineIsFirst(s);
    var n := NewlineAt(s);
    var raw, line := s[..n], TrimCR(s[..n]);
    TrimmedOnce(raw);
    assert s == raw + s[n..];
    if n < |s| {
      var rest := s[n + 1..];
      assert s[n..] == "\n" + rest;
      if raw == line {
        assert s == line + "\n" + rest;
      } else {
        assert s == line + "\r\n" + rest;
      }
    }
    assert forall i | 0 <= i < n :: s[i] in raw;
  }

  /** The reader stops one byte after the size limit. */
  function Limited(input: string): string {
    if |input| > MAX_PLAN_BYTES + 1 then input[..MAX_PLAN_BYTES + 1] else input
  }

  predicate ConfigurationLine(line: string) { '=' in line && '\0' !in line }

  /** What follows the empty line that ends the configuration. */
  function AfterConfiguration(s: string): Option<string>
    decreases |s|
  {
    match ReadLine(s)
    case Line(line, rest) =>
      if line == "" then Some(rest)
      else if ConfigurationLine(line) then AfterConfiguration(rest)
      else None
    case _ => None
  }

  /** The package actions, in order. */
  function Entries(s: string): Option<seq<Entry>>
    decreases |s|
  {
    match ReadLine(s)
    case Eof => Some([])
    case TooLong => None
    case Line(line, rest) =>
      if line == "" then Entries(rest)
      else
        var entry := ParseWords(Text.Fields(line));
        var later := Entries(rest);
        if entry.None? || later.None? then None else Some([entry.value] + later.value)
  }

  // ---------------------------------------------------------------------------
  // Which sets of actions make a plan
  // ---------------------------------------------------------------------------

  ghost predicate Archived(es: seq<Entry>, name: Package, t: Transition) { Entry(name, t, false) in es }

  /** No two actions of one kind disagree about a package. */
  ghost predicate Agree(es: seq<Entry>) {
    forall a, b | a in es && b in es && a.name == b.name && a.configure == b.configure :: a.transition == b.transition
  }

  ghost predicate Paired(es: seq<Entry>) {
    forall a | a in es && a.configure :: Archived(es, a.name, a.transition)
  }

  /** The plan that a list of actions describes. */
  ghost predicate Describes(plan: Plan, es: seq<Entry>) {
    && (forall name: Package, t: Transition :: Archived(es, name, t) <==> name in plan && plan[name] == t)
    && (forall a | a in es && a.configure :: a.name in plan && plan[a.name] == a.transition)
  }

  /** The whole text reads as this plan. */
  ghost predicate Reads(s: string, plan: Plan) {
    && ReadLine(s).Line? && ReadLine(s).line == "VERSION 3"
    && AfterConfiguration(ReadLine(s).rest).Some?
    && var es := Entries(AfterConfiguration(ReadLine(s).rest).value);
    && es.Some? && Describes(plan, es.value) && 1 <= |plan| <= MAX_ENTRIES
  }

  ghost predicate Accepted(input: string, plan: Plan) { Reads(Limited(input), plan) }

  /** A plan is determined by the set of its actions. */
  lemma DescribesOne(p: Plan, q: Plan, es: seq<Entry>)
    requires Describes(p, es) && Describes(q, es)
    ensures p == q
  {
    forall name: Package ensures name in p <==> name in q {
      if name in p { assert Archived(es, name, p[name]); }
      if name in q { assert Archived(es, name, q[name]); }
    }
    forall name: Package | name in p ensures p[name] == q[name] {
      assert Archived(es, name, p[name]);
    }
  }

  /** The two maps the parser fills after reading `es`. */
  ghost predicate Collected(es: seq<Entry>, plan: Plan, configured: Plan) {
    && Agree(es)
    && (forall name: Package, t: Transition :: Entry(name, t, false) in es <==> name in plan && plan[name] == t)
    && (forall name: Package, t: Transition ::
          Entry(name, t, true) in es <==> name in configured && configured[name] == t)
  }

  lemma CollectMore(es: seq<Entry>, plan: Plan, configured: Plan, e: Entry)
    requires Collected(es, plan, configured)
    ensures e.configure && (e.name in configured ==> configured[e.name] == e.transition) ==>
      Collected(es + [e], plan, configured[e.name := e.transition])
    ensures !e.configure && (e.name in plan ==> plan[e.name] == e.transition) ==>
      Collected(es + [e], plan[e.name := e.transition], configured)
  {
    assert forall x: Entry :: x in es + [e] <==> x in es || x == e;
    forall a, b | a in es + [e] && b in es + [e] && a.name == b.name && a.configure == b.configure
      ensures a.transition == b.transition ||
        !((e.configure ==> e.name in configured ==> configured[e.name] == e.transition)
          && (!e.configure ==> e.name in plan ==> plan[e.name] == e.transition))
    {
      assert Entry(a.name, a.transition, a.configure) == a && Entry(b.name, b.transition, b.configure) == b;
    }
  }

  /** A disagreement among the lines read so far settles that no plan fits. */
  lemma NoPlanAfterConflict(es: seq<Entry>, plan: Plan, configured: Plan, e: Entry, later: seq<Entry>, q: Plan)
    requires Collected(es, plan, configured)
    requires if e.configure then e.name in configured && configured[e.name] != e.transition
             else e.name in plan && plan[e.name] != e.transition
    ensures !Describes(q, es + [e] + later)
  {
    var all := es + [e] + later;
    var other := Entry(e.name, if e.configure then configured[e.name] else plan[e.name], e.configure);
    assert other in es && other in all && e in all;
    if Describes(q, all) {
      assert e.configure || (Archived(all, e.name, e.transition) && Archived(all, e.name, other.transition));
    }
  }

  lemma PlanOfCollected(es: seq<Entry>, plan: Plan, configured: Plan)
    requires Collected(es, plan, configured)
    ensures Describes(plan, es) <==> forall name | name in configured :: name in plan && plan[name] == configured[name]
    ensures forall q | Describes(q, es) :: q == plan
  {
    if forall name | name in configured :: name in plan && plan[name] == configured[name] {
      forall a | a in es && a.configure ensures a.name in plan && plan[a.name] == a.transition {
        assert a == Entry(a.name, a.transition, true);
      }
    } else {
      var name :| name in configured && !(name in plan && plan[name] == configured[name]);
      assert Entry(name, configured[name], true) in es;
    }
    forall q | Describes(q, es) ensures q == plan {
      forall name: Package ensures name in q <==> name in plan {
        if name in q { assert Archived(es, name, q[name]); }
        if name in plan { assert Archived(es, name, plan[name]); }
      }
      forall name | name in q ensures q[name] == plan[name] {
        assert Archived(es, name, q[name]);
      }
    }
  }

  lemma Larger(p: Plan, q: Plan)
    requires forall name | name in p :: name in q
    ensures |p| <= |q|
  {
    SubsetSize(p.Keys, q.Keys);
  }

  lemma GrownPlanIsTooLarge(es: seq<Entry>, plan: Plan, configured: Plan, later: seq<Entry>, q: Plan)
    requires Collected(es, plan, configured) && Describes(q, es + later)
    ensures |plan| <= |q|
  {
    forall name | name in plan ensures name in q {
      assert Entry(name, plan[name], false) in es;
      assert Archived(es + later, name, plan[name]);
    }
    Larger(plan, q);
  }

  // ---------------------------------------------------------------------------
  // The parser
  // ---------------------------------------------------------------------------

  method SkipConfiguration(s: string) returns (r: Option<string>)
    ensures r == AfterConfiguration(s)
  {
    var rest := s;
    while true
      invariant AfterConfiguration(rest) == AfterConfiguration(s)
      decreases |rest|
    {
      var read := ReadLine(rest);
      if !read.Line? { return None; }
      if read.line == "" { return Some(read.rest); }
      if '=' !in read.line || '\0' in read.line { return None; }
      rest := read.rest;
    }
  }

  /** How the actions of a text split around a position in it. */
  ghost predicate SoFar(s: string, seen: seq<Entry>, rest: string) {
    Entries(s) == if Entries(rest).None? then None else Some(seen + Entries(rest).value)
  }

  lemma {:induction false} ReadOneMore(s: string, seen: seq<Entry>, rest: string)
    requires SoFar(s, seen, rest) && ReadLine(rest).Line?
    ensures ReadLine(rest).line == "" ==> SoFar(s, seen, ReadLine(rest).rest)
    ensures ReadLine(rest).line != "" && ParseWords(Text.Fields(ReadLine(rest).line)).None? ==> Entries(s) == None
    ensures var parsed := ParseWords(Text.Fields(ReadLine(rest).line));
            ReadLine(rest).line != "" && parsed.Some? ==> SoFar(s, seen + [parsed.value], ReadLine(rest).rest)
  {
    hide ParseWords, Text.Fields, ReadLine;
    var parsed := ParseWords(Text.Fields(ReadLine(rest).line));
    var later := Entries(ReadLine(rest).rest);
    if parsed.Some? && later.Some? {
      assert seen + ([parsed.value] + later.value) == (seen + [parsed.value]) + later.value;
    }
  }

  lemma StartCollecting(s: string)
    ensures SoFar(s, [], s) && Collected([], map[], map[])
  {
    if Entries(s).Some? { assert [] + Entries(s).value == Entries(s).value; }
  }

  lemma LastRead(rest: string)
    ensures ReadLine(rest).Eof? ==> Entries(rest) == Some([])
    ensures ReadLine(rest).TooLong? ==> Entries(rest) == None
  {
  }

  lemma Conflict(s: string, seen: seq<Entry>, plan: Plan, configured: Plan, e: Entry, rest: string)
    requires SoFar(s, seen + [e], rest) && Collected(seen, plan, configured)
    requires if e.configure then e.name in configured && configured[e.name] != e.transition
             else e.name in plan && plan[e.name] != e.transition
    ensures Entries(s).Some? ==> forall q :: !Describes(q, Entries(s).value)
  {
    hide Entries, Describes, Collected;
    if Entries(s).Some? {
      forall q ensures !Describes(q, Entries(s).value) {
        NoPlanAfterConflict(seen, plan, configured, e, Entries(rest).value, q);
      }
    }
  }

  lemma TooMany(s: string, seen: seq<Entry>, plan: Plan, configured: Plan, rest: string)
    requires SoFar(s, seen, rest) && Collected(seen, plan, configured)
    ensures Entries(s).Some? ==> forall q | Describes(q, Entries(s).value) :: |plan| <= |q|
  {
    hide Entries, Describes, Collected;
    if Entries(s).Some? {
      forall q | Describes(q, Entries(s).value) ensures |plan| <= |q| {
        GrownPlanIsTooLarge(seen, plan, configured, Entries(rest).value, q);
      }
    }
  }

  method CollectActions(s: string) returns (r: Option<Plan>)
    ensures r.Some? ==> Entries(s).Some? && Describes(r.value, Entries(s).value) && 1 <= |r.value| <= MAX_ENTRIES
    ensures r.None? && Entries(s).Some? ==> forall q | Describes(q, Entries(s).value) :: !(1 <= |q| <= MAX_ENTRIES)
  {
    hide ParseWords, ReadLine, Text.Fields, Entries, Describes, Collected;
    var plan: Plan, configured: Plan := map[], map[];
    var rest := s;
    ghost var seen: seq<Entry> := [];
    StartCollecting(s);
    while true
      invariant SoFar(s, seen, rest) && Collected(seen, plan, configured) && |plan| <= MAX_ENTRIES
      decreases |rest|
    {
      var read := ReadLine(rest);
      LastRead(rest);
      if read.Eof? { break; }
      if read.TooLong? { return None; }
      ReadOneMore(s, seen, rest);
      rest := read.rest;
      if read.line == "" { continue; }
      var entry := ParseWords(Text.Fields(read.line));
      if entry.None? { return None; }
      CollectMore(seen, plan, configured, entry.value);
      if entry.value.configure {
        if entry.value.name in configured && configured[entry.value.name] != entry.value.transition {
          Conflict(s, seen, plan, configured, entry.value, rest);
          return None;
        }
        configured := configured[entry.value.name := entry.value.transition];
      } else {
        if entry.value.name in plan && plan[entry.value.name] != entry.value.transition {
          Conflict(s, seen, plan, configured, entry.value, rest);
          return None;
        }
        plan := plan[entry.value.name := entry.value.transition];
        if |plan| > MAX_ENTRIES {
          TooMany(s, seen + [entry.value], plan, configured, rest);
          return None;
        }
      }
      seen := seen + [entry.value];
    }
    assert Entries(s) == Some(seen) by { assert seen + [] == seen; }
    PlanOfCollected(seen, plan, configured);
    var left := configured.Keys;
    while left != {}
      invariant left <= configured.Keys
      invariant forall name | name in configured && name !in left :: name in plan && plan[name] == configured[name]
      decreases left
    {
      var name :| name in left;
      if name !in plan || plan[name] != configured[name] { return None; }
      left := left - {name};
    }
    if |plan| == 0 { return None; }
    r := Some(plan);
  }

  method ParseVersion3Plan(input: string) returns (r: Option<Plan>)
    ensures r.Some? ==> Accepted(input, r.value)
    ensures r.None? ==> forall plan :: !Accepted(input, plan)
  {
    var s := Limited(input);
    var read := ReadLine(s);
    if !read.Line? || read.line != "VERSION 3" { return None; }
    var rest := SkipConfiguration(read.rest);
    if rest.None? { return None; }
    r := CollectActions(rest.value);
  }

  // ---------------------------------------------------------------------------
  // Printing, and reading back
  // ---------------------------------------------------------------------------

  function JoinWords(w: seq<string>): string
    requires w != []
  {
    if |w| == 1 then w[0] else w[0] + (" " + JoinWords(w[1..]))
  }

  function Block(lines: seq<string>): string {
    if lines == [] then "" else lines[0] + "\n" + Block(lines[1..])
  }

  /** A proper action whose path, if any, has no space, and whose line keeps the bound. */
  predicate Printable(a: Action) {
    && Proper(a) && (forall c | c in MeansWord(a.means) :: !Text.Space(c))
    && |JoinWords(WordsOf(a))| < MAX_LINE
  }

  predicate AllPrintable(items: seq<Action>) {
    forall i | 0 <= i < |items| :: Printable(items[i])
  }

  predicate PrintableOption(line: string) {
    ConfigurationLine(line) && '\n' !in line && line[|line| - 1] != '\r' && |line| < MAX_LINE
  }

  function PackageLines(items: seq<Action>): seq<string>
    requires AllPrintable(items)
  {
    seq(|items|, i requires 0 <= i < |items| => JoinWords(WordsOf(items[i])))
  }

  function EntriesOf(items: seq<Action>): seq<Entry>
    requires AllPrintable(items)
  {
    seq(|items|, i requires 0 <= i < |items| => EntryOf(items[i]))
  }

  function Print(options: seq<string>, items: seq<Action>): string
    requires AllPrintable(items)
  {
    "VERSION 3\n" + (Block(options) + ("\n" + Block(PackageLines(items))))
  }

  predicate IsWord(s: string) { s != "" && forall c | c in s :: !Text.Space(c) }

  lemma PatternsAreWords(s: string)
    ensures BasePackage(s) || Architecture(s) || Version(s) ==> IsWord(s)
  {
    if BasePackage(s) || Architecture(s) || Version(s) {
      forall c | c in s ensures !Text.Space(c) {
        var i :| 0 <= i < |s| && s[i] == c;
      }
    }
  }

  lemma SideWords(version: string, architecture: string, multiArch: string)
    requires ParseSide(version, architecture, multiArch).Some?
    ensures IsWord(version) && IsWord(architecture) && IsWord(multiArch)
  {
    PatternsAreWords(version);
    PatternsAreWords(architecture);
  }

  lemma {:induction false} PrintableWords(a: Action)
    requires Printable(a)
    ensures |WordsOf(a)| == 9 && forall i | 0 <= i < 9 :: IsWord(WordsOf(a)[i])
    ensures ParseWords(WordsOf(a)) == Some(EntryOf(a))
  {
    var w := WordsOf(a);
    WordsParse(a);
    PatternsAreWords(w[0]);
    SideWords(w[1], w[2], w[3]);
    SideWords(w[5], w[6], w[7]);
  }

  lemma {:induction false} FieldsOfJoin(w: seq<string>)
    requires w != [] && forall i | 0 <= i < |w| :: IsWord(w[i])
    ensures Text.Fields(JoinWords(w)) == w
    ensures '\n' !in JoinWords(w) && JoinWords(w) != "" && !Text.Space(JoinWords(w)[|JoinWords(w)| - 1])
  {
    if |w| == 1 {
      Text.Word(w[0], "");
      assert w[0] + "" == w[0];
      assert w[0][|w[0]| - 1] in w[0];
    } else {
      var rest := JoinWords(w[1..]);
      FieldsOfJoin(w[1..]);
      Text.Word(w[0], " " + rest);
      assert (" " + rest)[1..] == rest;
      assert JoinWords(w)[|JoinWords(w)| - 1] == rest[|rest| - 1];
    }
  }

  lemma {:induction false} NewlineAfter(line: string, rest: string)
    requires '\n' !in line
    ensures NewlineAt(line + "\n" + rest) == |line|
  {
    var s := line + "\n" + rest;
    if line != "" {
      assert s[0] == line[0] && line[0] in line;
      assert s[1..] == line[1..] + "\n" + rest;
      NewlineAfter(line[1..], rest);
    }
  }

  lemma ReadWholeLine(line: string, rest: string)
    requires '\n' !in line && |line| < MAX_LINE && (line != "" ==> line[|line| - 1] != '\r')
    ensures ReadLine(line + "\n" + rest) == Line(line, rest)
  {
    NewlineAfter(line, rest);
    var s := line + "\n" + rest;
    assert s[..|line|] == line && s[|line| + 1..] == rest;
  }

  lemma ReadNothing()
    ensures ReadLine("") == Eof
  {
  }

  lemma {:induction false} ReadOptions(options: seq<string>, rest: string)
    requires forall o | o in options :: PrintableOption(o)
    ensures AfterConfiguration(Block(options) + ("\n" + rest)) == Some(rest)
  {
    if options == [] {
      ReadWholeLine("", rest);
      assert "" + "\n" + rest == Block(options) + ("\n" + rest);
    } else {
      var later := Block(options[1..]) + ("\n" + rest);
      assert PrintableOption(options[0]);
      ReadWholeLine(options[0], later);
      assert options[0] + "\n" + later == Block(options) + ("\n" + rest);
      ReadOptions(options[1..], rest);
    }
  }

  lemma {:induction false} ReadActions(items: seq<Action>, rest: string)
    requires AllPrintable(items)
    ensures Entries(Block(PackageLines(items)) + rest) ==
            if Entries(rest).None? then None else Some(EntriesOf(items) + Entries(rest).value)
  {
    hide ParseWords, ReadLine, Text.Fields, WordsOf, EntryOf, Proper, MeansWord;
    if items == [] {
      assert Block(PackageLines(items)) + rest == rest;
      assert Entries(rest).Some? ==> [] + Entries(rest).value == Entries(rest).value;
    } else {
      assert Printable(items[0]);
      PrintableWords(items[0]);
      var line, later := JoinWords(WordsOf(items[0])), PackageLines(items[1..]);
      FieldsOfJoin(WordsOf(items[0]));
      assert PackageLines(items) == [line] + later;
      assert Block(PackageLines(items)) + rest == line + "\n" + (Block(later) + rest);
      ReadWholeLine(line, Block(later) + rest);
      ReadActions(items[1..], rest);
      var first, es := EntryOf(items[0]), EntriesOf(items[1..]);
      assert EntriesOf(items) == [first] + es;
      assert Entries(rest).Some? ==> [first] + (es + Entries(rest).value) == [first] + es + Entries(rest).value;
    }
  }

  lemma ReadPrinted(options: seq<string>, items: seq<Action>, rest: string, plan: Plan)
    requires forall o | o in options :: PrintableOption(o)
    requires AllPrintable(items)
    ensures Reads(Print(options, items) + rest, plan) <==>
      Entries(rest).Some? && Describes(plan, EntriesOf(items) + Entries(rest).value) && 1 <= |plan| <= MAX_ENTRIES
  {
    hide Describes, ParseWords, ReadLine, Entries;
    var body := Block(PackageLines(items)) + rest;
    ReadWholeLine("VERSION 3", Block(options) + ("\n" + body));
    assert "VERSION 3" + "\n" + (Block(options) + ("\n" + body)) == Print(options, items) + rest;
    ReadOptions(options, body);
    ReadActions(items, rest);
  }

  /** The parser undoes printing, in whatever order and however often the actions of the
      plan are printed; and it accepts a printed list only when that list is a plan:
      without its archive action a configure action is refused, and so are two actions
      that disagree. */
  lemma PrintThenParse(options: seq<string>, items: seq<Action>, plan: Plan)
    requires forall o | o in options :: PrintableOption(o)
    requires AllPrintable(items)
    requires |Print(options, items)| <= MAX_PLAN_BYTES + 1
    ensures Accepted(Print(options, items), plan) <==> Describes(plan, EntriesOf(items)) && 1 <= |plan| <= MAX_ENTRIES
  {
    hide Describes;
    ReadPrinted(options, items, "", plan);
    ReadNothing();
    LastRead("");
    assert Print(options, items) + "" == Print(options, items) && EntriesOf(items) + [] == EntriesOf(items);
  }

  /** Order and repetition do not matter: only the set of actions does. */
  lemma OnlyTheSetMatters(es: seq<Entry>, es': seq<Entry>, plan: Plan)
    requires forall e: Entry :: e in es <==> e in es'
    ensures Describes(plan, es) <==> Describes(plan, es')
  {
    assert forall name: Package, t: Transition :: Archived(es, name, t) <==> Archived(es', name, t);
    assert forall e | e in es :: e in es';
    assert forall e | e in es' :: e in es;
  }

  // ---------------------------------------------------------------------------
  // Input beyond the limit
  // ---------------------------------------------------------------------------

  function Blanks(k: nat): (s: string)
    ensures |s| == k
  {
    if k == 0 then "" else "\n" + Blanks(k - 1)
  }

  lemma {:induction false} SkipBlanks(k: nat, rest: string)
    ensures Entries(Blanks(k) + rest) == Entries(rest)
  {
    if k == 0 {
      assert Blanks(k) + rest == rest;
    } else {
      ReadWholeLine("", Blanks(k - 1) + rest);
      assert "" + "\n" + (Blanks(k - 1) + rest) == Blanks(k) + rest;
      SkipBlanks(k - 1, rest);
    }
  }

  /** The printed plan, filled up with empty lines to the last byte that is read. */
  function Padded(options: seq<string>, items: seq<Action>): (s: string)
    requires AllPrintable(items) && |Print(options, items)| <= MAX_PLAN_BYTES + 1
    ensures |s| == MAX_PLAN_BYTES + 1
  {
    Print(options, items) + Blanks(MAX_PLAN_BYTES + 1 - |Print(options, items)|)
  }

  lemma ReadPadded(options: seq<string>, items: seq<Action>, tail: string, plan: Plan)
    requires forall o | o in options :: PrintableOption(o)
    requires AllPrintable(items) && |Print(options, items)| <= MAX_PLAN_BYTES + 1
    ensures Reads(Padded(options, items) + tail, plan) <==>
      Entries(tail).Some? && Describes(plan, EntriesOf(items) + Entries(tail).value) && 1 <= |plan| <= MAX_ENTRIES
  {
    hide Describes, Entries, Reads;
    var text, blanks := Print(options, items), Blanks(MAX_PLAN_BYTES + 1 - |Print(options, items)|);
    assert text + blanks + tail == text + (blanks + tail);
    ReadPrinted(options, items, blanks + tail, plan);
    SkipBlanks(|blanks|, tail);
  }

  /** A plan filled up to the limit is accepted whatever follows it: another package, or
      nonsense. */
  lemma TailIsIgnored(options: seq<string>, items: seq<Action>, tail: string, plan: Plan)
    requires forall o | o in options :: PrintableOption(o)
    requires AllPrintable(items) && |Print(options, items)| <= MAX_PLAN_BYTES + 1
    requires Describes(plan, EntriesOf(items)) && 1 <= |plan| <= MAX_ENTRIES
    ensures Accepted(Padded(options, items) + tail, plan)
  {
    hide Describes, Entries, Reads;
    var s := Padded(options, items);
    ReadPadded(options, items, "", plan);
    ReadNothing();
    LastRead("");
    assert s + "" == s && EntriesOf(items) + [] == EntriesOf(items);
    if tail == "" { assert s + tail == s; } else { assert (s + tail)[..MAX_PLAN_BYTES + 1] == s; }
  }

  const SAMPLE: Action := Action("a", Held("1", "all", "no"), "<", Held("2", "all", "no"), Unpack("/a.deb"))

  lemma SampleIsProper()
    ensures Proper(SAMPLE) && EntryOf(SAMPLE) == Entry("a:all", Transition("1", "2", "<"), false)
    ensures WordsOf(SAMPLE) == ["a", "1", "all", "no", "<", "2", "all", "no", "/a.deb"]
    ensures forall c | c in MeansWord(SAMPLE.means) :: !Text.Space(c)
  {
    assert BasePackage("a") && Version("1") && Version("2") && Architecture("all");
    assert "/a.deb"[2..] == ".deb" && "a" + ":" + "all" == "a:all";
  }

  lemma SampleIsPrintable()
    ensures Printable(SAMPLE) && |Print([], [SAMPLE])| <= MAX_PLAN_BYTES
    ensures AllPrintable([SAMPLE]) && EntriesOf([SAMPLE]) == [Entry("a:all", Transition("1", "2", "<"), false)]
  {
    SampleIsProper();
    hide Proper, EntryOf, WordsOf, MeansWord, SAMPLE;
    var w := WordsOf(SAMPLE);
    SampleLength(w);
    hide JoinWords;
    assert PackageLines([SAMPLE]) == [JoinWords(w)];
    assert Block(PackageLines([SAMPLE])) == JoinWords(w) + "\n" + Block([]);
    assert EntriesOf([SAMPLE]) == [EntryOf(SAMPLE)];
  }

  lemma SampleLength(w: seq<string>)
    requires w == ["a", "1", "all", "no", "<", "2", "all", "no", "/a.deb"]
    ensures |JoinWords(w)| == 28
  {
    assert |JoinWords(w[8..])| == 6;
    assert |JoinWords(w[7..])| == 9;
    assert |JoinWords(w[6..])| == 13;
    assert |JoinWords(w[5..])| == 15;
    assert |JoinWords(w[4..])| == 17;
    assert |JoinWords(w[3..])| == 20;
    assert |JoinWords(w[2..])| == 24;
    assert |JoinWords(w[1..])| == 26;
  }

  lemma NonsenseIsRefused()
    ensures Entries("x") == None
  {
    Text.Word("x", "");
    assert "x" + "" == "x";
    NewlineAfter("x", "");
    assert NewlineAt("x") == 1;
    assert ReadLine("x") == Line("x", "");
  }

  /** What is read agrees with what was sent, for every input up to some length, exactly
      when that length is within the limit. */
  lemma LimitIsExact(n: nat)
    ensures (forall input, plan | |input| <= n :: Accepted(input, plan) <==> Reads(input, plan)) <==>
      n <= MAX_PLAN_BYTES + 1
  {
    hide Describes, Entries, Reads;
    if n > MAX_PLAN_BYTES + 1 {
      SampleIsPrintable();
      var entry := EntriesOf([SAMPLE])[0];
      var plan: Plan := map[entry.name := entry.transition];
      SampleDescribed(entry, plan);
      TailIsIgnored([], [SAMPLE], "x", plan);
      ReadPadded([], [SAMPLE], "x", plan);
      NonsenseIsRefused();
      var input := Padded([], [SAMPLE]) + "x";
      assert |input| <= n && Accepted(input, plan) && !Reads(input, plan);
    }
  }

  lemma SampleDescribed(entry: Entry, plan: Plan)
    requires !entry.configure && plan == map[entry.name := entry.transition]
    ensures Describes(plan, [entry]) && |plan| == 1
  {
  }

  // ---------------------------------------------------------------------------
  // What the guard allows
  // ---------------------------------------------------------------------------

  type Inventory = map<Package, string>

  datatype Spec =
    | ApplySpec(installed: Inventory, authorized: Inventory)
    | RollbackSpec(transitions: Plan)

  predicate CanonicalPackage(name: Package) {
    exists i {:trigger name[i]} ::
      0 <= i < |name| && name[i] == ':' && BasePackage(name[..i]) && Architecture(name[i + 1..])
  }

  predicate ValidVersions(v: Inventory) {
    && 1 <= |v| <= 20_000
    && forall name | name in v :: CanonicalPackage(name) && Version(v[name])
  }

  predicate ValidTransitions(p: Plan) {
    forall name | name in p ::
      && CanonicalPackage(name) && Version(p[name].from) && Version(p[name].to)
      && p[name].from != p[name].to && p[name].direction in {"<", ">"}
  }

  predicate ValidSpec(spec: Spec) {
    match spec
    case ApplySpec(installed, authorized) =>
      && ValidVersions(installed) && ValidVersions(authorized) && |authorized| <= 64
      && forall name | name in authorized :: name in installed && installed[name] == authorized[name]
    case RollbackSpec(transitions) => 1 <= |transitions| <= MAX_ENTRIES && ValidTransitions(transitions)
  }

  /** Only upgrades of authorized packages from their recorded versions, or only the
      recorded downgrades. */
  predicate Allowed(spec: Spec, plan: Plan) {
    match spec
    case ApplySpec(installed, authorized) =>
      forall name | name in plan ::
        var t := plan[name];
        && name in authorized && name in installed && t.from != "-" && t.to != "-"
        && t.from == installed[name] == authorized[name] && t.from != t.to && t.direction == "<"
    case RollbackSpec(transitions) =>
      forall name | name in plan ::
        var t := plan[name];
        && name in transitions && t == transitions[name]
        && t.from != "-" && t.to != "-" && t.from != t.to && t.direction == ">"
  }

  /** Cut the name at its first colon. */
  method IsCanonicalPackage(name: Package) returns (ok: bool)
    ensures ok <==> CanonicalPackage(name)
  {
    hide BasePackage, Architecture;
    var i := 0;
    while i < |name| && name[i] != ':'
      invariant i <= |name| && forall k | 0 <= k < i :: name[k] != ':'
    {
      i := i + 1;
    }
    if i == |name| { return false; }
    forall k | i < k < |name| && BasePackage(name[..k]) ensures name[..k][i] != ':' { NoColon(name[..k], i); }
    return BasePackage(name[..i]) && Architecture(name[i + 1..]);
  }

  lemma NoColon(s: string, i: nat)
    requires BasePackage(s) && i < |s|
    ensures s[i] != ':'
  {
  }

  method ValidVersionMap(v: Inventory) returns (ok: bool)
    ensures ok <==> ValidVersions(v)
  {
    hide CanonicalPackage, Version;
    if |v| == 0 || |v| > 20_000 { return false; }
    var left := v.Keys;
    while left != {}
      invariant left <= v.Keys && forall name | name in v && name !in left :: CanonicalPackage(name) && Version(v[name])
      decreases left
    {
      var name :| name in left;
      left := left - {name};
      var canonical := IsCanonicalPackage(name);
      if !canonical || !Version(v[name]) { return false; }
    }
    return true;
  }

  method ValidTransitionMap(p: Plan) returns (ok: bool)
    ensures ok <==> ValidTransitions(p)
  {
    hide CanonicalPackage, Version;
    var left := p.Keys;
    while left != {}
      invariant left <= p.Keys
      invariant forall name | name in p && name !in left ::
        && CanonicalPackage(name) && Version(p[name].from) && Version(p[name].to)
        && p[name].from != p[name].to && (p[name].direction == "<" || p[name].direction == ">")
      decreases left
    {
      var name :| name in left;
      left := left - {name};
      var t := p[name];
      var canonical := IsCanonicalPackage(name);
      if !canonical || !Version(t.from) || !Version(t.to) { return false; }
      if t.from == t.to || (t.direction != "<" && t.direction != ">") { return false; }
    }
    return true;
  }

  /** Whether a transaction may be prepared for the guard at all. */
  method ValidateSpec(spec: Spec) returns (ok: bool)
    ensures ok <==> ValidSpec(spec)
  {
    hide ValidVersions, ValidTransitions;
    match spec {
      case ApplySpec(installed, authorized) =>
        ok := ValidVersionMap(installed);
        if !ok { return; }
        ok := ValidVersionMap(authorized);
        if !ok || |authorized| > 64 { return false; }
        var left := authorized.Keys;
        while left != {}
          invariant left <= authorized.Keys
          invariant forall name | name in authorized && name !in left ::
            name in installed && installed[name] == authorized[name]
          decreases left
        {
          var name :| name in left;
          left := left - {name};
          if name !in installed || installed[name] != authorized[name] { return false; }
        }
        return true;
      case RollbackSpec(transitions) =>
        if |transitions| == 0 || |transitions| > MAX_ENTRIES { return false; }
        ok := ValidTransitionMap(transitions);
    }
  }

  /** The guard's judgement of a locked plan, package by package. */
  method ValidateLockedPlan(spec: Spec, plan: Plan) returns (ok: bool)
    ensures ok <==> Allowed(spec, plan)
  {
    var left := plan.Keys;
    while left != {}
      invariant left <= plan.Keys
      invariant Allowed(spec, map name | name in plan && name !in left :: plan[name])
      decreases left
    {
      var name :| name in left;
      left := left - {name};
      var t := plan[name];
      match spec {
        case ApplySpec(installed, authorized) =>
          if name !in authorized { return false; }
          if name !in installed || t.from == "-" || t.to == "-" { return false; }
          if t.from != installed[name] || t.from != authorized[name] { return false; }
          if t.from == t.to || t.direction != "<" { return false; }
        case RollbackSpec(transitions) =>
          if name !in transitions { return false; }
          if t != transitions[name] { return false; }
          if t.from == "-" || t.to == "-" || t.from == t.to || t.direction != ">" { return false; }
      }
    }
    assert (map name | name in plan && name !in left :: plan[name]) == plan;
    return true;
  }
}
