/**
 The authentication-log watcher. It reads a growing file through a bounded window,
 fragment by fragment, and remembers only an offset and whether it is in the middle of
 throwing an oversized line away. What it reports must be what a plain line splitter
 over the whole file would report.
 */
module AuthLog {
  import opened Prelude

  const MAX_READ: nat := 4 * 1024 * 1024
  const MAX_LINE: nat := 256 * 1024
  const MAX_EVENTS: nat := 500
  const BUFFER: nat := 64 * 1024
  const MAX_GENERATION: nat := 0xFFFF_FFFF_FFFF_FFFF

  /** Finds the source address of a failed login; None when the line is not one. */
  type Matcher = string -> Option<string>

  /** A file identity together with the local count of rotations and truncations. */
  datatype Source = Source(device: nat, inode: nat, generation: nat)

  datatype Kind = Failure(line: string, address: string) | Oversized

  /** Exactly the values hashed into an event identifier. */
  datatype Event = Event(source: Source, offset: nat, kind: Kind)

  datatype Checkpoint = Checkpoint(source: Source, offset: nat, discarding: bool)

  datatype LogFile = LogFile(device: nat, inode: nat, content: string)

  // ---------------------------------------------------------------------------
  // The plain line splitter
  // ---------------------------------------------------------------------------

  predicate EndsLine(s: string) { s != "" && s[|s| - 1] == '\n' }

  predicate AtLineStart(s: string) { s == "" || EndsLine(s) }

  /** Nothing before the last character ends a line. */
  predicate SingleLine(s: string) { forall i | 0 <= i < |s| - 1 :: s[i] != '\n' }

  /** The length of the first line, its newline included. */
  function FirstLine(s: string): (n: nat)
    requires s != ""
    ensures 0 < n <= |s|
  {
    if s[0] == '\n' || |s| == 1 then 1 else 1 + FirstLine(s[1..])
  }

  lemma {:induction false} FirstLineEnds(s: string)
    requires s != ""
    ensures var n := FirstLine(s); SingleLine(s[..n]) && (n < |s| ==> EndsLine(s[..n]))
  {
    if s[0] != '\n' && |s| > 1 {
      FirstLineEnds(s[1..]);
      var n := FirstLine(s);
      assert forall i | 0 < i < n :: s[..n][i] == s[1..][..n - 1][i - 1];
    }
  }

  function Text(line: string): string {
    var t := if EndsLine(line) then line[..|line| - 1] else line;
    if t != "" && t[|t| - 1] == '\r' then t[..|t| - 1] else t
  }

  /** The text of a line is what stands before its line end, in either style. */
  lemma TextOfLine(body: string)
    requires body == "" || body[|body| - 1] !in "\r\n"
    ensures Text(body) == body && Text(body + "\n") == body && Text(body + "\r\n") == body
    ensures Text(body + "\r" + "\r\n") == body + "\r"
  {
    var lf, crlf, two := body + "\n", body + "\r\n", body + "\r" + "\r\n";
    assert lf[..|body|] == body && crlf[..|body|] == body;
    assert crlf[..|body| + 1] == body + "\r" && two[..|two| - 1] == body + "\r" + "\r";
  }

  /** What one line, complete or still growing, contributes. */
  function LineEvent(find: Matcher, source: Source, start: nat, line: string): seq<Event> {
    if |line| > MAX_LINE then [Event(source, start, Oversized)]
    else if EndsLine(line) && find(Text(line)).Some? then
      [Event(source, start, Failure(Text(line), find(Text(line)).value))]
    else []
  }

  /** Split into lines, one after the other, and report each. */
  function LineEvents(find: Matcher, source: Source, start: nat, s: string): seq<Event>
    decreases |s|
  {
    if s == "" then []
    else
      var n := FirstLine(s);
      LineEvent(find, source, start, s[..n]) + LineEvents(find, source, start + n, s[n..])
  }

  lemma FirstLineOfSingle(s: string, rest: string)
    requires s != "" && SingleLine(s) && (rest != "" ==> EndsLine(s))
    ensures FirstLine(s + rest) == |s|
  {
    var n := FirstLine(s + rest);
    FirstLineEnds(s + rest);
    var t := (s + rest)[..n];
    assert forall i | 0 <= i < n && i < |s| :: t[i] == s[i];
  }

  lemma EventsOfSingleLine(find: Matcher, source: Source, start: nat, line: string)
    requires line != "" && SingleLine(line)
    ensures LineEvents(find, source, start, line) == LineEvent(find, source, start, line)
  {
    FirstLineOfSingle(line, "");
    assert line + "" == line && line[..|line|] == line && line[|line|..] == "";
  }

  lemma FirstLineOfAppend(a: string, b: string)
    requires a != "" && AtLineStart(a)
    ensures var n := FirstLine(a);
            && FirstLine(a + b) == n && AtLineStart(a[n..])
            && (a + b)[..n] == a[..n] && (a + b)[n..] == a[n..] + b
  {
    var n := FirstLine(a);
    FirstLineEnds(a);
    var line := a[..n];
    if n < |a| {
      assert a[n..][|a| - n - 1] == a[|a| - 1];
    } else {
      assert line == a;
    }
    assert a + b == line + (a[n..] + b);
    FirstLineOfSingle(line, a[n..] + b);
  }

  lemma EventsUnfold(find: Matcher, source: Source, start: nat, s: string)
    ensures s == "" ==> LineEvents(find, source, start, s) == []
    ensures s != "" ==>
      var n := FirstLine(s);
      LineEvents(find, source, start, s)
        == LineEvent(find, source, start, s[..n]) + LineEvents(find, source, start + n, s[n..])
  {
  }

  /** Splitting may resume at any line start. */
  lemma {:induction false} EventsAppend(find: Matcher, source: Source, start: nat, a: string, b: string)
    requires AtLineStart(a)
    ensures LineEvents(find, source, start, a + b)
         == LineEvents(find, source, start, a) + LineEvents(find, source, start + |a|, b)
    decreases |a|
  {
    hide *;
    EventsUnfold(find, source, start, a);
    if a == "" {
      assert a + b == b;
    } else {
      var n := FirstLine(a);
      FirstLineOfAppend(a, b);
      EventsUnfold(find, source, start, a + b);
      EventsAppend(find, source, start + n, a[n..], b);
    }
  }

  /** Offsets strictly increase, so identifiers within a generation are distinct. */
  lemma {:induction false} EventsAreDistinct(find: Matcher, source: Source, start: nat, s: string)
    ensures forall e | e in LineEvents(find, source, start, s) :: e.source == source && start <= e.offset < start + |s|
    ensures forall i, j | 0 <= i < j < |LineEvents(find, source, start, s)| ::
              LineEvents(find, source, start, s)[i].offset < LineEvents(find, source, start, s)[j].offset
    decreases |s|
  {
    if s != "" {
      var n := FirstLine(s);
      EventsAreDistinct(find, source, start + n, s[n..]);
      var head := LineEvent(find, source, start, s[..n]);
      var tail := LineEvents(find, source, start + n, s[n..]);
      var all: seq<Event> := head + tail;
      forall i, j | 0 <= i < j < |all| ensures all[i].offset < all[j].offset {
        assert all[j] == tail[j - |head|];
        assert tail[j - |head|] in tail;
        if i >= |head| { assert all[i] == tail[i - |head|]; }
      }
    }
  }

  // ---------------------------------------------------------------------------
  // Where a checkpoint may stand
  // ---------------------------------------------------------------------------

  /** `start` is where the line that contains the end of `s` begins. */
  ghost predicate LineBegins(s: string, start: nat) {
    start <= |s| && AtLineStart(s[..start]) && '\n' !in s[start..]
  }

  /** `s` stops at a line start, or inside a line already too long. */
  ghost predicate StopsWell(s: string, discarding: bool) {
    if discarding then exists start :: LineBegins(s, start) && |s| - start > MAX_LINE else AtLineStart(s)
  }

  ghost predicate Aligned(content: string, base: nat, cp: Checkpoint) {
    base <= cp.offset <= |content| && StopsWell(content[base..cp.offset], cp.discarding)
  }

  /** Bytes of the generation that began at `base`, up to the checkpoint. */
  ghost function Consumed(content: string, base: nat, cp: Checkpoint): string
    requires base <= cp.offset <= |content|
  {
    content[base..cp.offset]
  }

  /** What one successful poll guarantees about the file it saw. */
  ghost predicate PollStep(find: Matcher, content: string, base: nat, cp: Checkpoint, events: seq<Event>,
      next: Checkpoint) {
    && Aligned(content, base, cp) && Aligned(content, base, next)
    && next.source == cp.source && cp.offset <= next.offset <= cp.offset + MAX_READ && |events| <= MAX_EVENTS
    && LineEvents(find, cp.source, base, Consumed(content, base, cp)) + events
       == LineEvents(find, cp.source, base, Consumed(content, base, next))
    && (next.offset == cp.offset ==>
          if cp.discarding then cp.offset == |content|
          else |content| - cp.offset <= MAX_LINE && '\n' !in content[cp.offset..])
    && (|events| < MAX_EVENTS && |content| - cp.offset <= MAX_READ ==>
          && '\n' !in content[next.offset..]
          && (if next.discarding then next.offset == |content| else |content| - next.offset <= MAX_LINE))
  }

  // ---------------------------------------------------------------------------
  // Growing the line that contains the checkpoint
  // ---------------------------------------------------------------------------

  /** A line that is already too long reports nothing more as it grows. */
  lemma OversizedGrows(find: Matcher, source: Source, base: nat, s: string, start: nat, more: string)
    requires start <= |s| && AtLineStart(s[..start]) && |s| - start > MAX_LINE && SingleLine(s[start..] + more)
    ensures LineEvents(find, source, base, s + more) == LineEvents(find, source, base, s)
  {
    hide LineEvents;
    var head, line := s[..start], s[start..];
    assert s == head + line && s + more == head + (line + more);
    assert SingleLine(line) by {
      assert forall i | 0 <= i < |line| :: (line + more)[i] == line[i];
    }
    EventsAppend(find, source, base, head, line);
    EventsAppend(find, source, base, head, line + more);
    EventsOfSingleLine(find, source, base + start, line);
    EventsOfSingleLine(find, source, base + start, line + more);
  }

  /** A whole line, or the part of one that already exceeds the bound, adds its event. */
  lemma LineCompletes(find: Matcher, source: Source, base: nat, s: string, line: string)
    requires AtLineStart(s) && line != "" && SingleLine(line)
    ensures LineEvents(find, source, base, s + line)
         == LineEvents(find, source, base, s) + LineEvent(find, source, base + |s|, line)
  {
    hide LineEvents;
    EventsAppend(find, source, base, s, line);
    EventsOfSingleLine(find, source, base + |s|, line);
  }

  // ---------------------------------------------------------------------------
  // Polling
  // ---------------------------------------------------------------------------

  /** One buffered read: up to and including the next newline, at most a buffer. */
  method ReadSlice(window: string, pos: nat) returns (end: nat)
    requires pos <= |window|
    ensures pos <= end <= |window| && (end == pos <==> pos == |window|)
    ensures SingleLine(window[pos..end]) && end - pos <= BUFFER
    ensures EndsLine(window[pos..end]) || end - pos == BUFFER || end == |window|
  {
    end := pos;
    while end < |window| && end - pos < BUFFER
      invariant pos <= end <= |window| && '\n' !in window[pos..end] && end - pos <= BUFFER
    {
      end := end + 1;
      if window[end - 1] == '\n' { return; }
      assert window[pos..end] == window[pos..end - 1] + [window[end - 1]];
    }
  }

  /** The reader stands at `at`, inside the line that begins `begin` bytes after `base`:
      it either holds that line's bytes, or is throwing the line away. */
  ghost predicate Reading(find: Matcher, content: string, base: nat, begin: nat, at: nat,
                          next: Checkpoint, line: string, prior: seq<Event>, events: seq<Event>)
  {
    && base + begin <= at <= |content| && base <= next.offset <= |content|
    && AtLineStart(content[base..base + begin]) && '\n' !in content[base + begin..at]
    && prior + events == LineEvents(find, next.source, base, content[base..next.offset])
    && (if next.discarding then next.offset == at && line == "" && at - base - begin > MAX_LINE
        else next.offset == base + begin && line == content[base + begin..at] && |line| <= MAX_LINE)
  }

  /** Appending a fragment to a newline-free stretch. */
  lemma Extend(content: string, a: nat, b: nat, c: nat)
    requires a <= b < c <= |content| && '\n' !in content[a..b] && SingleLine(content[b..c])
    ensures SingleLine(content[a..c]) && content[a..c] == content[a..b] + content[b..c]
    ensures EndsLine(content[b..c]) <==> EndsLine(content[a..c])
    ensures !EndsLine(content[b..c]) ==> '\n' !in content[a..c]
  {
    forall i | 0 <= i < c - a - 1 ensures content[a..c][i] != '\n' {
      if i < b - a {
        assert content[a..b][i] in content[a..b];
      } else {
        assert content[b..c][i - (b - a)] != '\n';
      }
    }
  }

  lemma LineStartAfter(content: string, base: nat, begin: nat, end: nat)
    requires base <= begin < end <= |content| && EndsLine(content[begin..end])
    ensures EndsLine(content[base..end])
  {
    assert content[base..end][end - base - 1] == content[begin..end][end - begin - 1];
  }

  /** Another fragment of a line that is being thrown away. */
  lemma DiscardStep(find: Matcher, content: string, base: nat, begin: nat, at: nat, end: nat,
                    next: Checkpoint, prior: seq<Event>, events: seq<Event>)
    requires Reading(find, content, base, begin, at, next, "", prior, events) && next.discarding
    requires at < end <= |content| && SingleLine(content[at..end])
    ensures var newline := EndsLine(content[at..end]);
            Reading(find, content, base, if newline then end - base else begin, end,
                    next.(offset := end, discarding := !newline), "", prior, events)
  {
    hide LineEvents, LineEvent;
    Extend(content, base + begin, at, end);
    var s := content[base..at];
    assert s[..begin] == content[base..base + begin] && s[begin..] == content[base + begin..at];
    assert content[base..end] == s + content[at..end];
    OversizedGrows(find, next.source, base, s, begin, content[at..end]);
    if EndsLine(content[at..end]) { LineStartAfter(content, base, at, end); }
  }

  /** The fragment that takes a line over the bound. */
  lemma OversizeStep(find: Matcher, content: string, base: nat, begin: nat, at: nat, end: nat,
                     next: Checkpoint, line: string, prior: seq<Event>, events: seq<Event>)
    requires Reading(find, content, base, begin, at, next, line, prior, events) && !next.discarding
    requires at < end <= |content| && SingleLine(content[at..end]) && end - base - begin > MAX_LINE
    ensures var newline := EndsLine(content[at..end]);
            Reading(find, content, base, if newline then end - base else begin, end,
                    next.(offset := end, discarding := !newline), "", prior,
                    events + [Event(next.source, base + begin, Oversized)])
  {
    hide LineEvents;
    var event := [Event(next.source, base + begin, Oversized)];
    assert prior + events + event == prior + (events + event);
    Completed(find, content, base, begin, at, end, next.source);
    if EndsLine(content[at..end]) { LineStartAfter(content, base, at, end); }
  }

  /** The fragment that completes a line within the bound. */
  lemma {:induction false} LineStep(find: Matcher, content: string, base: nat, begin: nat, at: nat, end: nat,
                 next: Checkpoint, line: string, prior: seq<Event>, events: seq<Event>)
    requires Reading(find, content, base, begin, at, next, line, prior, events) && !next.discarding
    requires at < end <= |content| && SingleLine(content[at..end]) && end - base - begin <= MAX_LINE
    requires EndsLine(content[at..end])
    ensures Reading(find, content, base, end - base, end, next.(offset := end), "", prior,
                    events + LineEvent(find, next.source, base + begin, line + content[at..end]))
  {
    hide LineEvents, LineEvent;
    Completed(find, content, base, begin, at, end, next.source);
    LineStartAfter(content, base, at, end);
  }

  lemma {:induction false} Completed(find: Matcher, content: string, base: nat, begin: nat, at: nat, end: nat,
      source: Source)
    requires base + begin <= at < end <= |content|
    requires AtLineStart(content[base..base + begin]) && '\n' !in content[base + begin..at]
      && SingleLine(content[at..end])
    ensures LineEvents(find, source, base, content[base..end])
         == LineEvents(find, source, base, content[base..base + begin])
            + LineEvent(find, source, base + begin, content[base + begin..end])
    ensures content[base + begin..end] == content[base + begin..at] + content[at..end]
    ensures !EndsLine(content[at..end]) ==> '\n' !in content[base + begin..end]
  {
    hide LineEvents, LineEvent;
    Extend(content, base + begin, at, end);
    assert content[base..end] == content[base..base + begin] + content[base + begin..end];
    LineCompletes(find, source, base, content[base..base + begin], content[base + begin..end]);
  }

  /** Where the line under the checkpoint begins. */
  lemma {:induction false} Begin(find: Matcher, content: string, base: nat, cp: Checkpoint) returns (begin: nat)
    requires Aligned(content, base, cp)
    ensures Reading(find, content, base, begin, cp.offset, cp, "",
                    LineEvents(find, cp.source, base, content[base..cp.offset]), [])
  {
    hide LineEvents, LineEvent;
    begin := cp.offset - base;
    if cp.discarding {
      begin :| LineBegins(content[base..cp.offset], begin) && cp.offset - base - begin > MAX_LINE;
      assert content[base..cp.offset][..begin] == content[base..base + begin];
      assert content[base..cp.offset][begin..] == content[base + begin..cp.offset];
    }
    var prior := LineEvents(find, cp.source, base, content[base..cp.offset]);
    assert prior + [] == prior;
  }

  /** Where reading stops is where a checkpoint may stand. */
  lemma StopsAligned(find: Matcher, content: string, base: nat, begin: nat, at: nat,
                     next: Checkpoint, line: string, prior: seq<Event>, events: seq<Event>)
    requires Reading(find, content, base, begin, at, next, line, prior, events)
    ensures Aligned(content, base, next) && next.offset <= at
    ensures prior + events == LineEvents(find, next.source, base, content[base..next.offset])
    ensures '\n' !in content[next.offset..at]
    ensures if next.discarding then next.offset == at else at - next.offset <= MAX_LINE
  {
    hide LineEvents, LineEvent;
    if next.discarding {
      var s := content[base..next.offset];
      assert s[..begin] == content[base..base + begin] && s[begin..] == content[base + begin..at];
      assert LineBegins(s, begin);
    }
  }

  /** The body of the read loop: give one fragment to the line under construction. */
  method TakeFragment(find: Matcher, ghost content: string, ghost base: nat, ghost begin: nat, ghost at: nat,
                      fragment: string, cp: Checkpoint, partial: string, ghost prior: seq<Event>, reported: seq<Event>)
    returns (next: Checkpoint, line: string, events: seq<Event>, ghost begin': nat)
    requires Reading(find, content, base, begin, at, cp, partial, prior, reported)
    requires fragment != "" && SingleLine(fragment) && at + |fragment| <= |content|
    requires fragment == content[at..at + |fragment|]
    ensures Reading(find, content, base, begin', at + |fragment|, next, line, prior, events)
    ensures next.source == cp.source && cp.offset <= next.offset
    ensures next.offset == cp.offset ==> events == reported && next.discarding == cp.discarding
    ensures next.offset <= at + |fragment| && |events| <= |reported| + 1
  {
    hide LineEvents;
    ghost var end := at + |fragment|;
    var hasNewline := EndsLine(fragment);
    begin' := if hasNewline then end - base else begin;
    next, line, events := cp, partial, reported;
    if cp.discarding {
      DiscardStep(find, content, base, begin, at, end, cp, prior, reported);
      next := next.(offset := cp.offset + |fragment|, discarding := !hasNewline);
    } else if |line| + |fragment| > MAX_LINE {
      OversizeStep(find, content, base, begin, at, end, cp, line, prior, reported);
      events := events + [Event(cp.source, cp.offset, Oversized)];
      next := next.(offset := cp.offset + |line| + |fragment|, discarding := !hasNewline);
      line := "";
    } else if hasNewline {
      LineStep(find, content, base, begin, at, end, cp, line, prior, reported);
      line := line + fragment;
      var address := find(Text(line));
      if address.Some? {
        events := events + [Event(cp.source, cp.offset, Failure(Text(line), address.value))];
      }
      next := next.(offset := cp.offset + |line|);
      line := "";
    } else {
      Extend(content, base + begin, at, end);
      line := line + fragment;
    }
  }

  /** Read one window from the checkpoint on. An error reports nothing; when `smooth`, no
      read fails. */
  method ScanWindow(find: Matcher, content: string, ghost base: nat, checkpoint: Checkpoint, smooth: bool)
    returns (ok: bool, events: seq<Event>, next: Checkpoint)
    requires Aligned(content, base, checkpoint)
    ensures ok ==> PollStep(find, content, base, checkpoint, events, next)
    ensures !ok ==> events == [] && next == checkpoint
    ensures smooth ==> ok
  {
    hide LineEvents, Reading;
    var from := checkpoint.offset;
    var limit := if |content| < from + MAX_READ then |content| else from + MAX_READ;
    var pos := from;
    var line := "";
    events, next := [], checkpoint;
    ghost var prior := LineEvents(find, checkpoint.source, base, content[base..from]);
    ghost var begin: nat := Begin(find, content, base, checkpoint);
    while pos < limit && |events| < MAX_EVENTS
      invariant from <= pos <= limit && next.source == checkpoint.source
      invariant Reading(find, content, base, begin, pos, next, line, prior, events)
      invariant from <= next.offset <= pos && |events| <= MAX_EVENTS
      invariant next.offset == from ==> events == [] && next.discarding == checkpoint.discarding
      decreases limit - pos
    {
      var failed: bool := *;
      if failed && !smooth { return false, [], checkpoint; }
      var end := ReadSlice(content[..limit], pos);
      var fragment := content[pos..end];
      assert content[..limit][pos..end] == fragment;
      next, line, events, begin := TakeFragment(find, content, base, begin, pos, fragment, next, line, prior, events);
      pos := end;
    }
    ok := true;
    StopsAligned(find, content, base, begin, pos, next, line, prior, events);
  }

  // ---------------------------------------------------------------------------
  // Generations
  // ---------------------------------------------------------------------------

  datatype Saved = Absent | LegacyOffset(offset: nat) | Stored(checkpoint: Checkpoint)

  /** The file still extends the generation the checkpoint belongs to. */
  predicate Continues(cp: Checkpoint, file: LogFile) {
    cp.source.device == file.device && cp.source.inode == file.inode && cp.offset <= |file.content|
  }

  /** Bind a saved checkpoint to the file that is there now; None when the generation
      counter is exhausted. */
  function Resume(saved: Saved, file: LogFile): (r: Option<Checkpoint>)
    ensures saved.Absent? ==>
      r == Some(Checkpoint(Source(file.device, file.inode, 1), |file.content|, false))
    ensures saved.LegacyOffset? ==>
      && r.Some? && r.value.source.generation == 1 && !r.value.discarding
      && r.value.offset == if saved.offset <= |file.content| then saved.offset else 0
    ensures r == None <==>
      saved.Stored? && !Continues(saved.checkpoint, file) && saved.checkpoint.source.generation >= MAX_GENERATION
    ensures r.Some? ==> r.value.offset <= |file.content|
    ensures r.Some? && saved.Stored? ==>
      if saved.checkpoint.source.device == file.device && saved.checkpoint.source.inode == file.inode
         && |file.content| >= saved.checkpoint.offset
      then r.value == saved.checkpoint
      else
        && r.value.source.generation == saved.checkpoint.source.generation + 1 && r.value.offset == 0
        && !r.value.discarding
    ensures r.Some? ==> r.value.source.device == file.device && r.value.source.inode == file.inode
  {
    match saved
    case Absent => Some(Checkpoint(Source(file.device, file.inode, 1), |file.content|, false))
    case LegacyOffset(offset) =>
      var adopted := if |file.content| < offset then 0 else offset;
      Some(Checkpoint(Source(file.device, file.inode, 1), adopted, false))
    case Stored(cp) =>
      if Continues(cp, file) then Some(cp)
      else if cp.source.generation >= MAX_GENERATION then None
      else Some(Checkpoint(Source(file.device, file.inode, cp.source.generation + 1), 0, false))
  }

  /** Where the resumed generation's accounting begins: where it was, or where the
      adopted or new generation starts. */
  function ResumeBase(saved: Saved, file: LogFile, base: nat): nat
    requires Resume(saved, file).Some?
  {
    if saved.Stored? && Continues(saved.checkpoint, file) then base else Resume(saved, file).value.offset
  }

  /** Poll the file; enrollment starts at its current end. A continued generation must
      still hold what the saved checkpoint was aligned with. */
  method Poll(find: Matcher, saved: Saved, file: LogFile, ghost base: nat, smooth: bool)
    returns (ok: bool, events: seq<Event>, next: Checkpoint)
    requires saved.Stored? && Continues(saved.checkpoint, file) ==> Aligned(file.content, base, saved.checkpoint)
    ensures ok ==>
      && Resume(saved, file).Some?
      && var start := Resume(saved, file).value;
         if saved.Absent? then events == [] && next == start
         else PollStep(find, file.content, ResumeBase(saved, file, base), start, events, next)
    ensures !ok ==> events == []
    ensures smooth ==> (ok <==> Resume(saved, file).Some?)
  {
    hide LineEvents;
    var resumed := Resume(saved, file);
    if resumed == None { return false, [], Checkpoint(Source(0, 0, 0), 0, false); }
    if saved.Absent? { return true, [], resumed.value; }
    ghost var from := ResumeBase(saved, file, base);
    ok, events, next := ScanWindow(find, file.content, from, resumed.value, smooth);
  }

  // ---------------------------------------------------------------------------
  // Whole runs
  // ---------------------------------------------------------------------------

  /** One committed poll: the file as it was, what was reported, the checkpoint saved. */
  datatype Committed = Committed(content: string, events: seq<Event>, checkpoint: Checkpoint)

  /** Successive committed polls of one growing generation. */
  ghost predicate IsRun(find: Matcher, base: nat, seen: string, cp: Checkpoint, run: seq<Committed>)
    decreases |run|
  {
    run != [] ==>
      && seen <= run[0].content
      && PollStep(find, run[0].content, base, cp, run[0].events, run[0].checkpoint)
      && IsRun(find, base, run[0].content, run[0].checkpoint, run[1..])
  }

  function Reported(run: seq<Committed>): seq<Event> {
    if run == [] then [] else run[0].events + Reported(run[1..])
  }

  function LastContent(seen: string, run: seq<Committed>): string {
    if run == [] then seen else run[|run| - 1].content
  }

  function LastCheckpoint(cp: Checkpoint, run: seq<Committed>): Checkpoint {
    if run == [] then cp else run[|run| - 1].checkpoint
  }

  lemma Associative<T>(a: seq<T>, b: seq<T>, c: seq<T>)
    ensures (a + b) + c == a + (b + c) && a + [] == a && [] + a == a
  {
  }

  /** However the polls were cut up, together they report exactly what the plain splitter
      reports for the bytes they consumed. */
  lemma {:induction false} RunReportsEveryLine(find: Matcher, base: nat, seen: string, cp: Checkpoint,
      run: seq<Committed>)
    requires Aligned(seen, base, cp) && IsRun(find, base, seen, cp, run)
    ensures var last := LastCheckpoint(cp, run);
            var content := LastContent(seen, run);
            && Aligned(content, base, last) && cp.offset <= last.offset
            && LineEvents(find, cp.source, base, Consumed(seen, base, cp)) + Reported(run)
               == LineEvents(find, cp.source, base, Consumed(content, base, last))
    decreases |run|
  {
    hide LineEvents;
    if run != [] {
      var step := run[0];
      assert step.content[base..cp.offset] == seen[base..cp.offset];
      RunReportsEveryLine(find, base, step.content, step.checkpoint, run[1..]);
      Associative(LineEvents(find, cp.source, base, Consumed(seen, base, cp)), step.events, Reported(run[1..]));
    } else {
      Associative(LineEvents(find, cp.source, base, Consumed(seen, base, cp)), [], []);
    }
  }

  /** The last poll stopped at the end of the file, not at a window or event limit. */
  predicate Drained(cp: Checkpoint, run: seq<Committed>) {
    && run != []
    && |run[|run| - 1].events| < MAX_EVENTS
    && |run[|run| - 1].content| - LastCheckpoint(cp, run[..|run| - 1]).offset <= MAX_READ
  }

  /** A generation read to its end has reported every complete or oversized line. */
  lemma DrainedRunReportsAll(find: Matcher, source: Source, base: nat, run: seq<Committed>)
    requires run != [] && base <= |run[0].content|
    requires IsRun(find, base, run[0].content, Checkpoint(source, base, false), run)
    requires Drained(Checkpoint(source, base, false), run)
    ensures base <= |run[|run| - 1].content|
    ensures Reported(run) == LineEvents(find, source, base, run[|run| - 1].content[base..])
  {
    hide LineEvents;
    var last := run[|run| - 1];
    var start := Checkpoint(source, base, false);
    assert run[0].content[base..base] == "";
    EventsUnfold(find, source, base, "");
    RunReportsEveryLine(find, base, run[0].content, start, run);
    Associative(Reported(run), [], []);
    LastStepFinishes(find, base, run[0].content, start, run);
    RestIsSilent(find, source, base, last.content, last.checkpoint);
  }

  lemma RestIsSilent(find: Matcher, source: Source, base: nat, content: string, cp: Checkpoint)
    requires Aligned(content, base, cp) && '\n' !in content[cp.offset..]
    requires if cp.discarding then cp.offset == |content| else |content| - cp.offset <= MAX_LINE
    ensures LineEvents(find, source, base, content[base..cp.offset]) == LineEvents(find, source, base, content[base..])
  {
    hide LineEvents;
    var consumed, rest := content[base..cp.offset], content[cp.offset..];
    assert content[base..] == consumed + rest;
    if rest == "" {
      assert consumed + rest == consumed;
    } else {
      LineCompletes(find, source, base, consumed, rest);
      assert rest[|rest| - 1] in rest;
      Associative(LineEvents(find, source, base, consumed), [], []);
    }
  }

  lemma {:induction false} LastStepFinishes(find: Matcher, base: nat, seen: string, cp: Checkpoint, run: seq<Committed>)
    requires Aligned(seen, base, cp) && IsRun(find, base, seen, cp, run) && Drained(cp, run)
    ensures var last := run[|run| - 1];
            && Aligned(last.content, base, last.checkpoint) && '\n' !in last.content[last.checkpoint.offset..]
            && (if last.checkpoint.discarding then last.checkpoint.offset == |last.content|
                else |last.content| - last.checkpoint.offset <= MAX_LINE)
    decreases |run|
  {
    hide LineEvents;
    if |run| > 1 {
      var rest := run[1..];
      assert rest[|rest| - 1] == run[|run| - 1];
      assert LastCheckpoint(run[0].checkpoint, rest[..|rest| - 1]) == LastCheckpoint(cp, run[..|run| - 1]);
      LastStepFinishes(find, base, run[0].content, run[0].checkpoint, rest);
    }
  }

  /** What was reported up to a checkpoint stays reported, identifiers included, however
      far the generation has grown. */
  lemma {:induction false} EventsOfPrefix(find: Matcher, base: nat, content: string, cp: Checkpoint, later: nat)
    requires Aligned(content, base, cp) && cp.offset <= later <= |content|
    ensures LineEvents(find, cp.source, base, content[base..cp.offset]) <=
      LineEvents(find, cp.source, base, content[base..later])
  {
    hide LineEvents;
    var s, rest := content[base..cp.offset], content[cp.offset..later];
    assert content[base..later] == s + rest;
    if cp.discarding {
      var start: nat :| LineBegins(s, start) && |s| - start > MAX_LINE;
      assert s == s[..start] + s[start..];
      OversizedStays(find, cp.source, base, s[..start], s[start..], rest);
    } else {
      EventsAppend(find, cp.source, base, s, rest);
    }
  }

  lemma OversizedStays(find: Matcher, source: Source, base: nat, head: string, line: string, rest: string)
    requires AtLineStart(head) && |line| > MAX_LINE && '\n' !in line
    ensures LineEvents(find, source, base, head + line) <= LineEvents(find, source, base, head + line + rest)
  {
    hide LineEvents;
    assert head + line + rest == head + (line + rest);
    EventsAppend(find, source, base, head, line);
    EventsAppend(find, source, base, head, line + rest);
    EventsOfSingleLine(find, source, base + |head|, line);
    OversizedFirst(find, source, base + |head|, line, rest);
  }

  lemma OversizedFirst(find: Matcher, source: Source, start: nat, line: string, rest: string)
    requires |line| > MAX_LINE && '\n' !in line
    ensures LineEvents(find, source, start, line + rest) != []
    ensures LineEvents(find, source, start, line + rest)[0] == Event(source, start, Oversized)
  {
    var n := FirstLine(line + rest);
    FirstLineEnds(line + rest);
    assert (line + rest)[..n][n - 1] == (line + rest)[n - 1];
    assert forall i | 0 <= i < |line| :: (line + rest)[i] == line[i] && line[i] in line;
  }

  /** Polling twice from the same checkpoint, as after a lost commit, reports the same
      events with the same identifiers, up to where the shorter poll stopped. */
  lemma RepolledEventsAgree(find: Matcher, base: nat, cp: Checkpoint, first: Committed, again: Committed)
    requires first.content <= again.content
    requires PollStep(find, first.content, base, cp, first.events, first.checkpoint)
    requires PollStep(find, again.content, base, cp, again.events, again.checkpoint)
    ensures first.events <= again.events || again.events <= first.events
  {
    hide LineEvents;
    var c := again.content;
    assert first.content[base..first.checkpoint.offset] == c[base..first.checkpoint.offset];
    assert first.content[base..cp.offset] == c[base..cp.offset];
    var prior := LineEvents(find, cp.source, base, c[base..cp.offset]);
    var a, b := first.checkpoint.offset, again.checkpoint.offset;
    if a <= b {
      EventsOfPrefix(find, base, c, first.checkpoint, b);
      CancelPrefix(prior, first.events, again.events);
    } else {
      EventsOfPrefix(find, base, c, again.checkpoint, a);
      CancelPrefix(prior, again.events, first.events);
    }
  }

  lemma CancelPrefix<T>(prior: seq<T>, a: seq<T>, b: seq<T>)
    requires prior + a <= prior + b
    ensures a <= b
  {
    assert |a| <= |b|;
    forall i | 0 <= i < |a| ensures a[i] == b[i] {
      assert (prior + a)[|prior| + i] == (prior + b)[|prior| + i];
    }
  }
}
