/**
 Temporary bans: one nftables element with a kernel timeout, refreshed and rolled back
 by remaining-time arithmetic. Times are nanoseconds of a clock that never runs
 backwards; the wall clock may show anything. Reading an element rounds its remaining
 time down to a millisecond; the kernel is told whole seconds.
 */
module IpBan {
  import opened Prelude

  const MS: int := 1_000_000
  const SEC: int := 1000 * MS
  const INT64_MAX: int := 0x7fff_ffff_ffff_ffff

  // ---------------------------------------------------------------------------
  // The kernel's time notation
  // ---------------------------------------------------------------------------

  datatype TimeUnit = Days | Hours | Minutes | Seconds | Millis

  datatype Part = Part(amount: nat, u: TimeUnit)

  function Size(u: TimeUnit): int {
    match u
    case Days => 86400 * SEC
    case Hours => 3600 * SEC
    case Minutes => 60 * SEC
    case Seconds => SEC
    case Millis => MS
  }

  function Total(parts: seq<Part>): int {
    if parts == [] then 0 else parts[0].amount * Size(parts[0].u) + Total(parts[1..])
  }

  predicate Digit(c: char) { '0' <= c <= '9' }

  function Digits(s: string): (n: nat)
    ensures n <= |s|
  {
    if s == "" || !Digit(s[0]) then 0 else 1 + Digits(s[1..])
  }

  function Number(digits: string): nat
    requires forall i | 0 <= i < |digits| :: Digit(digits[i])
  {
    if digits == "" then 0
    else
      assert Digit(digits[|digits| - 1]);
      Number(digits[..|digits| - 1]) * 10 + (digits[|digits| - 1] as int - '0' as int)
  }

  /** The unit a text starts with: "ms" before "m". */
  function UnitAt(s: string): Option<TimeUnit> {
    if s == "" then None
    else if s[0] == 'm' && |s| >= 2 && s[1] == 's' then Some(Millis)
    else if s[0] == 'd' then Some(Days)
    else if s[0] == 'h' then Some(Hours)
    else if s[0] == 'm' then Some(Minutes)
    else if s[0] == 's' then Some(Seconds)
    else None
  }

  function Name(u: TimeUnit): string {
    match u
    case Days => "d"
    case Hours => "h"
    case Minutes => "m"
    case Seconds => "s"
    case Millis => "ms"
  }

  /** The first amount and unit of a text. */
  function FirstPart(s: string): (p: Option<Part>)
  {
    var n := Digits(s);
    var u := UnitAt(s[n..]);
    if n == 0 || u.None? then None
    else DigitsOnly(s); Some(Part(Number(s[..n]), u.value))
  }

  function Rest(s: string): string
    requires FirstPart(s).Some?
  {
    var n := Digits(s);
    s[n + |Name(UnitAt(s[n..]).value)|..]
  }

  /** A text of one or more amounts, each with its unit, and nothing else. */
  function Parts(s: string): Option<seq<Part>>
    decreases |s|
  {
    var first := FirstPart(s);
    if first.None? then None
    else if Rest(s) == "" then Some([first.value])
    else
      var later := Parts(Rest(s));
      if later.None? then None else Some([first.value] + later.value)
  }

  lemma {:induction false} DigitsOnly(s: string)
    ensures forall i | 0 <= i < Digits(s) :: Digit(s[..Digits(s)][i])
  {
    if s != "" && Digit(s[0]) {
      DigitsOnly(s[1..]);
      var n := Digits(s);
      forall i | 0 <= i < n ensures Digit(s[..n][i]) {
        if i == 0 {
          assert s[..n][i] == s[0];
        } else {
          assert s[..n][i] == s[i] == s[1..][i - 1];
          assert s[1..][..n - 1][i - 1] == s[1..][i - 1];
          assert Digit(s[1..][..Digits(s[1..])][i - 1]);
        }
      }
    }
  }

  lemma {:induction false} TotalOfMore(a: seq<Part>, b: seq<Part>)
    ensures Total(a + b) == Total(a) + Total(b) && Total(b) >= 0
  {
    if a == [] {
      assert a + b == b;
      if b != [] {
        assert b[0].amount * Size(b[0].u) >= 0;
        TotalOfMore([], b[1..]);
        assert [] + b[1..] == b[1..];
      }
    } else {
      assert (a + b)[1..] == a[1..] + b;
      TotalOfMore(a[1..], b);
    }
  }

  /** The parser adds up in 64 bits and looks at the sign to catch an overflow; that finds
      every overflow, so it returns the exact total or nothing. */
  method ParseTimespec(value: string) returns (r: Option<int>)
    ensures r == match Parts(value)
                 case None => None
                 case Some(parts) => if Total(parts) <= INT64_MAX then Some(Total(parts)) else None
  {
    hide Parts;
    var found := Parts(value);
    if found.None? { return None; }
    var parts, total := found.value, 0;
    for i := 0 to |parts|
      invariant 0 <= total <= INT64_MAX && total == Total(parts[..i])
    {
      var amount, unit := parts[i].amount, Size(parts[i].u);
      assert parts[..i + 1] == parts[..i] + [parts[i]];
      TotalOfMore(parts[..i], [parts[i]]);
      assert Total([parts[i]]) == amount * unit;
      assert parts == parts[..i + 1] + parts[i + 1..];
      TotalOfMore(parts[..i + 1], parts[i + 1..]);
      WholeQuotient(amount, unit);
      if amount > INT64_MAX || amount > INT64_MAX / unit { return None; }
      total := Wrapped(total + amount * unit);
      if total < 0 { return None; }
    }
    assert parts[..|parts|] == parts;
    return Some(total);
  }

  lemma {:induction false} WholeQuotient(amount: nat, unit: int)
    requires 1 <= unit <= 86400 * SEC
    ensures amount > INT64_MAX / unit <==> amount * unit > INT64_MAX
    ensures amount > INT64_MAX ==> amount * unit > INT64_MAX
  {
    var q := INT64_MAX / unit;
    if amount > q { assert amount * unit >= (q + 1) * unit; } else { assert amount * unit <= q * unit; }
    assert amount * unit >= amount;
  }

  /** Two's complement in 64 bits. */
  function Wrapped(n: int): int { if n > INT64_MAX then n - 0x1_0000_0000_0000_0000 else n }

  function Render(parts: seq<Part>): string {
    if parts == [] then "" else Decimal(parts[0].amount) + (Name(parts[0].u) + Render(parts[1..]))
  }

  lemma {:induction false} NumberOfDecimal(n: nat)
    ensures var s := Decimal(n);
            s != "" && (forall i | 0 <= i < |s| :: Digit(s[i])) && Number(s) == n
  {
    if n >= 10 {
      NumberOfDecimal(n / 10);
      var s := Decimal(n);
      assert s[..|s| - 1] == Decimal(n / 10);
    }
  }

  lemma {:induction false} DigitsOf(digits: string, rest: string)
    requires forall i | 0 <= i < |digits| :: Digit(digits[i])
    requires rest == "" || !Digit(rest[0])
    ensures Digits(digits + rest) == |digits|
  {
    if digits == "" {
      assert digits + rest == rest;
    } else {
      assert (digits + rest)[1..] == digits[1..] + rest;
      DigitsOf(digits[1..], rest);
    }
  }

  lemma RenderStarts(parts: seq<Part>)
    ensures Render(parts) != "" ==> Digit(Render(parts)[0])
    ensures Render(parts) == "" <==> parts == []
  {
    if parts != [] { NumberOfDecimal(parts[0].amount); }
  }

  lemma UnitThen(u: TimeUnit, later: string)
    requires later == "" || Digit(later[0])
    ensures UnitAt(Name(u) + later) == Some(u) && !Digit((Name(u) + later)[0])
  {
  }

  lemma {:induction false} FirstOf(d: string, u: TimeUnit, later: string)
    requires d != "" && forall i | 0 <= i < |d| :: Digit(d[i])
    requires later == "" || Digit(later[0])
    ensures FirstPart(d + (Name(u) + later)) == Some(Part(Number(d), u))
    ensures Rest(d + (Name(u) + later)) == later
  {
    hide Number, UnitAt, Digits;
    UnitThen(u, later);
    var s := d + (Name(u) + later);
    DigitsOf(d, Name(u) + later);
    assert s[..|d|] == d && s[|d|..] == Name(u) + later;
    assert s[|d| + |Name(u)|..] == later;
  }

  /** Reading a rendered time yields its parts again, so the parsed total is exact. */
  lemma {:induction false} RenderThenParse(parts: seq<Part>)
    requires parts != []
    ensures Parts(Render(parts)) == Some(parts)
  {
    hide FirstPart, Rest, Number, UnitAt;
    NumberOfDecimal(parts[0].amount);
    RenderStarts(parts[1..]);
    FirstOf(Decimal(parts[0].amount), parts[0].u, Render(parts[1..]));
    var s := Render(parts);
    assert FirstPart(s) == Some(parts[0]) && Rest(s) == Render(parts[1..]);
    if |parts| == 1 {
      assert parts == [parts[0]];
    } else {
      RenderThenParse(parts[1..]);
      assert parts == [parts[0]] + parts[1..];
      assert Parts(Rest(s)) == Some(parts[1..]);
    }
  }

  /** An amount as it may be written, with leading zeros. */
  datatype Written = Written(digits: string, u: TimeUnit)

  predicate Proper(w: Written) { w.digits != "" && forall i | 0 <= i < |w.digits| :: '0' <= w.digits[i] <= '9' }

  function Print(ws: seq<Written>): string {
    if ws == [] then "" else ws[0].digits + (Name(ws[0].u) + Print(ws[1..]))
  }

  function Amounts(ws: seq<Written>): seq<Part>
    requires forall i | 0 <= i < |ws| :: Proper(ws[i])
  {
    if ws == [] then []
    else
      assert Proper(ws[0]) && forall i | 0 <= i < |ws[1..]| :: ws[1..][i] == ws[i + 1];
      [Part(Number(ws[0].digits), ws[0].u)] + Amounts(ws[1..])
  }

  lemma {:induction false} PrintedParts(ws: seq<Written>)
    requires ws != [] && forall i | 0 <= i < |ws| :: Proper(ws[i])
    ensures Parts(Print(ws)) == Some(Amounts(ws))
  {
    hide FirstPart, Rest, Number, UnitAt;
    var later := ws[1..];
    assert Proper(ws[0]) && forall i | 0 <= i < |later| :: later[i] == ws[i + 1];
    if later != [] { assert Proper(later[0]); }
    FirstOf(ws[0].digits, ws[0].u, Print(later));
    assert FirstPart(Print(ws)) == Some(Part(Number(ws[0].digits), ws[0].u)) && Rest(Print(ws)) == Print(later);
    if later == [] {
      assert Amounts(ws) == [Part(Number(ws[0].digits), ws[0].u)];
    } else {
      PrintedParts(later);
      assert Print(later) != "";
    }
  }

  lemma UnitStarts(s: string)
    ensures UnitAt(s).Some? ==> |s| >= |Name(UnitAt(s).value)| && s[..|Name(UnitAt(s).value)|] == Name(UnitAt(s).value)
  {
  }

  lemma FirstIsWritten(s: string) returns (w: Written)
    requires FirstPart(s).Some?
    ensures Proper(w) && s == w.digits + (Name(w.u) + Rest(s)) && FirstPart(s).value == Part(Number(w.digits), w.u)
  {
    hide Number;
    var n := Digits(s);
    DigitsOnly(s);
    UnitStarts(s[n..]);
    w := Written(s[..n], UnitAt(s[n..]).value);
    var name := Name(w.u);
    assert s == s[..n] + s[n..] && s[n..] == name + s[n..][|name|..] && s[n..][|name|..] == s[n + |name|..];
  }

  /** What is read is what was written: amounts, each with its unit, and nothing else. */
  lemma {:induction false} PartsAreWritten(s: string) returns (ws: seq<Written>)
    requires Parts(s).Some?
    ensures ws != [] && (forall i | 0 <= i < |ws| :: Proper(ws[i])) && Print(ws) == s && Amounts(ws) == Parts(s).value
    decreases |s|
  {
    var first := FirstIsWritten(s);
    var rest := Rest(s);
    hide Number, Name, FirstPart, Rest, UnitAt, Digits;
    if rest == "" {
      ws := [first];
      assert Print(ws[1..]) == "" && Amounts(ws[1..]) == [];
    } else {
      var later := PartsAreWritten(rest);
      ws := [first] + later;
      assert ws[1..] == later;
    }
  }

  /** The units: a day has 24 hours of 60 minutes of 60 seconds of 1000 milliseconds, and
      time is counted in nanoseconds. */
  lemma TotalOfUnits(days: nat, hours: nat, minutes: nat, seconds: nat, millis: nat)
    ensures Total([Part(days, Days), Part(hours, Hours), Part(minutes, Minutes), Part(seconds, Seconds),
                   Part(millis, Millis)]) ==
            ((((days * 24 + hours) * 60 + minutes) * 60 + seconds) * 1000 + millis) * 1_000_000
  {
    var m := [Part(millis, Millis)];
    var s := [Part(seconds, Seconds)] + m;
    var i := [Part(minutes, Minutes)] + s;
    var h := [Part(hours, Hours)] + i;
    assert m[1..] == [] && s[1..] == m && i[1..] == s && h[1..] == i;
    assert Total(m) == millis * 1_000_000 && Total(s) == seconds * 1_000_000_000 + Total(m);
    assert Total(i) == minutes * 60_000_000_000 + Total(s) && Total(h) == hours * 3_600_000_000_000 + Total(i);
    assert ([Part(days, Days)] + h)[1..] == h;
    assert [Part(days, Days)] + h == [Part(days, Days), Part(hours, Hours), Part(minutes, Minutes),
                                      Part(seconds, Seconds), Part(millis, Millis)];
  }

  lemma NumberIsPositional(digits: string, c: char)
    requires (forall i | 0 <= i < |digits| :: Digit(digits[i])) && '0' <= c <= '9'
    ensures Number(digits + [c]) == 10 * Number(digits) + (c as int - 48)
  {
    assert (digits + [c])[..|digits|] == digits;
  }

  // ---------------------------------------------------------------------------
  // The element, and what Apply records about it
  // ---------------------------------------------------------------------------

  const MUTATION_TIMEOUT: int := 30 * SEC

  /** A banned address in the kernel set; an empty generation is an element without owner. */
  datatype Element = Element(generation: string, expiry: int)

  datatype Reading = Missing | Failed | Garbled | Shown(generation: string, remaining: int)

  datatype State = State(
    target: string, generation: string, ttl: int, expiresAt: int,
    previousGeneration: string, previousMillis: int, previousExpiresAt: Option<int>)

  predicate HasPredecessor(s: State) { s.previousExpiresAt.Some? || s.previousMillis > 0 }

  predicate ValidState(s: State, target: string, generation: string, maxTTL: int) {
    && s.target == target && (s.generation == "" || s.generation == generation)
    && 0 <= s.previousMillis <= maxTTL / MS && 0 <= s.ttl <= maxTTL / SEC
    && (s.previousGeneration != "" ==> s.previousExpiresAt.Some? || s.previousMillis > 0)
    && (s.previousMillis > 0 ==> s.ttl > 0 && s.previousMillis <= s.ttl * 1000)
  }

  /** The moments of one refresh: the old element was read, the reading was captured, the
      new element was committed (if it was), it was seen, and that was noted. `captured`
      and `shown` are the remaining times of the first and the last look. */
  datatype Moments = Moments(
    readAt: int, captured: int, capturedAt: int, committed: Option<int>, seenAt: int, shown: int, notedAt: int)

  /** What is left of the predecessor, given its captured remaining time, the time since,
      and the remaining time that the new element shows. */
  function PredecessorLeft(previous: int, sinceCapture: int, ttl: int, shown: int): int {
    var age := if ttl - shown < 0 then 0 else ttl - shown;
    previous - if sinceCapture - age < 0 then 0 else sinceCapture - age
  }

  function CeilSeconds(t: int): int { (t + SEC - 1) / SEC }

  /** The recorded predecessor against the real one. It is never remembered as lasting
      longer than it did when it was read; once the refresh has been seen, what the record
      adds to the real end is the time it took to capture the reading, and what it takes
      away the time it took to note the refresh. It is dropped only when it is over. */
  ghost predicate Accounts(s: State, before: Option<Element>, m: Moments, seen: bool) {
    m.committed.Some? ==>
      if HasPredecessor(s) then
        && before.Some? && s.previousGeneration == before.value.generation
        && var left := before.value.expiry - m.committed.value;
           && s.previousMillis * MS <= left + (m.committed.value - m.readAt)
           && (seen ==> s.previousMillis * MS <= left + (m.capturedAt - m.readAt) + MS)
           && (seen ==> s.previousMillis * MS > left - (m.notedAt - m.seenAt) - 2 * MS)
      else before.Some? ==> before.value.expiry <= m.notedAt + MS
  }

  /** What the kernel's readings guarantee when an element that ends at `expiry` was read
      and a new one with `ttl` seconds was committed and seen. */
  predicate Witnessed(expiry: int, m: Moments, ttl: int) {
    && m.committed.Some? && m.readAt <= m.capturedAt <= m.committed.value <= m.seenAt <= m.notedAt
    && expiry - m.readAt - MS < m.captured <= expiry - m.readAt
    && var left := m.committed.value + ttl * SEC - m.seenAt;
       left - MS < m.shown <= left
  }

  /** What Apply reckons is left of the predecessor. */
  function Left(m: Moments, ttl: int): int {
    PredecessorLeft(m.captured, m.notedAt - m.capturedAt, ttl * SEC, m.shown)
  }

  /** A predecessor that was noted after the new element had been seen is accounted for to
      the capture latency from above, and to the noting latency from below. */
  lemma LeftIsAccounted(expiry: int, m: Moments, ttl: int)
    requires Witnessed(expiry, m, ttl)
    ensures Left(m, ttl) <= expiry - m.committed.value + (m.capturedAt - m.readAt) + MS
    ensures Left(m, ttl) > expiry - m.committed.value - (m.notedAt - m.seenAt) - MS
    ensures Left(m, ttl) <= m.captured
    ensures Left(m, ttl) <= 0 ==> expiry <= m.notedAt + MS
  {
  }

  /** There was a predecessor, and less than a millisecond of it is left. */
  predicate ResidueLost(m: Moments, ttl: int) { m.captured > 0 && 0 < Left(m, ttl) < MS }

  /** That happens: a predecessor with one millisecond left, refreshed half a millisecond
      after it was captured, is stored with nothing left. The state is valid, names its
      predecessor, and is one that Rollback refuses. */
  lemma ResidueCanBeLost(target: string, generation: string, previous: string, ttl: int, maxTTL: int)
    requires generation != "" && 1 <= ttl && ttl * SEC <= maxTTL
    ensures var half := MS / 2;
            var m := Moments(0, MS, 0, Some(half), half, ttl * SEC, half);
            var s := State(target, generation, ttl, half + ttl * SEC, previous, Left(m, ttl) / MS, Some(MS));
            && Witnessed(MS, m, ttl) && ResidueLost(m, ttl)
            && ValidState(s, target, generation, maxTTL) && HasPredecessor(s) && s.previousMillis == 0
  {
  }

  /** There is nothing to shorten: no element, or a readable one whose whole milliseconds
      the new time to live covers. */
  predicate Refreshable(e: Option<Element>, ttl: int, at: int) {
    Live(e, at) ==> MS <= e.value.expiry - at < ttl * SEC + MS
  }

  /** Comparing whole milliseconds with a bound in whole milliseconds. */
  lemma WholeMillis(shown: int, left: int, bound: int)
    requires bound % MS == 0
    ensures shown % MS == 0 && left - MS < shown <= left ==> (shown <= bound <==> left < bound + MS)
    ensures left / MS * MS > bound ==> left >= bound + MS
  {
  }

  /** No element, or somebody else's that reads. */
  predicate Untouched(e: Option<Element>, generation: string, at: int) {
    e.Some? ==> e.value.generation != generation && Live(e, at) && e.value.expiry - at >= MS
  }

  lemma MillisWithin(shown: int, ttl: int, maxTTL: int)
    requires shown % MS == 0 && 0 < shown <= ttl * SEC <= maxTTL
    ensures var millis := shown / MS; millis * MS == shown && 0 < millis <= ttl * 1000 && millis <= maxTTL / MS
    ensures ttl <= maxTTL / SEC
  {
  }

  predicate Live(e: Option<Element>, clock: int) { e.Some? && clock < e.value.expiry }

  /** The record holds what the old element showed when it was read. */
  predicate CapturedFrom(s: State, before: Option<Element>, readAt: int) {
    if HasPredecessor(s) then
      && s.previousExpiresAt.Some? && before.Some? && s.previousGeneration == before.value.generation
      && 0 < s.previousMillis <= s.ttl * 1000
      && before.value.expiry - readAt - MS < s.previousMillis * MS <= before.value.expiry - readAt
    else !Live(before, readAt) && s.previousGeneration == ""
  }

  /** The recorded wall-clock end of the predecessor is not before its real end. */
  predicate HorizonHolds(s: State, before: Option<Element>) {
    s.previousExpiresAt.Some? ==> before.Some? && s.previousExpiresAt.value > before.value.expiry - MS
  }

  lemma CapturedAccounts(s: State, before: Option<Element>, m: Moments)
    requires CapturedFrom(s, before, m.readAt) && m.readAt <= m.notedAt
    ensures Accounts(s, before, m, false)
  {
  }

  datatype Undone = Restored | Removed | AlreadyGone | Intact | Refused

  class Kernel {
    const target: string
    const maxTTL: int
    /** The wall clock agrees with the clock; otherwise it may show anything. */
    const steady: bool

    /** The next transaction fails without effect. */
    var fault: bool
    var clock: int
    var element: Option<Element>

    constructor (target: string, maxTTL: int, steady: bool)
      ensures this.target == target && this.maxTTL == maxTTL && this.steady == steady && element == None && !fault
    {
      this.target, this.maxTTL, this.steady := target, maxTTL, steady;
      clock, element, fault := 0, None, false;
    }

    method Pass()
      modifies `clock
      ensures clock >= old(clock)
    {
      var later: int := *;
      if later > clock { clock := later; }
    }

    method WallClock() returns (t: int)
      ensures steady ==> t == clock
    {
      t := *;
      if steady { t := clock; }
    }

    /** Show the element: its owner and its remaining time, in whole milliseconds. */
    method Read(smooth: bool) returns (r: Reading, ghost at: int)
      modifies `clock
      ensures old(clock) <= at <= clock
      ensures r.Missing? ==> !Live(element, at)
      ensures r.Shown? ==>
        && element.Some? && r.generation == element.value.generation && 0 < r.remaining <= maxTTL
        && r.remaining % MS == 0
        && element.value.expiry - at - MS < r.remaining <= element.value.expiry - at
      ensures smooth ==> !r.Failed?
      ensures r.Garbled? ==>
        Live(element, at) && (element.value.expiry - at < MS || (element.value.expiry - at) / MS * MS > maxTTL)
    {
      Pass();
      at := clock;
      var now := clock;
      Pass();
      var works: bool := *;
      if !smooth && !works { return Failed, at; }
      if element.None? || element.value.expiry <= now { return Missing, at; }
      var remaining := (element.value.expiry - now) / MS * MS;
      if remaining <= 0 || remaining > maxTTL { return Garbled, at; }
      return Shown(element.value.generation, remaining), at;
    }

    /** One transaction: create the key if needed, drop it, add it anew. It may commit and
        still report an error. */
    method Install(ttl: int, generation: string, smooth: bool) returns (ok: bool, ghost committed: Option<int>)
      modifies this
      ensures committed.None? ==> element == old(element) && !ok
      ensures committed.Some? ==>
        old(clock) <= committed.value <= clock && element == Some(Element(generation, committed.value + ttl * SEC))
      ensures smooth ==> (ok <==> !old(fault)) && (ok <==> committed.Some?)
      ensures !fault
      ensures ok ==> committed.Some?
      ensures clock >= old(clock)
    {
      Pass();
      ok, committed := *, None;
      var commits: bool := *;
      if smooth { ok, commits := !fault, false; }
      fault := false;
      if ok || commits {
        committed := Some(clock);
        element := Some(Element(generation, clock + ttl * SEC));
      }
      Pass();
    }

    method Delete(smooth: bool) returns (ok: bool)
      modifies this
      ensures ok ==> element == None
      ensures element == None || element == old(element)
      ensures smooth && !ok ==> !Live(element, clock)
      ensures clock >= old(clock)
    {
      Pass();
      ok := *;
      var works: bool := *;
      if (smooth || works) && Live(element, clock) {
        element := None;
        if smooth { ok := true; }
      } else {
        ok := false;
      }
      Pass();
    }

    /** Read the element that a refresh would replace, and refuse to shorten it. */
    method Capture(generation: string, ttl: int, smooth: bool)
      returns (refused: bool, recovery: State, capturedAt: int, ghost readAt: int)
      requires generation != "" && 1 <= ttl && ttl * SEC <= maxTTL
      modifies `clock
      ensures old(clock) <= readAt <= capturedAt <= clock
      ensures recovery.generation == generation && recovery.ttl == ttl
        && ValidState(recovery, target, generation, maxTTL)
      ensures !refused ==> CapturedFrom(recovery, element, readAt)
      ensures !refused ==> element.None? || element.value.expiry - readAt - MS < ttl * SEC
      ensures !refused && steady ==> HorizonHolds(recovery, element)
      ensures steady ==> capturedAt <= recovery.expiresAt - MUTATION_TIMEOUT - ttl * SEC <= clock
      ensures steady && !refused && recovery.previousExpiresAt.Some? ==>
        recovery.previousExpiresAt.value <= element.value.expiry + (clock - readAt)
      ensures smooth ==> (refused <==> !Refreshable(element, ttl, readAt))
      ensures recovery.previousGeneration != "" && !refused ==>
        element.Some? && element.value.generation == recovery.previousGeneration
    {
      var r;
      r, readAt := Read(smooth);
      Pass();
      capturedAt := clock;
      Pass();
      var wall := WallClock();
      recovery := State(target, generation, ttl, wall + MUTATION_TIMEOUT + ttl * SEC, "", 0, None);
      if element.Some? && r != Failed && r != Missing {
        WholeMillis(if r.Shown? then r.remaining else 0, element.value.expiry - readAt, ttl * SEC);
      }
      refused := r.Failed? || r.Garbled? || (r.Shown? && r.remaining > ttl * SEC);
      if r.Shown? && !refused {
        wall := WallClock();
        MillisWithin(r.remaining, ttl, maxTTL);
        recovery := recovery.(previousGeneration := r.generation, previousMillis := r.remaining / MS,
                              previousExpiresAt := Some(wall + r.remaining));
      }
    }

    /** Install or refresh the ban. When no call fails, it is committed exactly when it does
        not shorten what was read, and reported unless it is over by then. */
    method Apply(generation: string, ttl: int, smooth: bool) returns (ok: bool, state: Option<State>, ghost m: Moments)
      requires generation != "" && 1 <= ttl && ttl * SEC <= maxTTL
      modifies this
      ensures clock >= old(clock)
      ensures old(element).Some? && element != old(element) ==>
        element.Some? && element.value.expiry > old(element).value.expiry - MS
      ensures element != old(element) ==>
        m.committed.Some? && element == Some(Element(generation, m.committed.value + ttl * SEC))
      ensures smooth && !old(fault) ==> (m.committed.Some? <==> Refreshable(old(element), ttl, m.readAt))
      ensures smooth && m.committed.Some? ==>
        state.Some? && (ok <==> m.committed.value + ttl * SEC - m.seenAt >= MS)
      ensures m.committed.None? && smooth && !old(fault) ==> state.None? && !ok
      ensures old(clock) <= m.readAt <= clock && (m.committed.Some? ==> !fault)
      ensures m.committed.Some? ==>
        old(clock) <= m.readAt <= m.capturedAt <= m.committed.value <= m.seenAt <= m.notedAt <= clock
      ensures ok ==> state.Some? && m.committed.Some? && element.Some? && element.value.generation == generation
      ensures state.Some? ==>
        && ValidState(state.value, target, generation, maxTTL)
        && state.value.generation == generation && state.value.ttl == ttl
      ensures state.Some? ==> Accounts(state.value, old(element), m, ok)
      ensures ok && steady ==>
        element.value.expiry - MS < state.value.expiresAt <= element.value.expiry + (clock - m.seenAt)
      ensures smooth && old(fault) ==> !ok && m.committed.None? && element == old(element)
      ensures smooth && old(fault) && Untouched(old(element), generation, m.seenAt) ==> state.None?
      ensures ok ==> (HasPredecessor(state.value) && state.value.previousMillis == 0 <==> ResidueLost(m, ttl))
      ensures state.Some? && steady ==> HorizonHolds(state.value, old(element))
      ensures state.None? && (old(element).None? || old(element).value.generation != generation) ==>
        element == old(element) || !Live(element, m.seenAt)
    {
      hide Accounts, ValidState, HasPredecessor, CapturedFrom, HorizonHolds, ResidueLost;
      ok, state, m := false, None, Moments(clock, 0, clock, None, clock, 0, clock);
      var ready: bool := *;
      if !ready && !smooth { return; }
      ghost var readAt, seenAt, committed;
      var refused, recovery, capturedAt;
      refused, recovery, capturedAt, readAt := Capture(generation, ttl, smooth);
      m := m.(readAt := readAt);
      if refused { return; }
      var mutated;
      mutated, committed := Install(ttl, generation, smooth);
      var seen;
      seen, seenAt := Read(smooth);
      m := Moments(readAt, recovery.previousMillis * MS, capturedAt, committed, seenAt,
                   if seen.Shown? then seen.remaining else 0, clock);
      CapturedAccounts(recovery, old(element), m);
      if seen.Failed? || seen.Missing? {
        if !mutated && seen.Missing? && recovery.previousGeneration == "" { return; }
        return false, Some(recovery), m;
      }
      if seen.Garbled? { return false, Some(recovery), m; }
      if seen.generation != generation {
        if !mutated && seen.generation == recovery.previousGeneration { return; }
        return false, Some(recovery), m;
      }
      var settled;
      settled, m := Settle(recovery, capturedAt, seen.remaining, old(element), m);
      return mutated, Some(settled), m;
    }

    /** The refresh was seen: take from the predecessor what passed before its commit. */
    method Settle(recovery: State, capturedAt: int, shown: int, ghost before: Option<Element>, ghost m0: Moments)
      returns (settled: State, ghost m: Moments)
      requires ValidState(recovery, target, recovery.generation, maxTTL) && recovery.ttl >= 1
      requires capturedAt == m0.capturedAt && m0.notedAt == clock
      requires m0.captured == recovery.previousMillis * MS && m0.shown == shown
      requires CapturedFrom(recovery, before, m0.readAt)
      requires m0.committed.Some? ==>
        && m0.readAt <= m0.capturedAt <= m0.committed.value <= m0.seenAt <= clock
        && m0.committed.value + recovery.ttl * SEC - m0.seenAt - MS < shown
        && shown <= m0.committed.value + recovery.ttl * SEC - m0.seenAt
      modifies `clock
      ensures clock >= old(clock) && m == m0.(notedAt := m.notedAt) && m0.notedAt <= m.notedAt <= clock
      ensures ValidState(settled, target, recovery.generation, maxTTL)
      ensures settled.generation == recovery.generation && settled.ttl == recovery.ttl
      ensures HorizonHolds(recovery, before) ==> HorizonHolds(settled, before)
      ensures steady ==> old(clock) <= settled.expiresAt - shown <= clock
      ensures HasPredecessor(settled) && settled.previousMillis == 0 <==> ResidueLost(m, recovery.ttl)
      ensures Accounts(settled, before, m, true) && Accounts(settled, before, m, false)
    {
      settled, m := recovery, m0;
      if recovery.previousMillis > 0 {
        Pass();
        m := m0.(notedAt := clock);
        var left := PredecessorLeft(recovery.previousMillis * MS, clock - capturedAt, recovery.ttl * SEC, shown);
        if m.committed.Some? {
          LeftIsAccounted(before.value.expiry, m, recovery.ttl);
        }
        if left <= 0 {
          settled := settled.(previousGeneration := "", previousMillis := 0, previousExpiresAt := None);
        } else {
          settled := settled.(previousMillis := left / MS);
        }
      }
      var wall := WallClock();
      settled := settled.(expiresAt := wall + shown);
    }

    method Validate(s: State, generation: string) returns (valid: bool)
      ensures valid <==> ValidState(s, target, generation, maxTTL)
    {
      if s.target != target || (s.generation != "" && s.generation != generation) { return false; }
      if s.previousMillis < 0 || s.ttl < 0 || s.ttl > maxTTL / SEC || s.previousMillis > maxTTL / MS { return false; }
      if s.previousGeneration != "" && s.previousExpiresAt.None? && s.previousMillis <= 0 { return false; }
      return !(s.previousMillis > 0 && (s.ttl <= 0 || s.previousMillis > s.ttl * 1000));
    }

    /** Undo the ban of `generation`. What the element showed decides, and the wall clock
        where only it can; a failed call refuses. */
    method Rollback(s: State, generation: string, smooth: bool)
      returns (undone: Undone, ghost readAt: int, ghost wroteAt: int, ghost seen: Reading, ghost now: int,
        ghost wall: int)
      requires generation != ""
      modifies this
      ensures seen.Missing? ==> !Live(old(element), readAt)
      ensures seen.Shown? ==>
        && old(element).Some? && seen.generation == old(element).value.generation
        && old(element).value.expiry - readAt - MS < seen.remaining <= old(element).value.expiry - readAt
      ensures steady ==> now == old(clock) && readAt <= wall <= clock
      ensures !undone.Refused? ==>
        ValidState(s, target, generation, maxTTL) && Follows(s, generation, seen, now, wall, undone)
      ensures smooth && !old(fault) && ValidState(s, target, generation, maxTTL) ==>
        !seen.Failed? && Follows(s, generation, seen, now, wall, undone)
        && (undone.Refused? ==> !Restorable(s, seen, now, wall, maxTTL))
      ensures undone.Restored? ==>
        element == Some(Element(s.previousGeneration, wroteAt + CeilSeconds(LeftOf(s, seen.remaining, wall)) * SEC))
      ensures old(clock) <= readAt <= clock
      ensures undone.Restored? ==>
        && HasPredecessor(s) && old(element).Some? && element.Some? && element.value.generation == s.previousGeneration
        && (s.generation != "" ==> old(element).value.generation == generation)
        && readAt <= wroteAt <= clock
        && element.value.expiry < wroteAt + RestoredFor(s, old(element).value.expiry, readAt) + SEC
      ensures undone.Restored? && steady && old(element).value.expiry <= old(clock) + s.ttl * SEC ==>
        || element.value.expiry > wroteAt + RestoredFor(s, old(element).value.expiry, readAt) - MS
        || (s.previousExpiresAt.Some? && element.value.expiry >= s.previousExpiresAt.value)
      ensures undone.Removed? ==> element == None
      ensures undone.Removed? && HasPredecessor(s) && steady ==> old(element).Some?
      ensures (undone.Removed? && HasPredecessor(s) && steady
         && old(element).value.expiry <= old(clock) + s.ttl * SEC) ==>
        || ((s.generation != "" ==> old(element).value.generation == generation)
            && RestoredFor(s, old(element).value.expiry, readAt) < MS)
        || (s.previousExpiresAt.Some? && s.previousExpiresAt.value <= clock)
      ensures undone in {AlreadyGone, Intact} ==> element == old(element) || element == None
      ensures undone.Intact? ==> element.Some? && element.value.generation == s.previousGeneration
      ensures !ValidState(s, target, generation, maxTTL) ==> undone.Refused?
      ensures undone.Refused? && smooth ==> element == old(element)
      ensures s.generation != "" && old(element).Some? && old(element).value.generation != generation ==>
        element == old(element)
      ensures (smooth && !old(fault) && ValidState(s, target, generation, maxTTL)
         && Ours(s, generation, old(element), old(clock), readAt)) ==>
        (undone.Refused? <==> HasPredecessor(s) && s.previousMillis == 0)
    {
      hide LeftOf, Unproven, CeilSeconds;
      undone, readAt, wroteAt, seen, now, wall := Refused, clock, clock, Failed, clock, clock;
      var valid := Validate(s, generation);
      if !valid { return; }
      var started := WallClock();
      now := started;
      var r;
      r, readAt := Read(smooth);
      seen, wall := r, clock;
      if r.Missing? {
        undone := if HasPredecessor(s) then Refused else AlreadyGone;
        return;
      }
      if r.Failed? || r.Garbled? { return; }
      if HasPredecessor(s) && r.generation == s.previousGeneration {
        undone := Intact;
        return;
      }
      if s.generation == "" && r.generation != "" { return; }
      if s.generation == "" && r.generation == "" && started >= s.expiresAt { return; }
      if s.generation != "" && r.generation != generation { return; }
      if HasPredecessor(s) {
        var done;
        undone, done, wroteAt, wall := RestorePredecessor(s, r.remaining, readAt, smooth);
        if done { return; }
      }
      undone := RemoveElement(smooth);
    }

    /** Put the predecessor back for as long as it would still have lasted, by its record
        and by the wall clock; `done` unless nothing is left of it. */
    method RestorePredecessor(s: State, shown: int, ghost readAt: int, smooth: bool)
      returns (undone: Undone, done: bool, ghost wroteAt: int, ghost wall: int)
      requires HasPredecessor(s) && element.Some? && readAt <= clock
      requires 0 < shown && element.value.expiry - readAt - MS < shown <= element.value.expiry - readAt
      modifies this
      ensures clock >= old(clock) && (done ==> undone in {Restored, Refused})
      ensures steady ==> wall == old(clock)
      ensures Unproven(s, shown) ==> done && undone.Refused?
      ensures LeftOf(s, shown, wall) > 0 && LeftOf(s, shown, wall) > maxTTL ==> done && undone.Refused?
      ensures !Unproven(s, shown) ==> (done <==> LeftOf(s, shown, wall) > 0)
      ensures smooth && !old(fault) && !Unproven(s, shown) && 0 < LeftOf(s, shown, wall) <= maxTTL ==> undone.Restored?
      ensures done && undone.Restored? ==>
        element == Some(Element(s.previousGeneration, wroteAt + CeilSeconds(LeftOf(s, shown, wall)) * SEC))
      ensures !done || (undone.Refused? && smooth) ==> element == old(element)
      ensures undone.Restored? && done ==>
        && element.Some? && element.value.generation == s.previousGeneration && readAt <= wroteAt <= clock
        && element.value.expiry < wroteAt + RestoredFor(s, old(element).value.expiry, readAt) + SEC
      ensures undone.Restored? && done && steady && old(element).value.expiry <= readAt + s.ttl * SEC ==>
        || element.value.expiry > wroteAt + RestoredFor(s, old(element).value.expiry, readAt) - MS
        || (s.previousExpiresAt.Some? && element.value.expiry >= s.previousExpiresAt.value)
      ensures !done && steady && old(element).value.expiry <= readAt + s.ttl * SEC ==>
        || RestoredFor(s, old(element).value.expiry, readAt) < MS
        || (s.previousExpiresAt.Some? && s.previousExpiresAt.value <= clock)
      ensures (smooth && !old(fault) && ValidState(s, s.target, s.generation, maxTTL)
         && old(element).value.expiry <= readAt + s.ttl * SEC) ==>
        (done && undone.Refused? <==> s.previousMillis == 0)
    {
      undone, done, wroteAt := Refused, true, clock;
      var now := WallClock();
      wall := now;
      var left := Reckon(s, shown, now);
      if left.None? { return; }
      if left.value <= 0 {
        undone, done := Removed, false;
        return;
      }
      if left.value > maxTTL { return; }
      hide LeftOf, Unproven;
      ghost var committed;
      var ok;
      ok, committed := Install(CeilSeconds(left.value), s.previousGeneration, smooth);
      if !ok { return; }
      undone, wroteAt := Restored, committed.value;
    }

    /** What is left of the predecessor, if the record and the element prove it. */
    method Reckon(s: State, shown: int, now: int) returns (left: Option<int>)
      requires 0 < shown
      ensures left == if Unproven(s, shown) then None else Some(LeftOf(s, shown, now))
    {
      if s.previousMillis <= 0 || s.ttl <= 0 { return None; }
      var elapsed := s.ttl * SEC - shown;
      if elapsed < -SEC || elapsed > s.ttl * SEC { return None; }
      if elapsed < 0 { elapsed := 0; }
      var remaining := s.previousMillis * MS - elapsed;
      if s.previousExpiresAt.Some? && s.previousExpiresAt.value - now < remaining {
        remaining := s.previousExpiresAt.value - now;
      }
      return Some(remaining);
    }

    method RemoveElement(smooth: bool) returns (undone: Undone)
      modifies this
      ensures clock >= old(clock) && undone in {Removed, AlreadyGone, Refused}
      ensures undone.Removed? ==> element == None
      ensures element == None || element == old(element)
      ensures smooth ==> !undone.Refused?
      ensures undone.Refused? && smooth ==> element == old(element)
    {
      var deleted := Delete(smooth);
      if deleted { return Removed; }
      var r;
      ghost var at;
      r, at := Read(smooth);
      return if r.Missing? then AlreadyGone else Refused;
    }

    /** Refresh somebody else's ban and roll it back, whatever the wall clock says. The
        predecessor is back with its owner, and lasts longer than it would have only by
        the time between reading and writing, twice, and the rounding to a second. If the
        refresh succeeded and the wall clock is steady it does not end early either, and it
        is only left out when it is over. */
    method RefreshThenRollBack(generation: string, ttl: int, smooth: bool)
      returns (undone: Undone, ghost seen: bool, ghost m: Moments, ghost readAt: int, ghost wroteAt: int)
      requires generation != "" && 1 <= ttl && ttl * SEC <= maxTTL
      requires element.Some? && element.value.generation != generation
      modifies this
      ensures undone.Restored? ==>
        && m.committed.Some? && element.Some? && element.value.generation == old(element).value.generation
        && element.value.expiry <
             old(element).value.expiry + (m.committed.value - m.readAt) + (wroteAt - readAt) + MS + SEC
        && (steady && seen ==> element.value.expiry > old(element).value.expiry - (m.notedAt - m.seenAt) - 3 * MS)
      ensures undone.Removed? && steady && seen ==> old(element).value.expiry < clock + (m.notedAt - m.seenAt) + 3 * MS
      ensures smooth && !old(fault) ==> (m.committed.Some? <==> Refreshable(old(element), ttl, m.readAt))
      ensures smooth && m.committed.Some? ==> (seen <==> m.committed.value + ttl * SEC - m.seenAt >= MS)
      ensures smooth && seen ==> m.committed.Some?
      ensures smooth && seen && m.committed.value + ttl * SEC - readAt >= MS ==>
        (undone.Refused? <==> ResidueLost(m, ttl))
    {
      hide Accounts, ValidState;
      ghost var before := element;
      var ok, state;
      ok, state, m := Apply(generation, ttl, smooth);
      readAt, wroteAt := clock, clock;
      seen := ok;
      if state.None? { return Refused, seen, m, readAt, wroteAt; }
      PredecessorIsOther(state.value, before, m, ok, target, generation, maxTTL);
      ghost var shown, now, wall;
      undone, readAt, wroteAt, shown, now, wall := Rollback(state.value, generation, smooth);
      if undone.Restored? || (undone.Removed? && ok) { RestoredInTime(state.value, before, m, ok, readAt); }
    }
  }

  /** The record and what the element shows do not prove what is left of the predecessor. */
  predicate Unproven(s: State, shown: int) {
    s.previousMillis <= 0 || s.ttl <= 0 || shown < 0 || shown > (s.ttl + 1) * SEC
  }

  /** What is left of the predecessor, by the age of the element that replaced it and by
      the wall clock. */
  function LeftOf(s: State, shown: int, wall: int): int {
    var age := if shown < s.ttl * SEC then s.ttl * SEC - shown else 0;
    var byAge := s.previousMillis * MS - age;
    if s.previousExpiresAt.Some? && s.previousExpiresAt.value - wall <= byAge
    then s.previousExpiresAt.value - wall
    else byAge
  }

  /** There is a predecessor left to restore, and nothing stands against it. */
  predicate Restorable(s: State, seen: Reading, now: int, wall: int, maxTTL: int) {
    && seen.Shown? && HasPredecessor(s) && seen.generation == s.generation != s.previousGeneration
    && (s.generation == "" ==> now < s.expiresAt)
    && !Unproven(s, seen.remaining) && 0 < LeftOf(s, seen.remaining, wall) <= maxTTL
  }

  /** How a rollback ends, given what it saw of the element. */
  ghost predicate Follows(s: State, generation: string, seen: Reading, now: int, wall: int, undone: Undone) {
    match seen
    case Missing => undone == if HasPredecessor(s) then Refused else AlreadyGone
    case Failed => undone.Refused?
    case Garbled => undone.Refused?
    case Shown(owner, remaining) =>
      if HasPredecessor(s) && owner == s.previousGeneration then undone.Intact?
      else if owner != s.generation then undone.Refused?
      else if s.generation == "" && s.expiresAt <= now then undone.Refused?
      else if !HasPredecessor(s) then undone in {Removed, AlreadyGone}
      else if Unproven(s, remaining) then undone.Refused?
      else if LeftOf(s, remaining, wall) <= 0 then undone in {Removed, AlreadyGone}
      else undone in {Restored, Refused}
  }

  lemma PredecessorIsOther(s: State, before: Option<Element>, m: Moments, seen: bool, target: string,
      generation: string, maxTTL: int)
    requires Accounts(s, before, m, seen) && s.generation == generation != ""
    requires ValidState(s, target, generation, maxTTL)
    requires before.Some? ==> before.value.generation != generation
    ensures m.committed.Some? ==> s.previousGeneration != generation
  {
  }

  /** The element still is the one that the state describes, and readable. */
  ghost predicate Ours(s: State, generation: string, e: Option<Element>, clock: int, readAt: int) {
    && e.Some? && s.generation == generation == e.value.generation && generation != s.previousGeneration
    && e.value.expiry <= clock + s.ttl * SEC && e.value.expiry - readAt >= MS
  }

  /** How long the predecessor may still last: what was recorded, less the age of the
      element that replaced it. */
  ghost function RestoredFor(s: State, expiry: int, readAt: int): int {
    s.previousMillis * MS - (readAt - (expiry - s.ttl * SEC))
  }

  lemma RestoredInTime(s: State, before: Option<Element>, m: Moments, seen: bool, readAt: int)
    requires Accounts(s, before, m, seen) && m.committed.Some?
    ensures var left := readAt + RestoredFor(s, m.committed.value + s.ttl * SEC, readAt);
            if HasPredecessor(s) then
              && before.Some? && s.previousGeneration == before.value.generation
              && left <= before.value.expiry + (m.committed.value - m.readAt)
              && (seen ==> left > before.value.expiry - (m.notedAt - m.seenAt) - 2 * MS)
            else before.Some? ==> before.value.expiry <= m.notedAt + MS
  {
  }
}
