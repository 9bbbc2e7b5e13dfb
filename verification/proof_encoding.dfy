/**
 The messages that a device signs. Fields are written one after the other, each after its
 length in four bytes, so that a message has exactly one reading.
 */
module ProofEncoding {
  import opened Prelude

  type Byte = n: int | 0 <= n < 256

  type Bytes = seq<Byte>

  const MAX_UINT32: nat := 0xffff_ffff

  // ---------------------------------------------------------------------------
  // Length-prefixed fields
  // ---------------------------------------------------------------------------

  /** Four bytes, most significant first. */
  function BigEndian(n: nat): (b: Bytes)
    requires n <= MAX_UINT32
    ensures |b| == 4
  {
    var high := n / 256 / 256;
    [high / 256, high % 256, n / 256 % 256, n % 256]
  }

  function FromBigEndian(b: Bytes): nat
    requires |b| == 4
  {
    ((b[0] as int * 256 + b[1] as int) * 256 + b[2] as int) * 256 + b[3] as int
  }

  lemma BigEndianBack(n: nat)
    requires n <= MAX_UINT32
    ensures FromBigEndian(BigEndian(n)) == n
  {
  }

  predicate Encodable(fields: seq<Bytes>) { forall i | 0 <= i < |fields| :: |fields[i]| <= MAX_UINT32 }

  function Encoded(fields: seq<Bytes>): Bytes
    requires Encodable(fields)
  {
    if fields == [] then [] else BigEndian(|fields[0]|) + fields[0] + Encoded(fields[1..])
  }

  /** The only way to read a message. */
  function Decoded(message: Bytes): Option<seq<Bytes>>
    decreases |message|
  {
    if message == [] then Some([])
    else if |message| < 4 || |message| < 4 + FromBigEndian(message[..4]) then None
    else
      var end := 4 + FromBigEndian(message[..4]);
      var later := Decoded(message[end..]);
      if later.None? then None else Some([message[4..end]] + later.value)
  }

  /** Decoding is a left inverse of encoding, on every list of fields that can be encoded. */
  lemma {:induction false} EncodeThenDecode(fields: seq<Bytes>)
    requires Encodable(fields)
    ensures Decoded(Encoded(fields)) == Some(fields)
  {
    if fields != [] {
      var length, rest := BigEndian(|fields[0]|), Encoded(fields[1..]);
      var message := length + fields[0] + rest;
      BigEndianBack(|fields[0]|);
      assert message[..4] == length;
      assert message[4..4 + |fields[0]|] == fields[0];
      assert message[4 + |fields[0]|..] == rest;
      EncodeThenDecode(fields[1..]);
      assert fields == [fields[0]] + fields[1..];
    }
  }

  lemma EncodedAppend(fields: seq<Bytes>, last: Bytes)
    requires Encodable(fields) && |last| <= MAX_UINT32
    ensures Encodable(fields + [last]) && Encoded(fields + [last]) == Encoded(fields) + (BigEndian(|last|) + last)
  {
    if fields == [] {
      assert Encoded([last]) == BigEndian(|last|) + last + Encoded([]);
      assert [] + [last] == [last];
    } else {
      EncodedAppend(fields[1..], last);
      assert (fields + [last])[1..] == fields[1..] + [last];
    }
  }

  method EncodeLengthPrefixedFields(fields: seq<Bytes>) returns (r: Option<Bytes>)
    ensures r.Some? <==> Encodable(fields)
    ensures r.Some? ==> r.value == Encoded(fields) && Decoded(r.value) == Some(fields)
  {
    var out: Bytes := [];
    for i := 0 to |fields|
      invariant Encodable(fields[..i]) && out == Encoded(fields[..i])
    {
      if |fields[i]| > MAX_UINT32 { return None; }
      EncodedAppend(fields[..i], fields[i]);
      assert fields[..i + 1] == fields[..i] + [fields[i]];
      out := out + BigEndian(|fields[i]|);
      out := out + fields[i];
    }
    assert fields[..|fields|] == fields;
    EncodeThenDecode(fields);
    return Some(out);
  }

  // ---------------------------------------------------------------------------
  // Times
  // ---------------------------------------------------------------------------

  /** An instant by its calendar fields in UTC. */
  datatype Time = Time(year: nat, month: nat, day: nat, hour: nat, minute: nat, second: nat, nano: nat) {
    predicate Wellformed() {
      year < 10000 && month < 100 && day < 100 && hour < 100 && minute < 100 && second < 100 && nano < Pow10(9)
    }
  }

  function Pow10(k: nat): nat { if k == 0 then 1 else 10 * Pow10(k - 1) }

  function DigitOf(n: nat): char { ('0' as int + n % 10) as char }

  /** Exactly `k` digits. */
  function Padded(n: nat, k: nat): (s: string)
    ensures |s| == k
  {
    if k == 0 then "" else Padded(n / 10, k - 1) + [DigitOf(n)]
  }

  function ValueOf(s: string): int {
    if s == "" then 0 else ValueOf(s[..|s| - 1]) * 10 + (s[|s| - 1] as int - '0' as int)
  }

  lemma {:induction false} ValueOfPadded(n: nat, k: nat)
    requires n < Pow10(k)
    ensures ValueOf(Padded(n, k)) == n
  {
    if k > 0 {
      ValueOfPadded(n / 10, k - 1);
      assert Padded(n, k)[..k - 1] == Padded(n / 10, k - 1);
    }
  }

  /** `n` in `k` decimal places, without trailing zeros. */
  function Fraction(n: nat, k: nat): (s: string)
    ensures |s| <= k
  {
    if n == 0 || k == 0 then "" else if n % 10 == 0 then Fraction(n / 10, k - 1) else Padded(n, k)
  }

  lemma {:induction false} ValueOfFraction(n: nat, k: nat)
    requires n < Pow10(k)
    ensures ValueOf(Fraction(n, k)) * Pow10(k - |Fraction(n, k)|) == n
  {
    if n != 0 && k != 0 {
      if n % 10 == 0 {
        ValueOfFraction(n / 10, k - 1);
        var f := Fraction(n / 10, k - 1);
        var v, p := ValueOf(f), Pow10(k - 1 - |f|);
        assert Pow10(k - |f|) == 10 * p;
        assert v * (10 * p) == 10 * (v * p);
      } else {
        ValueOfPadded(n, k);
      }
    }
  }

  /** Section 5.6 of RFC 3339, in UTC, with as many fraction digits as needed. */
  function Rendered(t: Time): string {
    Date(t) + ("T" + Clock(t)) + Tail(t.nano)
  }

  function Date(t: Time): string { Padded(t.year, 4) + "-" + Padded(t.month, 2) + "-" + Padded(t.day, 2) }

  function Clock(t: Time): string { Padded(t.hour, 2) + ":" + Padded(t.minute, 2) + ":" + Padded(t.second, 2) }

  lemma SamePadded(a: nat, b: nat, k: nat)
    requires a < Pow10(k) && b < Pow10(k) && Padded(a, k) == Padded(b, k)
    ensures a == b
  {
    ValueOfPadded(a, k);
    ValueOfPadded(b, k);
  }

  function Tail(nano: nat): string { (if nano == 0 then "" else "." + Fraction(nano, 9)) + "Z" }

  lemma Parts(t: Time)
    ensures var s := Rendered(t);
            |s| >= 19 && s[..10] == Date(t) && s[11..19] == Clock(t) && s[19..] == Tail(t.nano)
  {
    hide Padded, Fraction, Tail;
  }

  lemma DateDetermines(t: Time, u: Time)
    requires t.Wellformed() && u.Wellformed() && Date(t) == Date(u)
    ensures t.year == u.year && t.month == u.month && t.day == u.day
  {
    hide Padded;
    var d, e := Date(t), Date(u);
    assert d[..4] == Padded(t.year, 4) && d[5..7] == Padded(t.month, 2) && d[8..] == Padded(t.day, 2);
    assert e[..4] == Padded(u.year, 4) && e[5..7] == Padded(u.month, 2) && e[8..] == Padded(u.day, 2);
    Powers();
    SamePadded(t.year, u.year, 4);
    SamePadded(t.month, u.month, 2);
    SamePadded(t.day, u.day, 2);
  }

  lemma ClockDetermines(t: Time, u: Time)
    requires t.Wellformed() && u.Wellformed() && Clock(t) == Clock(u)
    ensures t.hour == u.hour && t.minute == u.minute && t.second == u.second
  {
    hide Padded;
    var c, d := Clock(t), Clock(u);
    assert c[..2] == Padded(t.hour, 2) && c[3..5] == Padded(t.minute, 2) && c[6..] == Padded(t.second, 2);
    assert d[..2] == Padded(u.hour, 2) && d[3..5] == Padded(u.minute, 2) && d[6..] == Padded(u.second, 2);
    Powers();
    SamePadded(t.hour, u.hour, 2);
    SamePadded(t.minute, u.minute, 2);
    SamePadded(t.second, u.second, 2);
  }

  lemma SameTail(a: nat, b: nat)
    requires a < Pow10(9) && b < Pow10(9) && Tail(a) == Tail(b)
    ensures a == b
  {
    var s, t := Tail(a), Tail(b);
    ValueOfFraction(a, 9);
    ValueOfFraction(b, 9);
    assert a != 0 ==> s[1..|s| - 1] == Fraction(a, 9);
    assert b != 0 ==> t[1..|t| - 1] == Fraction(b, 9);
    assert a == 0 ==> s[0] == 'Z';
    assert b == 0 ==> t[0] == 'Z';
  }

  /** A rendered time determines the time. */
  lemma RenderedDetermines(t: Time, u: Time)
    requires t.Wellformed() && u.Wellformed() && Rendered(t) == Rendered(u)
    ensures t == u
  {
    hide Date, Clock, Rendered, Tail;
    Parts(t);
    Parts(u);
    DateDetermines(t, u);
    ClockDetermines(t, u);
    SameTail(t.nano, u.nano);
  }

  lemma Powers()
    ensures Pow10(2) == 100 && Pow10(4) == 10000
  {
  }

  // ---------------------------------------------------------------------------
  // Messages
  // ---------------------------------------------------------------------------

  function Text(s: string): (b: Bytes)
    ensures |b| == |s|
  {
    seq(|s|, i requires 0 <= i < |s| => s[i] as int % 256)
  }

  /** Events are signed with every field that automatic defense relies on. */
  datatype Event = Event(id: Bytes, kind: Bytes, source: Bytes, occurredAt: Time, payload: Bytes)

  datatype Proof =
    | Enrollment(challengeId: Bytes, challenge: Bytes, token: Bytes, name: Bytes, hostname: Bytes, os: Bytes,
                 arch: Bytes, version: Bytes, publicKey: Bytes, scanInterval: Bytes, observer: bool)
    | AgentRequest(device: Bytes, verb: Bytes, uri: Bytes, timestamp: Bytes, nonce: Bytes, body: Bytes)
    | CommandResult(device: Bytes, command: Bytes, ok: bool, result: Bytes, rollback: Bytes, audit: Bytes, error: Bytes)
    | EventBatch(device: Bytes, events: seq<Event>)

  const ENROLLMENT: string := "witshield-enrollment-proof-v1"
  const AGENT_REQUEST: string := "witshield-agent-request-v1"
  const COMMAND_RESULT: string := "witshield-command-result-v1"
  const EVENT_BATCH: string := "witshield-security-event-batch-v1"

  function Flag(b: bool): Bytes { [if b then 1 else 0] }

  function EventFields(events: seq<Event>): seq<Bytes> {
    if events == [] then []
    else
      var e := events[0];
      [e.id, e.kind, e.source, Text(Rendered(e.occurredAt)), e.payload] + EventFields(events[1..])
  }

  /** A digest that determines what it is a digest of stands for SHA-256. */
  ghost predicate Digesting(sha: Bytes -> Bytes) { forall a, b :: sha(a) == sha(b) ==> a == b }

  predicate Countable(p: Proof) { p.EventBatch? ==> |p.events| <= MAX_UINT32 }

  predicate Dated(p: Proof) { p.EventBatch? ==> forall i | 0 <= i < |p.events| :: p.events[i].occurredAt.Wellformed() }

  /** The fields under the signature. */
  function FieldsOf(p: Proof, sha: Bytes -> Bytes): seq<Bytes>
    requires Countable(p)
  {
    match p
    case Enrollment(challengeId, challenge, token, name, hostname, os, arch, version, key, scanInterval, observer) =>
      [Text(ENROLLMENT), challengeId, challenge, sha(token), name, hostname, os, arch, version, key, scanInterval,
       Flag(observer)]
    case AgentRequest(device, verb, uri, timestamp, nonce, body) =>
      [Text(AGENT_REQUEST), device, verb, uri, timestamp, nonce, sha(body)]
    case CommandResult(device, command, ok, result, rollback, audit, error) =>
      [Text(COMMAND_RESULT), device, command, Flag(ok), result, rollback, audit, error]
    case EventBatch(device, events) =>
      [Text(EVENT_BATCH), device, BigEndian(|events|)] + EventFields(events)
  }

  /** Collect the fields of a batch event by event. */
  method SecurityEventBatchMessage(device: Bytes, events: seq<Event>, sha: Bytes -> Bytes) returns (r: Option<Bytes>)
    ensures var p := EventBatch(device, events);
            r.Some? <==> Countable(p) && Encodable(FieldsOf(p, sha))
    ensures r.Some? ==> Decoded(r.value) == Some(FieldsOf(EventBatch(device, events), sha))
  {
    if |events| > MAX_UINT32 { return None; }
    var start := [Text(EVENT_BATCH), device, BigEndian(|events|)];
    var fields := start;
    for i := 0 to |events|
      invariant fields + EventFields(events[i..]) == start + EventFields(events)
    {
      var e := events[i];
      assert events[i..][0] == e && events[i..][1..] == events[i + 1..];
      fields := fields + [e.id, e.kind, e.source, Text(Rendered(e.occurredAt)), e.payload];
    }
    assert fields == start + EventFields(events);
    r := EncodeLengthPrefixedFields(fields);
  }

  lemma TextDetermines(s: string, t: string)
    requires Text(s) == Text(t)
    requires (forall i | 0 <= i < |s| :: s[i] as int < 256) && forall i | 0 <= i < |t| :: t[i] as int < 256
    ensures s == t
  {
    forall i | 0 <= i < |s| ensures s[i] == t[i] { assert Text(s)[i] == Text(t)[i]; }
  }

  lemma {:induction false} PaddedIsAscii(n: nat, k: nat)
    ensures forall i | 0 <= i < k :: Padded(n, k)[i] as int < 256
  {
    if k > 0 { PaddedIsAscii(n / 10, k - 1); }
  }

  lemma {:induction false} FractionIsAscii(n: nat, k: nat)
    ensures forall i | 0 <= i < |Fraction(n, k)| :: Fraction(n, k)[i] as int < 256
  {
    if n != 0 && k != 0 {
      if n % 10 == 0 { FractionIsAscii(n / 10, k - 1); } else { PaddedIsAscii(n, k); }
    }
  }

  predicate Ascii(s: string) { forall i | 0 <= i < |s| :: s[i] as int < 256 }

  lemma AsciiAppend(s: string, t: string)
    requires Ascii(s) && Ascii(t)
    ensures Ascii(s + t)
  {
  }

  lemma RenderedIsAscii(t: Time)
    ensures Ascii(Rendered(t))
  {
    PaddedIsAscii(t.year, 4);
    PaddedIsAscii(t.month, 2);
    PaddedIsAscii(t.day, 2);
    PaddedIsAscii(t.hour, 2);
    PaddedIsAscii(t.minute, 2);
    PaddedIsAscii(t.second, 2);
    FractionIsAscii(t.nano, 9);
    hide Padded, Fraction;
  }

  lemma {:induction false} SameEvents(a: seq<Event>, b: seq<Event>)
    requires |a| == |b| && EventFields(a) == EventFields(b)
    requires forall i | 0 <= i < |a| :: a[i].occurredAt.Wellformed() && b[i].occurredAt.Wellformed()
    ensures a == b
  {
    hide Rendered, Text;
    if a != [] {
      var x, y := EventFields(a), EventFields(b);
      assert x[0] == y[0] && x[1] == y[1] && x[2] == y[2] && x[3] == y[3] && x[4] == y[4];
      assert x[5..] == EventFields(a[1..]) && y[5..] == EventFields(b[1..]);
      SameEvents(a[1..], b[1..]);
      RenderedIsAscii(a[0].occurredAt);
      RenderedIsAscii(b[0].occurredAt);
      TextDetermines(Rendered(a[0].occurredAt), Rendered(b[0].occurredAt));
      RenderedDetermines(a[0].occurredAt, b[0].occurredAt);
      assert a == [a[0]] + a[1..] && b == [b[0]] + b[1..];
    }
  }

  /** The first field tells the four kinds of message apart. */
  lemma KindsDiffer()
    ensures Text(ENROLLMENT) != Text(AGENT_REQUEST) && Text(ENROLLMENT) != Text(COMMAND_RESULT)
    ensures Text(ENROLLMENT) != Text(EVENT_BATCH) && Text(AGENT_REQUEST) != Text(COMMAND_RESULT)
    ensures Text(AGENT_REQUEST) != Text(EVENT_BATCH) && Text(COMMAND_RESULT) != Text(EVENT_BATCH)
  {
    assert Text(ENROLLMENT)[10] == 'e' as int && Text(AGENT_REQUEST)[10] == 'a' as int;
    assert Text(COMMAND_RESULT)[10] == 'c' as int && Text(EVENT_BATCH)[10] == 's' as int;
  }

  /** One message, one proof: whatever of the four kinds it is, a signed message determines
      its kind and every field. */
  lemma MessageDetermines(p: Proof, q: Proof, sha: Bytes -> Bytes)
    requires Countable(p) && Countable(q) && Dated(p) && Dated(q) && Digesting(sha)
    requires Encodable(FieldsOf(p, sha)) && Encodable(FieldsOf(q, sha))
    requires Encoded(FieldsOf(p, sha)) == Encoded(FieldsOf(q, sha))
    ensures p == q
  {
    hide Text, Encoded, Decoded;
    var f, g := FieldsOf(p, sha), FieldsOf(q, sha);
    EncodeThenDecode(f);
    EncodeThenDecode(g);
    assert f == g && f[0] == g[0];
    KindsDiffer();
    if p.EventBatch? {
      assert f[2] == g[2];
      BigEndianBack(|p.events|);
      BigEndianBack(|q.events|);
      assert f[3..] == EventFields(p.events) && g[3..] == EventFields(q.events);
      SameEvents(p.events, q.events);
      assert f[1] == g[1];
    } else {
      SameAlone(p, q, sha);
    }
  }

  lemma SameAlone(p: Proof, q: Proof, sha: Bytes -> Bytes)
    requires Countable(p) && Countable(q) && !p.EventBatch? && Digesting(sha)
    requires FieldsOf(p, sha) == FieldsOf(q, sha)
    ensures p == q
  {
    hide Text;
    KindsDiffer();
    var f, g := FieldsOf(p, sha), FieldsOf(q, sha);
    assert f[0] == g[0];
    match p {
      case Enrollment(_, _, _, _, _, _, _, _, _, _, _) =>
        assert f[1] == g[1] && f[2] == g[2] && f[3] == g[3] && f[4] == g[4] && f[5] == g[5] && f[6] == g[6];
        assert f[7] == g[7] && f[8] == g[8] && f[9] == g[9] && f[10] == g[10] && f[11][0] == g[11][0];
      case AgentRequest(_, _, _, _, _, _) =>
        assert f[1] == g[1] && f[2] == g[2] && f[3] == g[3] && f[4] == g[4] && f[5] == g[5] && f[6] == g[6];
      case CommandResult(_, _, _, _, _, _, _) =>
        assert f[1] == g[1] && f[2] == g[2] && f[3][0] == g[3][0] && f[4] == g[4] && f[5] == g[5] && f[6] == g[6]
          && f[7] == g[7];
      case EventBatch(_, _) =>
    }
  }
}
