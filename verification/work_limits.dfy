/**
 A sliding-window budget of weighted work: each admission costs something to one device
 and to the whole Controller, and both budgets are taken at once. The clock never runs
 backwards.
 */
module WorkLimits {
  import opened Prelude

  const MINUTE: int := 60_000_000_000

  datatype Attempt = Attempt(at: int, cost: int)

  /** An admission, with the limits that were in force. */
  datatype Entry = Entry(device: string, at: int, cost: int, deviceLimit: int, globalLimit: int)

  const GLOBAL: string := "global"

  function DeviceKey(device: string): string { "device:" + device }

  /** The table key of one device, or of all of them. */
  function KeyOf(who: Option<string>): string {
    match who
    case None => GLOBAL
    case Some(device) => DeviceKey(device)
  }

  lemma DeviceKeyIsNotGlobal(device: string)
    ensures DeviceKey(device) != GLOBAL && DeviceKey(device)[7..] == device
  {
    assert DeviceKey(device)[0] == 'd';
  }

  lemma KeysDiffer(a: Option<string>, b: Option<string>)
    requires KeyOf(a) == KeyOf(b)
    ensures a == b
  {
    if a.Some? { DeviceKeyIsNotGlobal(a.value); }
    if b.Some? { DeviceKeyIsNotGlobal(b.value); }
  }

  /** The attempts after `cut`, in order. */
  function Alive(s: seq<Attempt>, cut: int): seq<Attempt> {
    if s == [] then []
    else Alive(s[..|s| - 1], cut) + if s[|s| - 1].at > cut then [s[|s| - 1]] else []
  }

  function Cost(s: seq<Attempt>): int {
    if s == [] then 0 else Cost(s[..|s| - 1]) + s[|s| - 1].cost
  }

  /** The admissions of one device, or all of them. */
  function Admitted(log: seq<Entry>, who: Option<string>): seq<Attempt> {
    if log == [] then []
    else
      var e := log[|log| - 1];
      Admitted(log[..|log| - 1], who) + if who == None || who == Some(e.device) then [Attempt(e.at, e.cost)] else []
  }

  /** What was admitted in the window of the given length that ends at `t`. */
  function Spent(log: seq<Entry>, who: Option<string>, window: int, t: int): int {
    if log == [] then 0
    else
      var e := log[|log| - 1];
      Spent(log[..|log| - 1], who, window, t)
      + if (who == None || who == Some(e.device)) && t - window < e.at <= t then e.cost else 0
  }

  function Limit(e: Entry, who: Option<string>): int { if who == None then e.globalLimit else e.deviceLimit }

  predicate Concerns(e: Entry, who: Option<string>) { who == None || who == Some(e.device) }

  ghost predicate Ordered(log: seq<Entry>, clock: int) {
    && (forall i, j | 0 <= i < j < |log| :: log[i].at <= log[j].at)
    && UpTo(log, clock)
  }

  ghost predicate UpTo(log: seq<Entry>, clock: int) {
    forall i | 0 <= i < |log| :: log[i].at <= clock && log[i].cost > 0
  }

  /** Each admission respected its limits in the window that it ended. */
  ghost predicate Respected(log: seq<Entry>, window: int) {
    forall i, who | 0 <= i < |log| && Concerns(log[i], who) ::
      Spent(log[..i + 1], who, window, log[i].at) <= Limit(log[i], who)
  }

  // ---------------------------------------------------------------------------
  // Windows
  // ---------------------------------------------------------------------------

  lemma {:induction false} AliveAlive(s: seq<Attempt>, cut: int, later: int)
    requires cut <= later
    ensures Alive(Alive(s, cut), later) == Alive(s, later)
  {
    if s != [] {
      var a, last := Alive(s[..|s| - 1], cut), s[|s| - 1];
      AliveAlive(s[..|s| - 1], cut, later);
      if last.at > cut {
        assert (a + [last])[..|a|] == a;
      } else {
        assert a + [] == a;
      }
    }
  }

  lemma AliveMore(s: seq<Attempt>, a: Attempt, cut: int)
    ensures Alive(s + [a], cut) == Alive(s, cut) + if a.at > cut then [a] else []
  {
    assert (s + [a])[..|s|] == s;
  }

  lemma AdmittedMore(log: seq<Entry>, e: Entry, who: Option<string>)
    ensures Admitted(log + [e], who) == Admitted(log, who) + if Concerns(e, who) then [Attempt(e.at, e.cost)] else []
  {
    assert (log + [e])[..|log|] == log;
  }

  lemma CostMore(s: seq<Attempt>, a: Attempt)
    ensures Cost(s + [a]) == Cost(s) + a.cost
  {
    assert (s + [a])[..|s|] == s;
  }

  lemma SpentMore(log: seq<Entry>, e: Entry, who: Option<string>, window: int, t: int)
    ensures Spent(log + [e], who, window, t) ==
            Spent(log, who, window, t) + if Concerns(e, who) && t - window < e.at <= t then e.cost else 0
  {
    assert (log + [e])[..|log|] == log;
  }

  lemma AliveCostMore(log: seq<Entry>, e: Entry, who: Option<string>, cut: int)
    ensures Cost(Alive(Admitted(log + [e], who), cut)) ==
            Cost(Alive(Admitted(log, who), cut)) + if Concerns(e, who) && e.at > cut then e.cost else 0
  {
    hide Spent, Alive, Cost, Admitted;
    var s, a := Admitted(log, who), Attempt(e.at, e.cost);
    AdmittedMore(log, e, who);
    if Concerns(e, who) {
      AliveMore(s, a, cut);
      CostMore(Alive(s, cut), a);
      assert Alive(s, cut) + [] == Alive(s, cut);
    } else {
      assert s + [] == s;
    }
  }

  /** What the table still holds at `now` is what was spent in the window ending there. */
  lemma {:induction false} SpentIsAlive(log: seq<Entry>, who: Option<string>, window: int, now: int)
    requires UpTo(log, now)
    ensures Spent(log, who, window, now) == Cost(Alive(Admitted(log, who), now - window))
  {
    hide Spent, Alive, Cost, Admitted, UpTo;
    if log == [] {
      NothingAdmitted(who, window, now);
    } else {
      var rest, e := log[..|log| - 1], log[|log| - 1];
      LastUpTo(log, now);
      SpentIsAlive(rest, who, window, now);
      assert log == rest + [e];
      AliveCostMore(rest, e, who, now - window);
      SpentMore(rest, e, who, window, now);
    }
  }

  lemma NothingAdmitted(who: Option<string>, window: int, now: int)
    ensures Spent([], who, window, now) == 0 && Cost(Alive(Admitted([], who), now - window)) == 0
  {
  }

  lemma LastUpTo(log: seq<Entry>, now: int)
    requires UpTo(log, now) && log != []
    ensures UpTo(log[..|log| - 1], now) && log[|log| - 1].at <= now
  {
  }

  /** Later windows that see no newer admission see no more. */
  lemma {:induction false} EarlierWindow(log: seq<Entry>, who: Option<string>, window: int, t: int, end: int)
    requires UpTo(log, t) && t <= end
    ensures Spent(log, who, window, end) <= Spent(log, who, window, t)
  {
    if log != [] { EarlierWindow(log[..|log| - 1], who, window, t, end); }
  }

  lemma {:induction false} NotYet(log: seq<Entry>, who: Option<string>, window: int, t: int, n: nat)
    requires n <= |log| && forall i | n <= i < |log| :: !(Concerns(log[i], who) && log[i].at <= t)
    ensures Spent(log, who, window, t) == Spent(log[..n], who, window, t)
    decreases |log|
  {
    if n < |log| {
      var rest := log[..|log| - 1];
      NotYet(rest, who, window, t, n);
      assert rest[..n] == log[..n];
    } else {
      assert log[..n] == log;
    }
  }

  predicate LastBefore(log: seq<Entry>, who: Option<string>, t: int, n: nat) {
    && n < |log| && Concerns(log[n], who) && log[n].at <= t
    && forall i | n < i < |log| :: !(Concerns(log[i], who) && log[i].at <= t)
  }

  /** In any window, ending whenever, the admitted cost is within the limit under which the
      last admission of that window was granted. */
  lemma {:induction false} AnyWindow(log: seq<Entry>, who: Option<string>, window: int, t: int, clock: int, n: nat)
    requires Ordered(log, clock) && Respected(log, window) && LastBefore(log, who, t, n)
    ensures Spent(log, who, window, t) <= Limit(log[n], who)
  {
    hide Spent;
    NotYet(log, who, window, t, n + 1);
    var seen := log[..n + 1];
    EarlierWindow(seen, who, window, log[n].at, t);
  }

  /** And if none was ever granted before its end, nothing was admitted in it. */
  lemma EmptyWindow(log: seq<Entry>, who: Option<string>, window: int, t: int)
    requires forall n: nat :: !LastBefore(log, who, t, n)
    ensures Spent(log, who, window, t) == 0
  {
    Latest(log, who, t, |log|);
    NotYet(log, who, window, t, 0);
  }

  lemma {:induction false} Latest(log: seq<Entry>, who: Option<string>, t: int, n: nat)
    requires n <= |log| && forall k: nat :: !LastBefore(log, who, t, k)
    requires forall i | n <= i < |log| :: !(Concerns(log[i], who) && log[i].at <= t)
    ensures forall i | 0 <= i < |log| :: !(Concerns(log[i], who) && log[i].at <= t)
    decreases n
  {
    if n > 0 {
      if Concerns(log[n - 1], who) && log[n - 1].at <= t { assert LastBefore(log, who, t, n - 1); }
      Latest(log, who, t, n - 1);
    }
  }

  // ---------------------------------------------------------------------------
  // The limiter
  // ---------------------------------------------------------------------------

  type Table = map<string, seq<Attempt>>

  function Stored(table: Table, key: string): seq<Attempt> { if key in table then table[key] else [] }

  /** What the table holds for anyone, as far as it still counts, is what was admitted. */
  ghost predicate Faithful(table: Table, log: seq<Entry>, cut: int) {
    forall who :: Alive(Stored(table, KeyOf(who)), cut) == Alive(Admitted(log, who), cut)
  }

  /** Exactly the keys with unexpired attempts are left, with exactly those. */
  ghost predicate Swept(before: Table, after: Table, cut: int) { forall k :: SweptAt(before, after, cut, k) }

  predicate SweptAt(before: Table, after: Table, cut: int, k: string) {
    Stored(after, k) == Alive(Stored(before, k), cut) && (k in after <==> Stored(after, k) != [])
  }

  lemma SweptElsewhere(before: Table, middle: Table, after: Table, cut: int, key: string)
    requires forall k | k != key :: (k in after <==> k in middle) && Stored(after, k) == Stored(middle, k)
    ensures forall k | k != key && SweptAt(before, middle, cut, k) :: SweptAt(before, after, cut, k)
  {
  }

  lemma Pruned(before: Table, middle: Table, after: Table, cut: int, key: string)
    requires Stored(middle, key) == Stored(before, key) && Stored(after, key) == Alive(Stored(middle, key), cut)
    requires key in after <==> Stored(after, key) != []
    ensures SweptAt(before, after, cut, key)
  {
  }

  lemma AbsentIsSwept(table: Table, cut: int)
    ensures forall k | k !in table :: SweptAt(table, table, cut, k)
  {
  }

  predicate SmallEnough(table: Table, maxKeys: nat) { |table.Keys - {GLOBAL}| <= maxKeys }

  lemma FaithfulLater(table: Table, log: seq<Entry>, cut: int, later: int)
    requires Faithful(table, log, cut) && cut <= later
    ensures Faithful(table, log, later)
  {
    forall who ensures Alive(Stored(table, KeyOf(who)), later) == Alive(Admitted(log, who), later) {
      AliveAlive(Stored(table, KeyOf(who)), cut, later);
      AliveAlive(Admitted(log, who), cut, later);
    }
  }

  /** Dropping what no longer counts from one key changes nothing that counts. */
  lemma {:induction false} PrunedIsFaithful(table: Table, log: seq<Entry>, cut: int, key: string, pruned: Table)
    requires Faithful(table, log, cut)
    requires Stored(pruned, key) == Alive(Stored(table, key), cut)
    requires forall k | k != key :: Stored(pruned, k) == Stored(table, k)
    ensures Faithful(pruned, log, cut)
  {
    forall who ensures Alive(Stored(pruned, KeyOf(who)), cut) == Alive(Admitted(log, who), cut) {
      AliveAlive(Stored(table, KeyOf(who)), cut, cut);
      assert Alive(Stored(table, KeyOf(who)), cut) == Alive(Admitted(log, who), cut);
    }
  }

  function Grown(s: seq<Attempt>, e: Entry, who: Option<string>): seq<Attempt> {
    if Concerns(e, who) then s + [Attempt(e.at, e.cost)] else s
  }

  lemma GrantedIsFaithful(table: Table, log: seq<Entry>, cut: int, e: Entry, granted: Table)
    requires Faithful(table, log, cut) && e.at > cut
    requires forall who :: Stored(granted, KeyOf(who)) == Grown(Stored(table, KeyOf(who)), e, who)
    ensures Faithful(granted, log + [e], cut)
  {
    forall who ensures Alive(Stored(granted, KeyOf(who)), cut) == Alive(Admitted(log + [e], who), cut) {
      assert Alive(Stored(table, KeyOf(who)), cut) == Alive(Admitted(log, who), cut);
      AdmittedMore(log, e, who);
      if Concerns(e, who) {
        AliveMore(Stored(table, KeyOf(who)), Attempt(e.at, e.cost), cut);
        AliveMore(Admitted(log, who), Attempt(e.at, e.cost), cut);
      } else {
        assert Stored(table, KeyOf(who)) + [] == Stored(table, KeyOf(who));
        assert Admitted(log, who) + [] == Admitted(log, who);
      }
    }
  }

  function Charged(table: Table, e: Entry): Table {
    var t := table[DeviceKey(e.device) := Stored(table, DeviceKey(e.device)) + [Attempt(e.at, e.cost)]];
    t[GLOBAL := Stored(t, GLOBAL) + [Attempt(e.at, e.cost)]]
  }

  lemma Appended(table: Table, log: seq<Entry>, cut: int, e: Entry)
    requires Faithful(table, log, cut) && e.at > cut
    ensures Faithful(Charged(table, e), log + [e], cut)
  {
    hide Faithful;
    DeviceKeyIsNotGlobal(e.device);
    var granted := Charged(table, e);
    forall who ensures Stored(granted, KeyOf(who)) == Grown(Stored(table, KeyOf(who)), e, who) {
      if KeyOf(who) == DeviceKey(e.device) { KeysDiffer(who, Some(e.device)); }
      if KeyOf(who) == GLOBAL { KeysDiffer(who, None); }
    }
    GrantedIsFaithful(table, log, cut, e, granted);
  }

  lemma Small(table: Table, maxKeys: nat)
    requires SmallEnough(table, maxKeys)
    ensures |table| <= maxKeys + 1
  {
    OneMore(table);
  }

  lemma {:induction false} ChargedKeys(table: Table, e: Entry, was: Table, maxKeys: nat)
    requires table.Keys <= was.Keys && SmallEnough(was, maxKeys)
    requires DeviceKey(e.device) in was || |was| < maxKeys
    ensures SmallEnough(Charged(table, e), maxKeys) && |Charged(table, e)| <= maxKeys + 1
  {
    var key := DeviceKey(e.device);
    DeviceKeyIsNotGlobal(e.device);
    KeyRoom(was, maxKeys, key);
    SubsetSize(Charged(table, e).Keys - {GLOBAL}, was.Keys - {GLOBAL} + {key});
    OneMore(Charged(table, e));
  }

  lemma {:induction false} NowRespected(log: seq<Entry>, window: int, e: Entry)
    requires Respected(log, window) && Ordered(log, e.at) && window > 0 && e.cost > 0
    requires Spent(log, Some(e.device), window, e.at) + e.cost <= e.deviceLimit
    requires Spent(log, None, window, e.at) + e.cost <= e.globalLimit
    ensures Respected(log + [e], window) && Ordered(log + [e], e.at)
  {
    SpentMore(log, e, Some(e.device), window, e.at);
    SpentMore(log, e, None, window, e.at);
    StillRespected(log, window, e);
  }

  lemma LaterOrdered(log: seq<Entry>, clock: int, now: int)
    requires Ordered(log, clock) && clock <= now
    ensures Ordered(log, now) && UpTo(log, now)
  {
  }

  lemma {:induction false} SpentIsNat(log: seq<Entry>, who: Option<string>, window: int, t: int)
    requires UpTo(log, t)
    ensures Spent(log, who, window, t) >= 0
  {
    if log != [] { SpentIsNat(log[..|log| - 1], who, window, t); }
  }

  lemma StillRespected(log: seq<Entry>, window: int, e: Entry)
    requires Respected(log, window)
    requires forall who | Concerns(e, who) :: Spent(log + [e], who, window, e.at) <= Limit(e, who)
    ensures Respected(log + [e], window)
  {
    var more := log + [e];
    forall i, who | 0 <= i < |more| && Concerns(more[i], who)
      ensures Spent(more[..i + 1], who, window, more[i].at) <= Limit(more[i], who)
    {
      if i < |log| { assert more[..i + 1] == log[..i + 1] && more[i] == log[i]; } else { assert more[..i + 1] == more; }
    }
  }

  class Limiter {
    const window: int
    const maxKeys: nat

    var attempts: Table
    var lastSweep: Option<int>
    /** Every admission so far, and the time of the last call. */
    ghost var log: seq<Entry>
    ghost var clock: int

    ghost predicate Valid()
      reads this
    {
      && window > 0 && SmallEnough(attempts, maxKeys)
      && Ordered(log, clock) && Respected(log, window) && Faithful(attempts, log, clock - window)
    }

    constructor (window: int, maxKeys: nat, start: int)
      requires window > 0
      ensures Valid() && this.window == window && this.maxKeys == maxKeys && log == [] && clock == start
    {
      this.window, this.maxKeys := window, maxKeys;
      attempts, lastSweep, log, clock := map[], None, [], start;
    }

    /** Keep the attempts after `cut`, and add up their cost. */
    static method Filter(s: seq<Attempt>, cut: int) returns (alive: seq<Attempt>, total: int)
      ensures alive == Alive(s, cut) && total == Cost(alive)
    {
      alive, total := [], 0;
      for i := 0 to |s|
        invariant alive == Alive(s[..i], cut) && total == Cost(alive)
      {
        assert s[..i + 1] == s[..i] + [s[i]];
        AliveMore(s[..i], s[i], cut);
        CostMore(alive, s[i]);
        if s[i].at > cut {
          alive, total := alive + [s[i]], total + s[i].cost;
        }
      }
      assert s[..|s|] == s;
    }

    method Prune(key: string, cut: int) returns (total: int)
      requires Faithful(attempts, log, cut) && SmallEnough(attempts, maxKeys)
      modifies `attempts
      ensures Faithful(attempts, log, cut) && SmallEnough(attempts, maxKeys)
      ensures Stored(attempts, key) == Alive(Stored(old(attempts), key), cut) && total == Cost(Stored(attempts, key))
      ensures key in attempts ==> key in old(attempts)
      ensures key in attempts <==> Stored(attempts, key) != []
      ensures Alive(Stored(attempts, key), cut) == Stored(attempts, key)
      ensures forall k | k != key ::
        (k in attempts <==> k in old(attempts)) && Stored(attempts, k) == Stored(old(attempts), k)
    {
      var alive;
      alive, total := Filter(Stored(attempts, key), cut);
      if alive == [] {
        SubsetSize(attempts.Keys - {key} - {GLOBAL}, attempts.Keys - {GLOBAL});
        attempts := attempts - {key};
      } else {
        assert key in attempts;
        assert attempts[key := alive].Keys == attempts.Keys;
        attempts := attempts[key := alive];
      }
      PrunedIsFaithful(old(attempts), log, cut, key, attempts);
      AliveAlive(Stored(old(attempts), key), cut, cut);
    }

    /** Prune one account; what remains of it is what was spent in the current window. */
    method Used(who: Option<string>, cut: int) returns (total: int)
      requires Faithful(attempts, log, cut) && SmallEnough(attempts, maxKeys) && Ordered(log, clock)
        && cut == clock - window
      modifies `attempts
      ensures Faithful(attempts, log, cut) && SmallEnough(attempts, maxKeys)
      ensures total == Spent(log, who, window, clock)
      ensures attempts.Keys <= old(attempts).Keys
    {
      hide Spent, Alive, Admitted, Cost, Faithful, KeyOf, SmallEnough, Ordered;
      total := Prune(KeyOf(who), cut);
      PrunedCost(attempts, log, cut, who);
      assert UpTo(log, clock) by { LaterOrdered(log, clock, clock); }
      SpentIsAlive(log, who, window, clock);
    }

    method Sweep(cut: int)
      requires Faithful(attempts, log, cut) && SmallEnough(attempts, maxKeys)
      modifies `attempts
      ensures Faithful(attempts, log, cut) && SmallEnough(attempts, maxKeys)
      ensures attempts.Keys <= old(attempts).Keys
      ensures Swept(old(attempts), attempts, cut)
    {
      hide Faithful, SmallEnough, SweptAt, Cost;
      AbsentIsSwept(attempts, cut);
      var keys := attempts.Keys;
      while keys != {}
        invariant Faithful(attempts, log, cut) && SmallEnough(attempts, maxKeys)
        invariant attempts.Keys <= old(attempts).Keys && keys <= old(attempts).Keys
        invariant forall k | k in keys :: k in attempts && attempts[k] == old(attempts)[k]
        invariant forall k | k !in keys :: SweptAt(old(attempts), attempts, cut, k)
        decreases keys
      {
        var key :| key in keys;
        keys := keys - {key};
        ghost var before := attempts;
        var _ := Prune(key, cut);
        SweptElsewhere(old(attempts), before, attempts, cut, key);
        Pruned(old(attempts), before, attempts, cut, key);
      }
    }

    method SweepIfDue(cut: int, now: int)
      requires Faithful(attempts, log, cut) && SmallEnough(attempts, maxKeys)
      modifies `attempts, `lastSweep
      ensures Faithful(attempts, log, cut) && SmallEnough(attempts, maxKeys)
      ensures |attempts| <= |old(attempts)|
      ensures if old(lastSweep) == None || now - old(lastSweep).value >= MINUTE
              then Swept(old(attempts), attempts, cut) && lastSweep == Some(now)
              else attempts == old(attempts) && lastSweep == old(lastSweep)
    {
      hide Faithful, SmallEnough, Swept;
      if lastSweep == None || now - lastSweep.value >= MINUTE {
        Sweep(cut);
        SubsetSize(attempts.Keys, old(attempts).Keys);
        lastSweep := Some(now);
      }
    }

    /** Admit the work if both budgets allow it. Admission takes from both; refusal takes
        nothing. Work within both budgets is refused only for a device without any
        unexpired work, when the table is full. */
    method AllowDeviceAndGlobal(device: string, now: int, cost: int, deviceLimit: int, globalLimit: int)
      returns (ok: bool)
      requires Valid() && now >= clock
      modifies this
      ensures Valid() && clock == now
      ensures log == old(log) + if ok then [Entry(device, now, cost, deviceLimit, globalLimit)] else []
      ensures ok ==> Affordable(old(log), window, device, now, cost, deviceLimit, globalLimit)
      ensures !ok && Affordable(old(log), window, device, now, cost, deviceLimit, globalLimit) ==>
        |old(attempts)| >= maxKeys && Spent(old(log), Some(device), window, now) == 0
      ensures |attempts| <= maxKeys + 1
    {
      hide Spent, Alive, Admitted, Cost, Faithful, Respected, KeyOf, DeviceKey, SmallEnough, Ordered;
      LaterOrdered(log, clock, now);
      SpentIsNat(log, Some(device), window, now);
      SpentIsNat(log, None, window, now);
      clock := now;
      FaithfulLater(attempts, log, old(clock) - window, now - window);
      Small(attempts, maxKeys);
      if device == "" || cost <= 0 || deviceLimit <= 0 || globalLimit <= 0 || cost > deviceLimit || cost > globalLimit {
        return false;
      }
      var cut := now - window;
      SweepIfDue(cut, now);
      Small(attempts, maxKeys);
      SpentIsAlive(log, Some(device), window, now);
      SpentIsAlive(log, None, window, now);
      NothingStored(attempts, log, cut, device);
      if DeviceKey(device) !in attempts && |attempts| >= maxKeys { return false; }
      ok := Charge(Entry(device, now, cost, deviceLimit, globalLimit));
    }

    method Charge(e: Entry) returns (ok: bool)
      requires Valid() && clock == e.at && e.cost > 0
      requires DeviceKey(e.device) in attempts || |attempts| < maxKeys
      modifies `attempts, `log
      ensures Valid() && |attempts| <= maxKeys + 1
      ensures log == old(log) + if ok then [e] else []
      ensures ok <==>
        && Spent(old(log), Some(e.device), window, e.at) + e.cost <= e.deviceLimit
        && Spent(old(log), None, window, e.at) + e.cost <= e.globalLimit
    {
      hide Spent, Alive, Admitted, Cost, Faithful, Respected, Ordered, SmallEnough, KeyOf, DeviceKey;
      var deviceKey, cut := DeviceKey(e.device), e.at - window;
      var deviceUsed := Used(Some(e.device), cut);
      var globalUsed := Used(None, cut);
      Small(attempts, maxKeys);
      if deviceUsed + e.cost > e.deviceLimit || globalUsed + e.cost > e.globalLimit { return false; }
      var attempt := Attempt(e.at, e.cost);
      ghost var granted := log + [e];
      ghost var before := attempts;
      Appended(attempts, log, cut, e);
      attempts := attempts[deviceKey := Stored(attempts, deviceKey) + [attempt]];
      attempts := attempts[GLOBAL := Stored(attempts, GLOBAL) + [attempt]];
      NowRespected(log, window, e);
      assert attempts == Charged(before, e);
      ChargedKeys(before, e, old(attempts), maxKeys);
      log := granted;
      return true;
    }
  }

  predicate Affordable(log: seq<Entry>, window: int, device: string, now: int, cost: int, deviceLimit: int,
      globalLimit: int) {
    && device != "" && cost > 0
    && Spent(log, Some(device), window, now) + cost <= deviceLimit
    && Spent(log, None, window, now) + cost <= globalLimit
  }

  lemma OneMore(table: Table)
    ensures |table| <= |table.Keys - {GLOBAL}| + 1
  {
    SubsetSize(table.Keys, table.Keys - {GLOBAL} + {GLOBAL});
  }

  lemma KeyRoom(table: Table, maxKeys: nat, key: string)
    requires SmallEnough(table, maxKeys) && key != GLOBAL && (key in table || |table| < maxKeys)
    ensures |table.Keys - {GLOBAL} + {key}| <= maxKeys
  {
    if key in table {
      assert table.Keys - {GLOBAL} + {key} == table.Keys - {GLOBAL};
    } else {
      SubsetSize(table.Keys - {GLOBAL} + {key}, table.Keys + {key});
    }
  }

  lemma NothingStored(table: Table, log: seq<Entry>, cut: int, device: string)
    requires Faithful(table, log, cut)
    ensures DeviceKey(device) !in table ==> Cost(Alive(Admitted(log, Some(device)), cut)) == 0
  {
    assert Alive(Stored(table, KeyOf(Some(device))), cut) == Alive(Admitted(log, Some(device)), cut);
  }

  lemma PrunedCost(table: Table, log: seq<Entry>, cut: int, who: Option<string>)
    requires Faithful(table, log, cut)
    ensures Alive(Stored(table, KeyOf(who)), cut) == Stored(table, KeyOf(who)) ==>
      Cost(Stored(table, KeyOf(who))) == Cost(Alive(Admitted(log, who), cut))
  {
    assert Alive(Stored(table, KeyOf(who)), cut) == Alive(Admitted(log, who), cut);
  }

  // ---------------------------------------------------------------------------
  // Devices and the whole
  // ---------------------------------------------------------------------------

  ghost function SpentBy(log: seq<Entry>, devices: set<string>, window: int, t: int): int
    decreases devices
  {
    if devices == {} then 0
    else
      var d :| d in devices;
      Spent(log, Some(d), window, t) + SpentBy(log, devices - {d}, window, t)
  }

  lemma {:induction false} SpentByMore(log: seq<Entry>, e: Entry, devices: set<string>, window: int, t: int)
    ensures SpentBy(log + [e], devices, window, t) ==
            SpentBy(log, devices, window, t) + if e.device in devices && t - window < e.at <= t then e.cost else 0
    decreases devices
  {
    if devices != {} {
      var d :| d in devices && SpentBy(log, devices, window, t) ==
          Spent(log, Some(d), window, t) + SpentBy(log, devices - {d}, window, t);
      SpentByWithout(log + [e], devices, d, window, t);
      SpentByMore(log, e, devices - {d}, window, t);
      SpentMore(log, e, Some(d), window, t);
    }
  }

  lemma {:induction false} SpentByWithout(log: seq<Entry>, devices: set<string>, d: string, window: int, t: int)
    requires d in devices
    ensures SpentBy(log, devices, window, t) == Spent(log, Some(d), window, t) + SpentBy(log, devices - {d}, window, t)
    decreases devices
  {
    var x :| x in devices && SpentBy(log, devices, window, t) ==
        Spent(log, Some(x), window, t) + SpentBy(log, devices - {x}, window, t);
    if x != d {
      SpentByWithout(log, devices - {x}, d, window, t);
      SpentByWithout(log, devices - {d}, x, window, t);
      assert devices - {x} - {d} == devices - {d} - {x};
    }
  }

  /** The Controller-wide cost in a window is the sum of the devices' costs in it. */
  lemma {:induction false} DevicesAddUp(log: seq<Entry>, devices: set<string>, window: int, t: int)
    requires forall e | e in log :: e.device in devices
    ensures SpentBy(log, devices, window, t) == Spent(log, None, window, t)
  {
    if log == [] {
      NothingSpent(devices, window, t);
    } else {
      var rest, e := log[..|log| - 1], log[|log| - 1];
      assert log == rest + [e];
      DevicesAddUp(rest, devices, window, t);
      SpentByMore(rest, e, devices, window, t);
    }
  }

  lemma {:induction false} NothingSpent(devices: set<string>, window: int, t: int)
    ensures SpentBy([], devices, window, t) == 0
    decreases devices
  {
    if devices != {} {
      var d :| d in devices;
      SpentByWithout([], devices, d, window, t);
      NothingSpent(devices - {d}, window, t);
    }
  }
}
