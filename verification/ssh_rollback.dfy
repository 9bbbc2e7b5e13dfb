/**
 The dead-man switch around SSH hardening.

 An Apply writes a rollback journal, rewrites the live configuration and arms a
 timer. The journal is the only thing that survives a crash; the timer is volatile.
 Between any two file operations an administrator may edit the configuration, time
 may pass, the process may crash, or the machine may lose power.
 */
module SshRollback {
  import opened Prelude
  import SshConfig

  type ActionId = string

  datatype Meta = Meta(mode: nat, uid: nat, gid: nat)
  datatype File = File(content: string, meta: Meta)

  /** Which Apply wrote the bytes and metadata of a configuration file. Every other
      write, and every foreign edit, leaves the file unstamped. */
  datatype Stamp = Stamp(action: ActionId, serial: nat)
  datatype Config = Config(file: File, stamp: Option<Stamp>)

  /** The rollback state carried by a receipt and embedded in the journal. */
  datatype State = State(action: ActionId, snapshot: File, applied: string, changed: bool, confirmBy: int)
  datatype Journal = Journal(serial: nat, params: string, state: State)

  type Dir = map<ActionId, Journal>

  /** What is on disk. The last element of each sequence is what a reader sees; a power
      loss may fall back to any earlier element that was not yet synced away.
      `released` holds the serials whose journal a Confirm has unlinked.
      `unsettled` holds the serials whose hardened file was written and not yet replaced by
      a write that returned durably. */
  datatype Disk = Disk(configs: seq<Config>, dirs: seq<Dir>, released: set<nat>, unsettled: set<nat>) {
    predicate Wellformed() { configs != [] && dirs != [] }

    function Current(): Config
      requires Wellformed()
    {
      configs[|configs| - 1]
    }

    function Journals(): Dir
      requires Wellformed()
    {
      dirs[|dirs| - 1]
    }

    function Put(c: Config): Disk { this.(configs := configs + [c], unsettled := unsettled + Serials(c)) }

    function PutSynced(c: Config): Disk { this.(configs := [c], unsettled := Serials(c)) }

    function Change(d: Dir): Disk { this.(dirs := dirs + [d]) }

    function ChangeSynced(d: Dir): Disk { this.(dirs := [d]) }

    /** What a power loss can leave: any file and any journal directory not synced away. */
    function Survivor(i: nat, j: nat): Disk
      requires i < |configs| && j < |dirs|
    {
      Disk([configs[i]], [dirs[j]], released, Serials(configs[i]))
    }

    function Release(n: nat): Disk { this.(released := released + {n}) }

    /** The file was written by an Apply whose journal no Confirm has unlinked. */
    predicate Claimed(c: Config) { c.stamp.Some? && c.stamp.value.serial !in released }

    /** The directory `d` holds the journal that can undo what `c` claims. */
    predicate Covers(d: Dir, c: Config) {
      Claimed(c) ==>
        var s := c.stamp.value;
        && s.action in d && d[s.action].serial == s.serial
        && c.file == File(d[s.action].state.applied, d[s.action].state.snapshot.meta)
    }

    /** The live file is recoverable from whatever journal directory survives. */
    predicate Durable()
      requires Wellformed()
    {
      forall d | d in dirs :: Covers(d, Current())
    }

    /** Every configuration that can survive a power loss is recoverable. */
    predicate PowerSafe() { forall d, c | d in dirs && c in configs :: Covers(d, c) }

    predicate OneJournal() { forall d | d in dirs :: AtMostOne(d) }

    /** The history of the writes tells which hardened files may come back. */
    predicate Settling() { unsettled == SerialsOf(configs) }

    predicate Safe() { Wellformed() && Durable() && OneJournal() && Settling() }

    /** Serials in use are below `n`, so `n` is fresh. */
    predicate Below(n: nat) {
      && (forall m | m in released :: m < n)
      && (forall d: Dir, a: ActionId | d in dirs && a in d :: d[a].serial < n)
    }

    /** No configuration that can survive a power loss is claimed. */
    predicate NoClaims() { forall c | c in configs :: !Claimed(c) }
  }

  function SerialsOf(configs: seq<Config>): set<nat> {
    set c | c in configs && c.stamp.Some? :: c.stamp.value.serial
  }

  /** The journal of this very change is there. */
  predicate Pending(d: Disk, params: string, state: State) {
    && d.Wellformed() && state.changed && state.action in d.Journals()
    && d.Journals()[state.action].state == state && d.Journals()[state.action].params == params
  }

  function Serials(c: Config): set<nat> { if c.stamp.Some? then {c.stamp.value.serial} else {} }

  /** The file is neither what this Apply wrote nor what it found: somebody else's. */
  predicate Foreign(f: File, s: State) { f != s.snapshot && f != Written(s) }

  function Written(s: State): File { File(s.applied, s.snapshot.meta) }

  function HardenedFile(f: File): File { File(SshConfig.Hardened(f.content), f.meta) }

  /** The files an Apply may leave: what it found, what it read, and what it wrote. */
  function Hands(before: Disk, j: Journal): set<File>
    requires before.Wellformed()
  {
    {before.Current().file, j.state.snapshot, Written(j.state)}
  }

  /** Nothing happened to the file, or the journal of `a` was played back over what it says
      was written. */
  predicate Reverts(before: Disk, after: Disk, a: ActionId)
    requires before.Wellformed() && after.Wellformed()
  {
    || after.Current().file == before.Current().file
    || (a in before.Journals() && before.Current().file == Written(before.Journals()[a].state)
        && after.Current().file == before.Journals()[a].state.snapshot)
  }

  /** At most one journal, and it names itself and a real change. */
  predicate AtMostOne(d: Dir) {
    && (forall a, b | a in d && b in d :: a == b)
    && (forall a | a in d ::
          d[a].state.action == a && d[a].state.changed && d[a].state.applied != d[a].state.snapshot.content)
  }

  // ---------------------------------------------------------------------------
  // What the disk primitives keep
  // ---------------------------------------------------------------------------

  /** Journals that name an action other than `a` do not exist beside `a`'s. */
  lemma RemovingTheOnlyJournal(d: Disk, a: ActionId)
    requires d.Safe() && a in d.Journals()
    ensures d.Journals() - {a} == map[]
  {
    assert d.Journals() in d.dirs;
  }

  /** The journal a reader sees can undo the file a reader sees. */
  lemma Recoverable(d: Disk)
    requires d.Safe()
    ensures AtMostOne(d.Journals()) && d.Covers(d.Journals(), d.Current())
  {
    assert d.Journals() in d.dirs;
  }

  /** With the snapshot in place, no surviving file is claimed exactly when the hardened one
      has been settled by a durable write, or released by a Confirm. */
  lemma ClaimsAreUnsettled(d: Disk, a: ActionId)
    requires d.Safe() && d.PowerSafe() && a in d.Journals()
    ensures var n := d.Journals()[a].serial; d.NoClaims() <==> n !in d.unsettled || n in d.released
  {
    var dir, n := d.Journals(), d.Journals()[a].serial;
    assert dir in d.dirs && AtMostOne(dir);
    forall c | c in d.configs && d.Claimed(c) ensures c.stamp.value.serial == n { assert d.Covers(dir, c); }
  }

  /** With the file unclaimed, the journals may go; power is safe exactly without claims. */
  lemma Removed(d: Disk, n: nat)
    requires d.Safe() && d.Below(n) && !d.Claimed(d.Current())
    ensures d.Change(map[]).Safe() && d.Change(map[]).Below(n) && d.ChangeSynced(map[]).Safe()
      && d.ChangeSynced(map[]).Below(n)
    ensures d.PowerSafe() ==> (d.Change(map[]).PowerSafe() <==> d.NoClaims())
    ensures d.ChangeSynced(map[]).PowerSafe() <==> d.NoClaims()
  {
    hide SerialsOf;
    assert AtMostOne(map[]);
    ChangeKeeps(d, map[], n);
    BareDisk(d.Change(map[]));
    BareDisk(d.ChangeSynced(map[]));
    assert forall c :: d.Change(map[]).Claimed(c) <==> d.Claimed(c);
    assert forall c :: d.ChangeSynced(map[]).Claimed(c) <==> d.Claimed(c);
    assert d.NoClaims() ==> forall c | c in d.configs :: d.Covers(map[], c);
  }

  /** A disk without journals is safe against power loss exactly without claims. */
  lemma BareDisk(d: Disk)
    requires d.Wellformed() && map[] in d.dirs
    ensures d.PowerSafe() ==> d.NoClaims()
    ensures d.NoClaims() ==> d.PowerSafe()
  {
    if d.PowerSafe() {
      forall c | c in d.configs ensures !d.Claimed(c) { assert d.Covers(map[], c); }
    }
  }

  /** Nothing but foreign edits separates the two disks. */
  ghost predicate OnlyEdited(before: Disk, after: Disk) {
    && after.dirs == before.dirs && after.released == before.released && after.unsettled == before.unsettled
    && before.configs <= after.configs
    && forall i | |before.configs| <= i < |after.configs| :: after.configs[i].stamp == None
  }

  lemma PutSettles(d: Disk, c: Config)
    requires d.Settling()
    ensures d.Put(c).Settling() && d.PutSynced(c).Settling()
  {
    assert forall e :: e in d.Put(c).configs <==> e in d.configs || e == c;
  }

  /** A write of the file keeps the disk recoverable if every surviving journal directory
      can undo what is written. */
  lemma PutKeeps(d: Disk, c: Config, n: nat)
    requires d.Safe() && d.Below(n) && forall dir | dir in d.dirs :: d.Covers(dir, c)
    ensures d.Put(c).Safe() && d.Put(c).Below(n) && d.PutSynced(c).Safe() && d.PutSynced(c).Below(n)
    ensures d.PowerSafe() ==> d.Put(c).PowerSafe() && d.PutSynced(c).PowerSafe()
  {
    PutSettles(d, c);
    hide SerialsOf;
    assert d.Put(c).Current() == c && d.PutSynced(c).Current() == c;
  }

  /** A change of the journal directory keeps it recoverable if the new one can undo what
      survives. */
  lemma ChangeKeeps(d: Disk, dir: Dir, n: nat)
    requires d.Safe() && d.Below(n) && AtMostOne(dir) && forall a: ActionId | a in dir :: dir[a].serial < n
    requires d.Covers(dir, d.Current())
    ensures d.Change(dir).Safe() && d.Change(dir).Below(n) && d.ChangeSynced(dir).Safe() && d.ChangeSynced(dir).Below(n)
    ensures d.PowerSafe() && (forall c | c in d.configs :: d.Covers(dir, c)) ==>
      d.Change(dir).PowerSafe() && d.ChangeSynced(dir).PowerSafe()
  {
    hide SerialsOf;
  }

  lemma ReleaseKeeps(d: Disk, a: ActionId, n: nat)
    requires d.Safe() && d.Below(n) && a in d.Journals()
    ensures var r := d.Release(d.Journals()[a].serial); r.Safe() && r.Below(n) && (d.PowerSafe() ==> r.PowerSafe())
  {
    hide SerialsOf;
    assert d.Journals() in d.dirs;
    var r := d.Release(d.Journals()[a].serial);
    assert forall dir, c | d.Covers(dir, c) :: r.Covers(dir, c);
  }

  lemma SurvivorKeeps(d: Disk, i: nat, j: nat, n: nat)
    requires d.Safe() && d.Below(n) && d.PowerSafe() && i < |d.configs| && j < |d.dirs|
    ensures d.Survivor(i, j).Safe() && d.Survivor(i, j).Below(n) && d.Survivor(i, j).PowerSafe()
  {
    assert d.dirs[j] in d.dirs && d.configs[i] in d.configs;
    assert d.Covers(d.dirs[j], d.configs[i]) && AtMostOne(d.dirs[j]);
    assert d.Survivor(i, j).configs[0] == d.configs[i];
  }

  lemma EditKeepsUnclaimed(before: Disk, after: Disk)
    requires before.Wellformed() && OnlyEdited(before, after)
    ensures after.Wellformed()
    ensures !before.Claimed(before.Current()) ==> !after.Claimed(after.Current())
    ensures before.NoClaims() ==> after.NoClaims()
    ensures before.Claimed(before.Current()) && after.Claimed(after.Current()) ==> after == before
  {
    if |after.configs| == |before.configs| {
      assert after.configs == before.configs;
    } else {
      assert after.Current().stamp == None;
    }
    forall c | c in after.configs && before.NoClaims() ensures !after.Claimed(c) {
      var i :| 0 <= i < |after.configs| && after.configs[i] == c;
      if i < |before.configs| { assert before.configs[i] == c; assert !before.Claimed(c); }
    }
  }

  lemma NoJournalNoClaim(d: Disk)
    requires d.Safe() && map[] in d.dirs
    ensures !d.Claimed(d.Current())
    ensures d.PowerSafe() ==> d.NoClaims()
  {
    assert d.Covers(map[], d.Current());
    forall c | c in d.configs && d.PowerSafe() ensures !d.Claimed(c) {
      assert d.Covers(map[], c);
    }
  }

  lemma NoClaimCovered(d: Disk, dir: Dir)
    requires d.Safe() && map[] in d.dirs
    ensures d.Covers(dir, d.Current())
    ensures d.PowerSafe() ==> forall c | c in d.configs :: d.Covers(dir, c)
  {
    NoJournalNoClaim(d);
  }

  /** Releasing the only journal's serial leaves nothing claimed. */
  lemma ReleaseSettles(d: Disk, a: ActionId)
    requires d.Safe() && a in d.Journals()
    ensures var r := d.Release(d.Journals()[a].serial);
            !r.Claimed(r.Current()) && (d.PowerSafe() ==> r.NoClaims())
  {
    var dir := d.Journals();
    assert dir in d.dirs && AtMostOne(dir) && d.Covers(dir, d.Current());
    var r := d.Release(dir[a].serial);
    forall c | c in d.configs && d.PowerSafe() ensures !r.Claimed(c) {
      assert d.Covers(dir, c);
    }
  }

  const SECOND: int := 1_000_000_000
  const MINUTE: int := 60 * SECOND

  /** Why a journal was unlinked. */
  datatype Removal =
    | Restored(journal: Journal, found: File, edited: bool)
    | Confirmed(journal: Journal, at: int)
  {
    predicate Justified() {
      match this
      case Restored(j, found, edited) => edited || found == j.state.snapshot
      case Confirmed(j, at) => at < j.state.confirmBy
    }
  }

  datatype Command = Validate | Reload | Effective

  datatype Op = Wrote | Ran(command: Command, ok: bool) | Looked(time: int)

  /** sshd is reloaded only on a configuration that it has just validated. */
  predicate Orderly(log: seq<Op>) {
    forall i | 0 <= i < |log| && log[i].Ran? && log[i].command == Reload :: i > 0 && log[i - 1] == Ran(Validate, true)
  }

  /** The last thing done was to validate the file and to reload sshd on it. */
  predicate Reloaded(log: seq<Op>) {
    |log| >= 2 && log[|log| - 2] == Ran(Validate, true) && log[|log| - 1] == Ran(Reload, true)
  }

  /** What a write with its reload leaves in the log, and one whose reload fails. */
  const RELOADED: seq<Op> := [Wrote, Ran(Validate, true), Ran(Reload, true)]
  const UNRELOADED: seq<Op> := [Wrote, Ran(Validate, true), Ran(Reload, false)]

  datatype JournalRead = Found(journal: Journal) | NotExist | Unreadable

  datatype Restore = RestoredOk | Conflict | Failed

  /** What Apply reports: an error with no state means the mutation never started. */
  datatype Applied = Applied(ok: bool, state: Option<State>)

  /** One event of a run; a crash strikes at a disk state of the event before it. */
  datatype Event =
    | ApplyRequest(action: ActionId, params: string, seconds: int)
    | RollbackRequest(params: string, state: State)
    | ConfirmRequest(params: string, state: State)
    | Expiry(action: ActionId)
    | Quiet
    | CrashAt(step: nat)
    | PowerLossAt(step: nat, config: nat, dir: nat)
    | Start

  /** What one event of a run did to the disk, and whether anybody else wrote meanwhile. */
  datatype Passage = Passage(event: Event, before: Disk, after: Disk, edited: bool) {
    /** Without foreign edits only an Apply with no journal about, or the playback of a
        journal over its own file, changes the configuration. */
    predicate Explained() {
      && before.Wellformed() && after.Wellformed()
      && (!edited ==>
            match event
            case CrashAt(_) => true
            case PowerLossAt(_, _, _) => true
            case ApplyRequest(_, _, _) =>
              || after.Current().file == before.Current().file
              || (before.Journals() == map[] && after.Current().file == HardenedFile(before.Current().file))
            case RollbackRequest(_, state) => Reverts(before, after, state.action)
            case Expiry(a) => Reverts(before, after, a)
            case _ => after.Current() == before.Current())
    }
  }

  /** One passage per event, each starting where the one before ended. */
  predicate Chained(first: Disk, passages: seq<Passage>, events: seq<Event>, last: Disk) {
    if passages == [] then first == last
    else
      var p, n := passages[|passages| - 1], |passages| - 1;
      n < |events| && p.event == events[n] && p.after == last && Chained(first, passages[..n], events, p.before)
  }

  lemma ChainGrows(first: Disk, passages: seq<Passage>, events: seq<Event>, p: Passage)
    requires |passages| < |events| && p.event == events[|passages|] && Chained(first, passages, events, p.before)
    ensures Chained(first, passages + [p], events, p.after)
  {
    assert (passages + [p])[..|passages|] == passages;
  }

  /** A configuration that the pending journal did not write survives every event but a
      crash or a power loss. */
  lemma ForeignStays(p: Passage, a: ActionId)
    requires p.Explained() && !p.edited && !p.event.CrashAt? && !p.event.PowerLossAt?
    requires p.before.Safe() && a in p.before.Journals()
      && p.before.Current().file != Written(p.before.Journals()[a].state)
    ensures p.after.Current().file == p.before.Current().file
  {
    Recoverable(p.before);
  }

  class Playbook {
    const minDelay: int
    const defaultDelay: int
    const maxDelay: int
    /** Every file operation and command succeeds, but for a scheduled fault. */
    const smooth: bool
    /** Nobody else edits the file. */
    const calm: bool
    /** The wall clock goes with the clock; otherwise it may jump. */
    const steady: bool

    /** The next directory sync after a write of the file fails. */
    var fault: bool
    /** How the next write of a journal ends. */
    var journaling: Write
    var disk: Disk
    var timers: map<ActionId, int>
    var up: bool
    var wall: int
    var mono: int
    var edits: nat
    var nextSerial: nat

    /** Every write of the file, command and look at the clock, in order. */
    var log: seq<Op>

    /** Every state the disk has been in: a crash may strike at any of them. */
    var trail: seq<Disk>
    ghost var removals: seq<Removal>
    /** A journal was unlinked while an unsynced configuration could still reappear. */
    var exposed: bool

    ghost predicate Valid()
      reads this
    {
      && 0 < minDelay <= defaultDelay <= maxDelay
      && disk.Safe() && disk.Below(nextSerial)
      && trail != [] && trail[|trail| - 1] == disk
      && (forall d | d in trail :: d.Safe() && d.Below(nextSerial))
      && (!exposed ==> disk.PowerSafe() && forall d | d in trail :: d.PowerSafe())
      && (forall r | r in removals :: r.Justified())
      && Orderly(log)
    }

    function Horizon(): int { if maxDelay < MINUTE then MINUTE else maxDelay }

    /** While the process is up, an unconfirmed applied configuration has a timer due
        within the horizon. */
    ghost predicate Armed()
      requires disk.Wellformed()
      reads this
    {
      up && disk.Claimed(disk.Current()) ==>
        var a := disk.Current().stamp.value.action;
        a in timers && timers[a] <= mono + Horizon()
    }

    constructor (f: File, minDelay: int, defaultDelay: int, maxDelay: int, smooth: bool, calm: bool, steady: bool,
        wall: int)
      requires 0 < minDelay <= defaultDelay <= maxDelay
      ensures Valid() && up && Armed() && !exposed && trail == [disk]
      ensures disk == Disk([Config(f, None)], [map[]], {}, {})
      ensures this.smooth == smooth && this.calm == calm && this.steady == steady
      ensures !fault && journaling == Done && edits == 0
    {
      this.minDelay, this.defaultDelay, this.maxDelay := minDelay, defaultDelay, maxDelay;
      this.smooth, this.calm, this.steady, fault := smooth, calm, steady, false;
      journaling := Done;
      var d := Disk([Config(f, None)], [map[]], {}, {});
      disk, trail := d, [d];
      timers, up, this.wall, mono, edits, nextSerial := map[], true, wall, 0, 0, 0;
      removals, exposed, log := [], false, [];
    }

    function RollbackDelay(seconds: int): Option<int> {
      if seconds == 0 then Some(defaultDelay)
      else if seconds < (minDelay + SECOND - 1) / SECOND || seconds > maxDelay / SECOND then None
      else Some(seconds * SECOND)
    }

    /** Zero asks for the default; anything else must be a whole number of seconds within
        the bounds, and is the delay. */
    lemma DelayIsTheRequestedOne(seconds: int, d: int)
      requires 0 < minDelay <= defaultDelay <= maxDelay
      ensures RollbackDelay(seconds) == Some(d) <==>
        if seconds == 0 then d == defaultDelay else d == seconds * SECOND && minDelay <= d <= maxDelay
    {
    }

    /** The delay an Apply uses: one out of bounds was refused by Validate before. */
    function Window(seconds: int): (d: int)
      requires 0 < minDelay <= defaultDelay <= maxDelay
      ensures d == 0 || minDelay <= d <= maxDelay
    {
      var delay := RollbackDelay(seconds);
      if delay.Some? then delay.value else 0
    }

    /** The deadline lies the requested window ahead of a moment of this call. */
    twostate predicate DeadlineSet(seconds: int, confirmBy: int)
      requires 0 < minDelay <= defaultDelay <= maxDelay
      reads this
    {
      steady ==> old(wall) + Window(seconds) <= confirmBy <= wall + Window(seconds)
    }

    // -------------------------------------------------------------------------
    // Disk and environment primitives
    // -------------------------------------------------------------------------

    /** Only time and foreign edits have passed. */
    twostate predicate Waited()
      reads this
    {
      Moved() && OnlyEdited(old(disk), disk) && (edits == old(edits) ==> disk == old(disk))
    }

    /** Time and the recorded trail only grow. */
    twostate predicate Moved()
      reads this
    {
      && old(trail) <= trail && old(log) <= log && old(mono) <= mono && old(edits) <= edits
      && (calm ==> edits == old(edits))
      && (steady ==> wall - mono == old(wall) - old(mono))
      && (!old(fault) ==> !fault)
    }

    method Land(d: Disk)
      requires Valid() && d.Safe() && d.Below(nextSerial) && (exposed || d.PowerSafe())
      modifies `disk, `trail
      ensures Valid() && disk == d && trail == old(trail) + [d]
    {
      disk := d;
      trail := trail + [d];
    }

    /** Time passes, the wall clock may jump, and someone may edit the file. */
    method Elapse()
      requires Valid()
      modifies `disk, `trail, `wall, `mono, `edits
      ensures Valid() && Waited()
    {
      hide Disk.Durable, Disk.OneJournal, Disk.Settling, Disk.PowerSafe, Disk.Below, Orderly;
      var ticks :| 0 <= ticks;
      mono := mono + ticks;
      if steady { wall := wall + ticks; } else { wall := *; }
      var edited: bool := *;
      if edited && !calm {
        var f: File := *;
        assert forall dir | dir in disk.dirs :: disk.Covers(dir, Config(f, None));
        PutKeeps(disk, Config(f, None), nextSerial);
        Land(disk.Put(Config(f, None)));
        edits := edits + 1;
      }
    }

    method Note(op: Op)
      requires Valid() && (op.Ran? && op.command == Reload ==> log != [] && log[|log| - 1] == Ran(Validate, true))
      modifies `log
      ensures Valid() && log == old(log) + [op]
    {
      log := log + [op];
    }

    method LookAtClock() returns (t: int)
      modifies `log
      requires Valid()
      ensures Valid() && t == wall && log == old(log) + [Looked(t)]
    {
      t := wall;
      Note(Looked(t));
    }

    method ReadConfig() returns (f: Option<File>)
      requires Valid()
      modifies `disk, `trail, `wall, `mono, `edits, `log
      ensures Valid() && Waited()
      ensures f.Some? ==> f.value == disk.Current().file
      ensures smooth ==> f.Some?
      ensures log == old(log)
    {
      Elapse();
      var readable: bool := *;
      f := if readable || smooth then Some(disk.Current().file) else None;
    }

    /** sshd -t, systemctl reload, or sshd -T together with a look at what it reports. */
    method RunCommand(c: Command) returns (ok: bool)
      requires Valid() && (c == Reload ==> log != [] && log[|log| - 1] == Ran(Validate, true))
      modifies `disk, `trail, `wall, `mono, `edits, `log
      ensures Valid() && Waited()
      ensures smooth ==> ok
      ensures log == old(log) + [Ran(c, ok)]
    {
      Elapse();
      ok := *;
      if smooth { ok := true; }
      Note(Ran(c, ok));
    }

    method ReadJournal(a: ActionId) returns (r: JournalRead)
      requires Valid()
      ensures r.Found? ==> a in disk.Journals() && r.journal == disk.Journals()[a]
      ensures r.NotExist? ==> a !in disk.Journals()
      ensures smooth ==> !r.Unreadable?
    {
      var readable: bool := *;
      if !readable && !smooth {
        r := Unreadable;
      } else if a in disk.Journals() {
        r := Found(disk.Journals()[a]);
      } else {
        r := NotExist;
      }
    }

    method WriteConfig(c: Config) returns (w: Write)
      requires Valid() && forall d | d in disk.dirs :: disk.Covers(d, c)
      modifies `disk, `trail, `wall, `mono, `edits, `log, `fault
      ensures Valid() && Moved()
      ensures disk.dirs == old(disk.dirs) && disk.released == old(disk.released)
      ensures w.NotDone? ==> Waited()
      ensures !w.NotDone? ==> disk.Current() == c
      ensures w.Done? ==> disk == old(disk).PutSynced(c)
      ensures w.Unsynced? && edits == old(edits) ==> disk == old(disk).Put(c)
      ensures smooth ==> if old(fault) then w.Unsynced? && !fault else w.Done?
      ensures log == old(log) + if w.NotDone? then [] else [Wrote]
    {
      hide Disk.Durable, Disk.OneJournal, Disk.Settling, Disk.PowerSafe, Disk.Below, Orderly;
      Elapse();
      var renamed: bool := *;
      if !renamed && !smooth { return NotDone; }
      assert disk.Put(c).Current() == c && disk.PutSynced(c).Current() == c;
      PutKeeps(disk, c, nextSerial);
      ghost var before := disk;
      var synced: bool := *;
      var fails := if smooth then fault else !synced;
      fault := false;
      Note(Wrote);
      Land(disk.Put(c));
      if fails { return Unsynced; }
      assert disk.PutSynced(c) == before.PutSynced(c);
      Land(disk.PutSynced(c));
      return Done;
    }

    method WriteJournal(a: ActionId, j: Journal) returns (w: Write)
      requires Valid() && disk.Journals() == map[]
      requires j.state.action == a && j.state.changed && j.state.applied != j.state.snapshot.content
      requires j.serial < nextSerial
      modifies `disk, `trail, `wall, `mono, `edits, `journaling
      ensures Valid() && Moved() && !disk.Claimed(disk.Current())
      ensures disk.released == old(disk.released)
      ensures edits == old(edits) ==> disk.configs == old(disk.configs)
      ensures w.NotDone? ==> Waited()
      ensures !w.NotDone? ==> disk.Journals() == map[a := j]
      ensures w.Done? ==> disk.dirs == [map[a := j]]
      ensures smooth ==> w == old(journaling) && journaling == Done
    {
      hide Disk.Durable, Disk.OneJournal, Disk.Settling, Disk.PowerSafe, Disk.Below, Orderly;
      Elapse();
      NoJournalNoClaim(disk);
      var renamed: bool, synced: bool := *, *;
      if smooth { renamed, synced := !journaling.NotDone?, journaling.Done?; }
      journaling := Done;
      if !renamed { return NotDone; }
      var dir: Dir := map[a := j];
      assert AtMostOne(dir);
      NoClaimCovered(disk, dir);
      ChangeKeeps(disk, dir, nextSerial);
      ghost var before := disk;
      Land(disk.Change(dir));
      if !synced { return Unsynced; }
      assert disk.ChangeSynced(dir) == before.ChangeSynced(dir);
      Land(disk.ChangeSynced(dir));
      return Done;
    }

    /** A hardened file that no durable write has replaced may come back. */
    predicate MayReturn(j: Journal)
      reads this
    {
      j.serial in disk.unsettled && j.serial !in disk.released
    }

    /** os.Remove followed by a directory sync. A Confirm commits at the unlink. */
    method Unlink(a: ActionId, confirmed: bool, ghost why: Removal) returns (w: Write)
      requires Valid() && a in disk.Journals()
      requires why.journal == disk.Journals()[a] && why.Justified()
      requires !confirmed ==> !disk.Claimed(disk.Current())
      requires confirmed ==> why.Confirmed? && log != [] && log[|log| - 1] == Looked(why.at)
      modifies `disk, `trail, `removals, `exposed
      ensures Valid() && Moved() && disk.configs == old(disk.configs)
      ensures w.NotDone? ==> disk == old(disk) && removals == old(removals)
      ensures !w.NotDone? ==>
        disk.Journals() == map[] && !disk.Claimed(disk.Current()) && removals == old(removals) + [why]
      ensures !w.NotDone? ==>
        disk.released == old(disk.released) + if confirmed then {why.journal.serial} else {}
      ensures smooth ==> w.Done?
      ensures w.Done? ==> disk.dirs == [map[]]
      ensures !w.NotDone? ==> disk.unsettled == old(disk.unsettled)
      ensures w.NotDone? || confirmed ==> exposed == old(exposed)
      ensures !w.NotDone? && !confirmed ==> exposed == (old(exposed) || old(MayReturn(why.journal)))
      ensures !w.NotDone? && !confirmed && !old(exposed) ==> (disk.PowerSafe() <==> !old(MayReturn(why.journal)))
    {
      hide Disk.Durable, Disk.OneJournal, Disk.Settling, Disk.PowerSafe, Disk.Below, Disk.NoClaims, Orderly;
      var unlinked: bool := *;
      if !unlinked && !smooth { return NotDone; }
      RemovingTheOnlyJournal(disk, a);
      var journal := disk.Journals()[a];
      var d := disk;
      if confirmed {
        ReleaseSettles(disk, a);
        ReleaseKeeps(disk, a, nextSerial);
        d := disk.Release(journal.serial);
      } else {
        if !exposed { ClaimsAreUnsettled(disk, a); }
        if MayReturn(journal) { exposed := true; }
      }
      removals := removals + [why];
      Removed(d, nextSerial);
      Land(d.Change(map[]));
      var synced: bool := *;
      if !synced && !smooth { return Unsynced; }
      assert disk.ChangeSynced(map[]) == d.ChangeSynced(map[]);
      Land(d.ChangeSynced(map[]));
      return Done;
    }

    // -------------------------------------------------------------------------
    // Timers
    // -------------------------------------------------------------------------

    /** The timer of `a` runs until the deadline, or for what the window allows of it. */
    predicate DueAt(a: ActionId, confirmBy: int)
      reads this
    {
      && a in timers && mono <= timers[a] <= mono + maxDelay
      && (wall <= confirmBy <= wall + maxDelay ==> timers[a] - mono == confirmBy - wall)
      && (confirmBy < wall ==> timers[a] == mono)
      && (confirmBy > wall + maxDelay ==> timers[a] == mono + maxDelay)
    }

    method Schedule(a: ActionId, confirmBy: int)
      requires Valid()
      modifies `timers
      ensures timers.Keys == old(timers).Keys + {a} && DueAt(a, confirmBy)
      ensures forall b | b in old(timers) && b != a :: timers[b] == old(timers)[b]
    {
      var delay := confirmBy - wall;
      if delay < 0 {
        delay := 0;
      } else if delay > maxDelay {
        delay := maxDelay;
      }
      timers := timers[a := mono + delay];
    }

    method CancelTimer(a: ActionId)
      modifies `timers
      ensures timers == old(timers) - {a}
    {
      timers := timers - {a};
    }

    // -------------------------------------------------------------------------
    // Restoring the snapshot
    // -------------------------------------------------------------------------

    /** sshd -t, then systemctl reload. */
    method ValidateAndReload() returns (ok: bool)
      requires Valid() && !disk.Claimed(disk.Current())
      modifies `disk, `trail, `wall, `mono, `edits, `log
      ensures Valid() && Waited() && !disk.Claimed(disk.Current())
      ensures old(disk).NoClaims() ==> disk.NoClaims()
      ensures smooth ==> ok
      ensures ok ==> log == old(log) + [Ran(Validate, true), Ran(Reload, true)]
    {
      ghost var d0 := disk;
      var valid := RunCommand(Validate);
      EditKeepsUnclaimed(d0, disk);
      if !valid { return false; }
      ghost var d1 := disk;
      ok := RunCommand(Reload);
      EditKeepsUnclaimed(d1, disk);
    }

    /** Without foreign edits the file is as before or `f`. */
    twostate predicate TurnsInto(f: File)
      reads this
    {
      old(disk).Wellformed() && disk.Wellformed() &&
      (edits == old(edits) ==> disk.Current().file == old(disk).Current().file || disk.Current().file == f)
    }

    method RestoreSnapshot(snapshot: File) returns (ok: bool)
      requires Valid()
      modifies `disk, `trail, `wall, `mono, `edits, `log, `fault
      ensures Valid() && Moved() && TurnsInto(snapshot)
      ensures disk.dirs == old(disk.dirs) && disk.released == old(disk.released)
      ensures ok ==> disk.NoClaims() && disk.unsettled == {}
      ensures ok && edits == old(edits) ==> disk == old(disk).PutSynced(Config(snapshot, None))
      ensures smooth && !old(fault) ==> ok
      ensures ok ==> log == old(log) + [Wrote, Ran(Validate, true), Ran(Reload, true)]
      ensures smooth && old(fault) ==>
        !ok && !fault && (edits == old(edits) ==> disk == old(disk).Put(Config(snapshot, None)))
      ensures disk.Claimed(disk.Current()) ==> disk.configs == old(disk).configs
    {
      ghost var before := disk;
      var w := WriteConfig(Config(snapshot, None));
      if w.NotDone? { EditKeepsUnclaimed(before, disk); }
      if !w.Done? { return false; }
      ok := ValidateAndReload();
    }

    /** Put the snapshot back, but only over what this Apply wrote: if the snapshot is there
        already nothing is written, and anything else is somebody's and stays. */
    method RestoreSnapshotIfApplied(a: ActionId, state: State) returns (r: Restore)
      requires Valid() && a in disk.Journals() && disk.Journals()[a].state == state
      modifies `disk, `trail, `wall, `mono, `edits, `log, `fault
      ensures Valid() && Moved() && TurnsInto(state.snapshot)
      ensures disk.dirs == old(disk.dirs) && disk.released == old(disk.released)
      ensures r.RestoredOk? ==>
        && !disk.Claimed(disk.Current())
        && (edits == old(edits) ==> disk.Current().file == state.snapshot)
      ensures r.Conflict? ==> !disk.Claimed(disk.Current()) && Waited()
      ensures edits == old(edits) && Foreign(old(disk).Current().file, state) ==> !r.RestoredOk? && disk == old(disk)
      ensures edits == old(edits) && old(disk).Current().file == state.snapshot ==> !r.Conflict? && disk == old(disk)
      ensures edits == old(edits) && old(disk).Current().file == Written(state) && r.RestoredOk? ==>
        disk == old(disk).PutSynced(Config(state.snapshot, None))
      ensures r.RestoredOk? ==> Reloaded(log)
      ensures r.Conflict? && edits == old(edits) ==> Foreign(old(disk).Current().file, state)
      ensures smooth && !old(fault) ==> !r.Failed? && !fault
      ensures smooth && edits == old(edits) && old(disk).Current().file == state.snapshot ==>
        r.RestoredOk? && fault == old(fault)
      ensures smooth && old(fault) && edits == old(edits) && old(disk).Current().file == Written(state) ==>
        r.Failed? && !fault && disk == old(disk).Put(Config(state.snapshot, None))
      ensures disk.Claimed(disk.Current()) ==> disk.configs == old(disk).configs
    {
      hide Disk.Durable, Disk.OneJournal, Disk.Settling, Disk.PowerSafe, Disk.Below, Orderly;
      ghost var before := disk;
      var read := ReadConfig();
      EditKeepsUnclaimed(before, disk);
      if read == None { return Failed; }
      var current := read.value;
      Recoverable(disk);
      var metadataMatches := current.meta == state.snapshot.meta;
      if current.content == state.snapshot.content && metadataMatches {
        assert !disk.Claimed(disk.Current());
        var reloaded := ValidateAndReload();
        return if reloaded then RestoredOk else Failed;
      }
      if current.content != state.applied || !metadataMatches { return Conflict; }
      var ok := RestoreSnapshot(state.snapshot);
      return if ok then RestoredOk else Failed;
    }

    // -------------------------------------------------------------------------
    // Lifecycle operations
    // -------------------------------------------------------------------------

    /** The journal of `a` was removed by an undo that left the snapshot in place. Nothing
        can bring the hardened file back, unless the snapshot had been there already while
        the hardened file was not settled by a durable write. */
    twostate predicate Undone(a: ActionId)
      reads this
    {
      && old(disk).Wellformed() && disk.Wellformed() && a in old(disk).Journals() && disk.Journals() == map[]
      && (edits == old(edits) ==>
            var j := old(disk).Journals()[a];
            var lingers := old(disk).Current().file == j.state.snapshot && old(MayReturn(j));
            && disk.Current().file == j.state.snapshot
            && exposed == (old(exposed) || lingers)
            && (!old(exposed) ==> (disk.PowerSafe() <==> !lingers)))
    }

    /** Without foreign edits the file is as before, or it was what the journal of `a`
        says an Apply wrote and is the snapshot in that journal. */
    twostate predicate Reverted(a: ActionId)
      reads this
    {
      old(disk).Wellformed() && disk.Wellformed() && (edits == old(edits) ==> Reverts(old(disk), disk, a))
    }

    /** Somebody else's file is left alone, with its journal. */
    twostate predicate LeftAlone(a: ActionId)
      reads this
    {
      && old(disk).Wellformed()
      && ((edits == old(edits) && a in old(disk).Journals()
           && Foreign(old(disk).Current().file, old(disk).Journals()[a].state)) ==> disk == old(disk))
    }

    /** A successful Rollback restored the snapshot the journal carried. A failed one
        unlinks a journal only after the same restoration. */
    method Rollback(params: string, state: State) returns (ok: bool)
      requires Valid() && Armed()
      modifies `disk, `trail, `wall, `mono, `edits, `log, `timers, `removals, `exposed, `fault
      ensures Valid() && Armed() && Moved() && LeftAlone(state.action) && Reverted(state.action)
      ensures !state.changed ==> ok && disk == old(disk)
      ensures ok && state.changed ==>
        && state.action in old(disk).Journals()
        && old(disk).Journals()[state.action].state == state && old(disk).Journals()[state.action].params == params
        && state.action !in timers && !disk.Claimed(disk.Current()) && Reloaded(log)
      ensures (ok && state.changed) || disk.Journals() != old(disk).Journals() ==> Undone(state.action)
      ensures disk.Journals() == old(disk).Journals() ==> exposed == old(exposed)
      ensures disk.released == old(disk.released)
      ensures ok && state.changed ==> disk.dirs == [map[]]
      ensures ok && state.changed && edits == old(edits) && old(disk).Current().file == state.snapshot ==>
        disk.configs == old(disk).configs
      ensures smooth && Pending(old(disk), params, state) && edits == old(edits) ==>
        if Foreign(old(disk).Current().file, state) then !ok
        else if !old(fault) || old(disk).Current().file == state.snapshot then ok && fault == old(fault)
        else !ok && !fault && disk == old(disk).Put(Config(state.snapshot, None))
    {
      hide Disk.Durable, Disk.OneJournal, Disk.Settling, Disk.PowerSafe, Disk.Below, Orderly;
      if !state.changed { return true; }
      var a := state.action;
      var read := ReadJournal(a);
      if !read.Found? { return false; }
      var journal := read.journal;
      if journal.state != state || journal.params != params { return false; }
      ghost var before := edits;
      var restored := RestoreSnapshotIfApplied(a, journal.state);
      if !restored.RestoredOk? { return false; }
      CancelTimer(a);
      var w := Unlink(a, false, Restored(journal, disk.Current().file, edits != before));
      return w.Done?;
    }

    method Verify(state: State) returns (ok: bool)
      requires Valid()
      modifies `disk, `trail, `wall, `mono, `edits, `log
      ensures Valid() && Waited()
      ensures ok && edits == old(edits) ==> disk.Current().file.content == state.applied
      ensures ok ==> log == old(log) + [Ran(Validate, true), Ran(Effective, true)]
      ensures smooth && edits == old(edits) && old(disk).Current().file.content == state.applied ==> ok
    {
      ghost var d0 := disk;
      var read := ReadConfig();
      if read == None || read.value.content != state.applied { return false; }
      var validates := RunCommand(Validate);
      if !validates { return false; }
      var effectiveNo := RunCommand(Effective);
      return effectiveNo;
    }

    /** Confirm never writes the configuration. It commits when it unlinks the journal,
        even if it then reports a sync error: the deadline was ahead when it began, and
        again when it looked at the clock after it had verified. */
    method Confirm(params: string, state: State) returns (ok: bool)
      requires Valid() && Armed()
      modifies `disk, `trail, `wall, `mono, `edits, `log, `timers, `removals, `exposed
      ensures exposed == old(exposed)
      ensures Valid() && Armed() && Moved()
      ensures edits == old(edits) ==> disk.configs == old(disk).configs
      ensures !state.changed ==> ok && disk == old(disk)
      ensures ok && state.changed ==> disk.Journals() == map[] != old(disk).Journals() && state.action !in timers
      ensures disk.Journals() != old(disk).Journals() ==>
        && disk.Journals() == map[] && state.action in old(disk).Journals()
        && old(disk).Journals()[state.action].state == state
        && disk.released == old(disk).released + {old(disk).Journals()[state.action].serial}
        && |removals| == |old(removals)| + 1 && removals[|old(removals)|].Confirmed?
        && old(wall) < state.confirmBy
        && var at := removals[|old(removals)|].at;
           && at < state.confirmBy && (steady ==> old(wall) <= at <= wall)
           && log == old(log) + [Looked(old(wall)), Ran(Validate, true), Ran(Effective, true), Looked(at)]
      ensures disk.Journals() != old(disk).Journals() ==>
        && old(disk).Journals()[state.action].params == params
        && (edits == old(edits) ==> old(disk).Current().file.content == state.applied)
      ensures disk.Journals() == old(disk).Journals() ==> !(ok && state.changed) && removals == old(removals)
      ensures smooth && steady && edits == old(edits) && Pending(old(disk), params, state) ==>
        (old(disk).Current().file.content == state.applied && wall < state.confirmBy ==> ok)
    {
      hide Disk.Durable, Disk.OneJournal, Disk.Settling, Disk.PowerSafe, Disk.Below, Disk.NoClaims, Orderly;
      if !state.changed { return true; }
      var a := state.action;
      var read := ReadJournal(a);
      if !read.Found? { return false; }
      var journal := read.journal;
      if journal.state != state || journal.params != params { return false; }
      var now := LookAtClock();
      if now >= journal.state.confirmBy { return false; }
      ghost var before := disk;
      var verified := Verify(state);
      EditKeepsUnclaimed(before, disk);
      if !verified { return false; }
      ok := CommitConfirmation(a, journal);
    }

    /** Look at the clock once more, and unlink the journal if the deadline is still ahead. */
    method CommitConfirmation(a: ActionId, journal: Journal) returns (ok: bool)
      requires Valid() && Armed() && a in disk.Journals() && disk.Journals()[a] == journal
      modifies `disk, `trail, `wall, `mono, `edits, `log, `timers, `removals, `exposed
      ensures exposed == old(exposed)
      ensures Valid() && Armed() && Moved()
      ensures edits == old(edits) ==> disk.configs == old(disk).configs
      ensures ok ==> disk.Journals() == map[] && a !in timers
      ensures disk.Journals() != old(disk).Journals() ==>
        && disk.Journals() == map[] && disk.released == old(disk).released + {journal.serial}
        && old(wall) < journal.state.confirmBy && log == old(log) + [Looked(old(wall))]
        && removals == old(removals) + [Confirmed(journal, old(wall))]
      ensures disk.Journals() == old(disk).Journals() ==> !ok && removals == old(removals)
      ensures smooth ==> (ok <==> old(wall) < journal.state.confirmBy)
    {
      hide Disk.Durable, Disk.OneJournal, Disk.Settling, Disk.PowerSafe, Disk.Below, Disk.NoClaims, Orderly;
      var now := LookAtClock();
      if now >= journal.state.confirmBy { return false; }
      ghost var before := disk;
      Elapse();
      EditKeepsUnclaimed(before, disk);
      var w := Unlink(a, true, Confirmed(journal, now));
      if !w.Done? { return false; }
      CancelTimer(a);
      return true;
    }

    /** Every expiry leaves the snapshot in place, has seen a foreign edit, or re-arms within
        a minute because some call failed. */
    method Expire(a: ActionId)
      requires Valid() && Armed()
      modifies `disk, `trail, `wall, `mono, `edits, `log, `timers, `removals, `exposed, `fault
      ensures Valid() && Armed() && Moved() && LeftAlone(a) && Reverted(a)
      ensures disk.released == old(disk.released)
      ensures a in timers ==> timers[a] == mono + MINUTE && !(smooth && !old(fault))
      ensures a !in timers && a in old(disk).Journals() ==> !disk.Claimed(disk.Current())
      ensures a !in timers && a in old(disk).Journals() && edits == old(edits) ==>
        var state := old(disk).Journals()[a].state;
        Foreign(old(disk).Current().file, state) || disk.Current().file == state.snapshot
      ensures disk.Journals() != old(disk).Journals() ==> Undone(a)
      ensures disk.Journals() == old(disk).Journals() ==> exposed == old(exposed)
    {
      hide Disk.Durable, Disk.OneJournal, Disk.Settling, Disk.PowerSafe, Disk.Below, Orderly;
      Recoverable(disk);
      var read := ReadJournal(a);
      if read.NotExist? {
        CancelTimer(a);
        return;
      }
      var retry := true;
      if read.Found? {
        retry := ExpireJournal(a, read.journal);
      }
      if retry {
        timers := timers[a := mono + MINUTE];
      } else {
        CancelTimer(a);
      }
    }

    method ExpireJournal(a: ActionId, journal: Journal) returns (retry: bool)
      requires Valid() && a in disk.Journals() && disk.Journals()[a] == journal
      modifies `disk, `trail, `wall, `mono, `edits, `log, `removals, `exposed, `fault
      ensures Valid() && Moved() && disk.released == old(disk).released && LeftAlone(a) && Reverted(a)
      ensures disk.Claimed(disk.Current()) ==> retry && disk.configs == old(disk).configs
      ensures smooth && !old(fault) ==> !retry
      ensures !retry && edits == old(edits) && !Foreign(old(disk).Current().file, journal.state) ==>
        disk.Current().file == journal.state.snapshot
      ensures disk.Journals() != old(disk).Journals() ==> Undone(a)
      ensures disk.Journals() == old(disk).Journals() ==> exposed == old(exposed)
    {
      hide Disk.Durable, Disk.OneJournal, Disk.Settling, Disk.PowerSafe, Disk.Below, Orderly;
      var restored := RestoreSnapshotIfApplied(a, journal.state);
      if restored.RestoredOk? {
        var _ := Unlink(a, false, Restored(journal, disk.Current().file, edits != old(edits)));
      }
      return restored.Failed?;
    }

    method RejectOtherPendingJournal(a: ActionId) returns (ok: bool)
      requires Valid()
      ensures ok ==> disk.Journals().Keys <= {a}
      ensures smooth && disk.Journals().Keys <= {a} ==> ok
    {
      var listed: bool := *;
      return (listed || smooth) && forall b | b in disk.Journals() :: b == a;
    }

    /** Unlink the journal of a change whose snapshot is known to be back in place. */
    method KnownRestoredFailure(a: ActionId, journal: Journal, ghost edited: bool) returns (r: Applied)
      requires Valid() && disk.Journals() == map[a := journal]
      requires disk.NoClaims() && (edited || disk.Current().file == journal.state.snapshot)
      modifies `disk, `trail, `removals, `timers, `exposed
      ensures exposed == old(exposed)
      ensures Valid() && Armed() && Moved() && !r.ok && disk.configs == old(disk).configs
      ensures disk.released == old(disk).released
      ensures r.state == None ==> disk.Journals() == map[]
      ensures r.state != None ==> r.state == Some(journal.state) && DueAt(a, journal.state.confirmBy)
      ensures smooth ==> r.state == None
    {
      hide Disk.Durable, Disk.OneJournal, Disk.Settling, Disk.PowerSafe, Disk.Below, Orderly;
      assert disk.Current() in disk.configs;
      if !exposed { ClaimsAreUnsettled(disk, a); }
      var w := Unlink(a, false, Restored(journal, disk.Current().file, edited));
      if w.Done? { return Applied(false, None); }
      Schedule(a, journal.state.confirmBy);
      return Applied(false, Some(journal.state));
    }

    /** The answer of an Apply whose action already has a journal. */
    method PendingApply(a: ActionId, params: string, journal: Journal) returns (r: Applied)
      requires Valid() && Armed() && a in disk.Journals() && disk.Journals()[a] == journal
      modifies `disk, `trail, `wall, `mono, `edits, `log
      ensures Valid() && Armed() && Waited()
      ensures r == Applied(false, None) || r == Applied(true, Some(journal.state))
      ensures r.ok ==>
        journal.params == params && (edits == old(edits) ==> disk.Current().file.content == journal.state.applied)
      ensures r.ok ==> wall < journal.state.confirmBy
      ensures smooth && edits == old(edits) ==>
        (r.ok <==> journal.params == params && old(disk).Current().file.content == journal.state.applied
                   && wall < journal.state.confirmBy)
    {
      hide Disk.Durable, Disk.OneJournal, Disk.Settling, Disk.PowerSafe, Disk.Below, Orderly;
      if journal.params != params { return Applied(false, None); }
      ghost var before := disk;
      var active := ReadConfig();
      EditKeepsUnclaimed(before, disk);
      if active == None || active.value.content != journal.state.applied { return Applied(false, None); }
      if wall >= journal.state.confirmBy { return Applied(false, None); }
      return Applied(true, Some(journal.state));
    }

    /** A step after the journal failed: put the snapshot back, reloading sshd when the
        hardened file may already be in force, and keep the journal unless that worked. */
    method UndoChange(a: ActionId, journal: Journal, reload: bool) returns (r: Applied)
      requires Valid() && disk.dirs == [map[a := journal]]
      modifies `disk, `trail, `wall, `mono, `edits, `log, `timers, `removals, `fault, `exposed
      ensures exposed == old(exposed)
      ensures Valid() && Armed() && Moved() && !r.ok && TurnsInto(journal.state.snapshot)
      ensures r.state == None ==> log == old(log) + if reload then RELOADED else [Wrote]
      ensures smooth && !old(fault) ==> r.state == None
      ensures disk.released == old(disk).released
      ensures r.state == None ==>
        disk.Journals() == map[] && (edits == old(edits) ==> disk.Current().file == journal.state.snapshot)
      ensures r.state != None ==> r.state == Some(journal.state)
    {
      hide Disk.Durable, Disk.OneJournal, Disk.Settling, Disk.PowerSafe, Disk.Below, Orderly;
      var restored: bool;
      ghost var before := edits;
      if reload {
        restored := RestoreSnapshot(journal.state.snapshot);
      } else {
        var w := WriteConfig(Config(journal.state.snapshot, None));
        restored := w.Done?;
      }
      if restored {
        r := KnownRestoredFailure(a, journal, edits != before);
      } else {
        r := RecoverableFailure(a, journal.state);
      }
    }

    /** Write the hardened file, let sshd validate it, and reload. */
    method Harden(a: ActionId, journal: Journal) returns (ok: bool, reloading: bool)
      requires Valid() && disk.dirs == [map[a := journal]]
      requires journal.state.action == a
      modifies `disk, `trail, `wall, `mono, `edits, `log, `fault
      ensures Valid() && Moved() && disk.dirs == old(disk.dirs) && disk.released == old(disk).released
      ensures smooth && !old(fault) ==> ok
      ensures ok && edits == old(edits) ==>
        disk.Current() == Config(Written(journal.state), Some(Stamp(a, journal.serial)))
      ensures TurnsInto(Written(journal.state))
      ensures reloading ==> log == old(log) + if ok then RELOADED else UNRELOADED
      ensures !reloading ==>
        !ok && (log == old(log) || log == old(log) + [Wrote] || log == old(log) + [Wrote] + [Ran(Validate, false)])
      ensures ok ==> log == old(log) + [Wrote, Ran(Validate, true), Ran(Reload, true)]
    {
      hide Disk.Durable, Disk.OneJournal, Disk.Settling, Disk.PowerSafe, Disk.Below, Orderly;
      var written := WriteConfig(Config(Written(journal.state), Some(Stamp(a, journal.serial))));
      ok, reloading := written.Done?, false;
      if ok { ok := RunCommand(Validate); }
      if ok {
        ok := RunCommand(Reload);
        reloading := true;
      }
    }

    /** Everything after the journal is durable: write, validate, reload, arm. */
    method ApplyJournaled(a: ActionId, journal: Journal) returns (r: Applied)
      requires Valid() && disk.dirs == [map[a := journal]] && !disk.Claimed(disk.Current())
      requires journal.state.action == a && journal.serial !in disk.released
      modifies `disk, `trail, `wall, `mono, `edits, `log, `timers, `removals, `fault, `exposed
      ensures exposed == old(exposed)
      ensures Valid() && Armed() && Moved()
      ensures edits == old(edits) ==> disk.Current().file in Hands(old(disk), journal)
      ensures disk.released == old(disk).released
      ensures !r.ok && r.state == None ==>
        disk.Journals() == map[] && (edits == old(edits) ==> disk.Current().file == journal.state.snapshot)
      ensures r.state != None ==> r.state == Some(journal.state)
      ensures r.ok ==> r.state != None && disk.dirs == [map[a := journal]] && DueAt(a, journal.state.confirmBy)
      ensures smooth && !old(fault) ==> r.ok
      ensures r.ok ==> journal.serial !in disk.released
      ensures r.ok ==> log == old(log) + [Wrote, Ran(Validate, true), Ran(Reload, true)]
      ensures !r.ok && r.state == None ==>
        || log == old(log) + UNRELOADED + RELOADED
        || log == old(log) + [Wrote] || log == old(log) + [Wrote] + [Wrote]
        || log == old(log) + [Wrote] + [Ran(Validate, false)] + [Wrote]
      ensures r.ok && edits == old(edits) ==>
        disk.Current() == Config(Written(journal.state), Some(Stamp(a, journal.serial)))
    {
      hide Disk.Durable, Disk.OneJournal, Disk.Settling, Disk.PowerSafe, Disk.Below, Orderly;
      var ok, reloading := Harden(a, journal);
      if !ok {
        r := UndoChange(a, journal, reloading);
        return;
      }
      Recoverable(disk);
      Schedule(a, journal.state.confirmBy);
      return Applied(true, Some(journal.state));
    }

    /** Keep the journal and arm the timer. */
    method RecoverableFailure(a: ActionId, state: State) returns (r: Applied)
      requires Valid() && disk.Journals().Keys == {a}
      modifies `timers
      ensures Valid() && Armed() && r == Applied(false, Some(state)) && DueAt(a, state.confirmBy)
    {
      Recoverable(disk);
      Schedule(a, state.confirmBy);
      return Applied(false, Some(state));
    }

    /** An error without state leaves the file and the journals as they were. Success
        with a change leaves the hardened file covered by its journal and timer. */
    method Apply(a: ActionId, params: string, seconds: int) returns (r: Applied)
      requires Valid() && Armed() && up
      modifies `disk, `trail, `wall, `mono, `edits, `log, `timers, `removals, `nextSerial, `fault, `journaling, `exposed
      ensures exposed == old(exposed)
      ensures Valid() && Armed() && Moved() && TurnsInto(HardenedFile(old(disk).Current().file))
      ensures old(disk).Journals() != map[] ==> Waited()
      ensures smooth && edits == old(edits) && a in old(disk).Journals() ==>
        (r.ok <==> var j := old(disk).Journals()[a];
                   j.params == params && old(disk).Current().file.content == j.state.applied
                   && wall < j.state.confirmBy)
      ensures disk.released == old(disk).released
      ensures !r.ok && r.state == None ==>
        && disk.Journals() == old(disk).Journals()
        && (edits == old(edits) ==> disk.Current().file == old(disk).Current().file)
      ensures smooth && !old(fault) && old(journaling).Done? && old(disk).Journals() == map[] ==> r.ok
      ensures r.ok ==> r.state.Some? && r.state.value.action == a
      ensures r.ok && r.state.value.changed ==>
        && a in disk.Journals() && disk.Journals()[a].state == r.state.value && disk.Journals()[a].params == params
        && (edits == old(edits) ==> disk.Current().file.content == r.state.value.applied)
      ensures r.ok && r.state.value.changed && a !in old(disk).Journals() && edits == old(edits) ==>
        && disk.dirs == [disk.Journals()]
        && r.state.value.snapshot == old(disk).Current().file
        && disk.Current() == Config(HardenedFile(old(disk).Current().file), Some(Stamp(a, disk.Journals()[a].serial)))
        && disk.Claimed(disk.Current())
      ensures r.ok && r.state.value.changed && a !in old(disk).Journals() ==>
        log == old(log) + [Ran(Validate, true), Wrote, Ran(Validate, true), Ran(Reload, true)]
      ensures r.ok && r.state.value.changed && a !in old(disk).Journals() ==>
        DueAt(a, r.state.value.confirmBy) && DeadlineSet(seconds, r.state.value.confirmBy)
      ensures r.ok && !r.state.value.changed ==>
        && disk.Journals() == old(disk).Journals() == map[]
        && (edits == old(edits) ==>
          disk == old(disk) && SshConfig.Hardened(disk.Current().file.content) == disk.Current().file.content)
    {
      hide Disk.Durable, Disk.OneJournal, Disk.Settling, Disk.PowerSafe, Disk.Below, Orderly;
      var existing := ReadJournal(a);
      Recoverable(disk);
      if existing.Found? {
        r := PendingApply(a, params, existing.journal);
        return;
      }
      if existing.Unreadable? { return Applied(false, None); }
      var alone := RejectOtherPendingJournal(a);
      if !alone { return Applied(false, None); }
      r := ApplyFresh(a, params, seconds);
    }

    /** Snapshot the configuration and let sshd validate it. */
    method Precheck() returns (snapshot: Option<File>)
      requires Valid() && !disk.Claimed(disk.Current())
      modifies `disk, `trail, `wall, `mono, `edits, `log
      ensures Valid() && Waited() && !disk.Claimed(disk.Current())
      ensures smooth ==> snapshot.Some?
      ensures snapshot.Some? ==> log == old(log) + [Ran(Validate, true)]
      ensures snapshot.Some? && edits == old(edits) ==> snapshot.value == disk.Current().file
    {
      ghost var d0 := disk;
      var read := ReadConfig();
      EditKeepsUnclaimed(d0, disk);
      ghost var d1 := disk;
      var valid := RunCommand(Validate);
      EditKeepsUnclaimed(d1, disk);
      return if valid then read else None;
    }

    method ApplyFresh(a: ActionId, params: string, seconds: int) returns (r: Applied)
      requires Valid() && disk.Journals() == map[]
      modifies `disk, `trail, `wall, `mono, `edits, `log, `timers, `removals, `nextSerial, `fault, `journaling, `exposed
      ensures TurnsInto(HardenedFile(old(disk).Current().file))
      ensures exposed == old(exposed)
      ensures Valid() && Armed() && Moved()
      ensures disk.released == old(disk).released
      ensures !r.ok && r.state == None ==>
        disk.Journals() == map[] && (edits == old(edits) ==> disk.Current().file == old(disk).Current().file)
      ensures smooth && !old(fault) && old(journaling).Done? ==> r.ok
      ensures r.ok ==> r.state.Some? && r.state.value.action == a
      ensures r.ok && r.state.value.changed ==>
        && a in disk.Journals() && disk.Journals()[a].state == r.state.value && disk.Journals()[a].params == params
        && disk.dirs == [disk.Journals()]
        && DueAt(a, r.state.value.confirmBy) && DeadlineSet(seconds, r.state.value.confirmBy)
      ensures r.ok && r.state.value.changed ==>
        log == old(log) + [Ran(Validate, true), Wrote, Ran(Validate, true), Ran(Reload, true)]
      ensures r.ok && r.state.value.changed && edits == old(edits) ==>
        && r.state.value.snapshot == old(disk).Current().file
        && Written(r.state.value) == HardenedFile(old(disk).Current().file)
        && disk.Current() == Config(Written(r.state.value), Some(Stamp(a, disk.Journals()[a].serial)))
        && disk.Claimed(disk.Current())
      ensures r.ok && !r.state.value.changed && edits == old(edits) ==>
        r.state == Some(State(a, disk.Current().file, disk.Current().file.content, false, 0))
      ensures r.ok && !r.state.value.changed ==>
        && disk.Journals() == map[]
        && (edits == old(edits) ==>
          disk == old(disk) && SshConfig.Hardened(disk.Current().file.content) == disk.Current().file.content)
    {
      hide Disk.Durable, Disk.OneJournal, Disk.Settling, Disk.PowerSafe;
      hide SshConfig.Hardened;
      NoJournalNoClaim(disk);
      var read := Precheck();
      if read == None { return Applied(false, None); }
      var snapshot := read.value;
      var hardened := SshConfig.Hardened(snapshot.content);
      if hardened == snapshot.content {
        return Applied(true, Some(State(a, snapshot, hardened, false, 0)));
      }
      var confirmBy := wall + Window(seconds);
      var journal := Journal(nextSerial, params, State(a, snapshot, hardened, true, confirmBy));
      nextSerial := nextSerial + 1;
      r := ApplyChange(a, journal);
    }

    method ApplyChange(a: ActionId, journal: Journal) returns (r: Applied)
      requires Valid() && disk.Journals() == map[]
      requires journal.state.action == a && journal.state.changed
        && journal.state.applied != journal.state.snapshot.content
      requires journal.serial < nextSerial && journal.serial !in disk.released
      modifies `disk, `trail, `wall, `mono, `edits, `log, `timers, `removals, `fault, `journaling, `exposed
      ensures exposed == old(exposed)
      ensures Valid() && Armed() && Moved()
      ensures edits == old(edits) ==> disk.Current().file in Hands(old(disk), journal)
      ensures disk.released == old(disk).released
      ensures !r.ok && r.state == None ==>
        && disk.Journals() == map[]
        && (edits == old(edits) ==> disk.Current().file in {old(disk).Current().file, journal.state.snapshot})
      ensures r.state != None ==> r.state == Some(journal.state)
      ensures r.ok ==> r.state != None && disk.dirs == [map[a := journal]] && DueAt(a, journal.state.confirmBy)
      ensures smooth && !old(fault) && old(journaling).Done? ==> r.ok
      ensures r.ok ==> journal.serial !in disk.released
      ensures smooth && old(journaling).NotDone? ==> !r.ok && r.state == None && disk.Journals() == map[]
      ensures smooth && old(journaling).Unsynced? ==>
        && !r.ok && r.state == Some(journal.state) && disk.Journals() == map[a := journal]
        && DueAt(a, journal.state.confirmBy)
      ensures r.ok ==> log == old(log) + [Wrote, Ran(Validate, true), Ran(Reload, true)]
      ensures r.ok && edits == old(edits) ==>
        disk.Current() == Config(Written(journal.state), Some(Stamp(a, journal.serial)))
    {
      hide Disk.Durable, Disk.OneJournal, Disk.Settling, Disk.PowerSafe, Disk.Below, Orderly;
      var state := journal.state;
      var journaled := WriteJournal(a, journal);
      if !journaled.Done? {
        var visible := ReadJournal(a);
        if visible.Found? && visible.journal.state == state && visible.journal.params == journal.params {
          r := RecoverableFailure(a, state);
          return;
        }
        if visible.NotExist? { return Applied(false, None); }
        return Applied(false, Some(state));
      }
      r := ApplyJournaled(a, journal);
    }

    // -------------------------------------------------------------------------
    // Crashes, restarts, and whole runs
    // -------------------------------------------------------------------------

    /** The process dies with the disk as it was at position `k` of the trail. */
    method Crash(k: nat)
      requires Valid() && k < |trail|
      modifies `disk, `trail, `timers, `up
      ensures Valid() && Armed() && Moved() && !up && timers == map[]
      ensures disk == old(trail)[k]
    {
      up, timers := false, map[];
      assert trail[k] in trail;
      Land(trail[k]);
    }

    /** The machine loses power there: each directory keeps any state not yet synced away. */
    method PowerLoss(k: nat, i: nat, j: nat)
      requires Valid() && !exposed && k < |trail| && i < |trail[k].configs| && j < |trail[k].dirs|
      modifies `disk, `trail, `timers, `up
      ensures Valid() && Armed() && Moved() && !up && timers == map[]
      ensures disk == old(trail)[k].Survivor(i, j)
    {
      up, timers := false, map[];
      var d := trail[k];
      assert d in trail;
      SurvivorKeeps(d, i, j, nextSerial);
      var survivor := d.Survivor(i, j);
      Land(survivor);
    }

    /** Start the process: schedule every journal, or refuse to start. */
    method Restart()
      requires Valid() && !up
      modifies `timers, `up
      ensures Valid() && Armed()
      ensures up ==> disk.Journals().Keys <= timers.Keys
      ensures smooth ==> up
    {
      hide Disk.Durable, Disk.OneJournal, Disk.Settling, Disk.PowerSafe, Disk.Below, Disk.NoClaims, Orderly;
      timers := map[];
      var pending := disk.Journals().Keys;
      while pending != {}
        invariant Valid() && !up && pending <= disk.Journals().Keys
        invariant timers.Keys == disk.Journals().Keys - pending
        invariant forall a | a in timers :: timers[a] <= mono + maxDelay
      {
        var a :| a in pending;
        var read := ReadJournal(a);
        if !read.Found? { return; }
        Schedule(a, read.journal.state.confirmBy);
        pending := pending - {a};
      }
      Recoverable(disk);
      up := true;
    }

    /** One event. A power loss that follows an exposed removal is not taken. */
    method Step(event: Event, start: nat) returns (taken: bool)
      requires Valid() && Armed() && start < |trail|
      modifies this
      ensures Valid() && Armed() && Moved()
      ensures taken ==> Passage(event, old(disk), disk, edits != old(edits)).Explained()
      ensures !taken ==> event.PowerLossAt? && exposed && disk == old(disk)
    {
      hide Disk.Durable, Disk.OneJournal, Disk.Settling, Disk.PowerSafe, Disk.Below, Disk.NoClaims, Orderly;
      taken := true;
      match event {
        case ApplyRequest(a, params, seconds) => if up { var _ := Apply(a, params, seconds); }
        case RollbackRequest(params, state) => if up { var _ := Rollback(params, state); }
        case ConfirmRequest(params, state) => if up { var _ := Confirm(params, state); }
        case Expiry(a) => if up { Expire(a); }
        case Quiet =>
          ghost var before := disk;
          Elapse();
          EditKeepsUnclaimed(before, disk);
        case CrashAt(back) =>
          if start + back < |trail| { Crash(start + back); }
        case PowerLossAt(back, i, j) =>
          if start + back < |trail| && i < |trail[start + back].configs| && j < |trail[start + back].dirs| {
            if exposed { return false; }
            PowerLoss(start + back, i, j);
          }
        case Start => if !up { Restart(); }
      }
    }

    /** Any sequence of requests, expiries, foreign edits, crashes, power losses and
        restarts. The run stops at a power loss that follows an exposed removal. Every
        disk state passed is recoverable, every idle state is armed, every journal was
        removed for cause, and nothing but an Apply or the playback of a journal over its
        own file changed the configuration. */
    method Run(events: seq<Event>) returns (done: nat, ghost passages: seq<Passage>)
      requires Valid() && Armed() && up
      modifies this
      ensures Valid() && Armed() && Moved() && done <= |events|
      ensures done < |events| ==> events[done].PowerLossAt? && exposed
      ensures |passages| == done && Chained(old(disk), passages, events, disk)
      ensures forall i | 0 <= i < done :: passages[i].Explained()
    {
      hide Passage.Explained;
      done, passages := 0, [];
      var start := |trail| - 1;
      while done < |events|
        invariant done == |passages| <= |events| && Valid() && Armed() && Moved()
        invariant 0 <= start < |trail|
        invariant Chained(old(disk), passages, events, disk)
        invariant forall i | 0 <= i < done :: passages[i].Explained()
      {
        var last := |trail| - 1;
        ghost var before, count := disk, edits;
        var taken := Step(events[done], start);
        if !taken { return; }
        ghost var passage := Passage(events[done], before, disk, edits != count);
        ChainGrows(old(disk), passages, events, passage);
        passages := passages + [passage];
        start := last;
        done := done + 1;
      }
    }
  }

  /** Where the safety against a power loss ends: an Apply, a Rollback whose directory sync
      fails after the snapshot is in place, and a second Rollback, which finds the snapshot,
      writes nothing and unlinks the journal. The hardened file can come back without one. */
  method PowerLossCanStrandAChange(f: File, a: ActionId, params: string, seconds: int)
    returns (p: Playbook, stranded: Disk)
    requires SshConfig.Hardened(f.content) != f.content
    ensures p.Valid() && p.edits == 0 && p.disk.Current().file == f && p.disk.Journals() == map[]
    ensures exists i, j :: 0 <= i < |p.disk.configs| && 0 <= j < |p.disk.dirs| && stranded == p.disk.Survivor(i, j)
    ensures stranded.Current().file == HardenedFile(f) && stranded.Claimed(stranded.Current())
    ensures stranded.Journals() == map[] && !stranded.Durable()
  {
    hide SshConfig.Hardened, Disk.OneJournal, Disk.PowerSafe, Disk.Below, Orderly;
    p := new Playbook(f, 30 * SECOND, 120 * SECOND, 600 * SECOND, true, true, true, 0);
    var applied := p.Apply(a, params, seconds);
    var state := applied.state.value;
    assert state.changed;
    ghost var hardened := p.disk.Current();
    p.fault := true;
    var first := p.Rollback(params, state);
    assert !first;
    ghost var before := p.disk;
    var second := p.Rollback(params, state);
    assert second && p.disk.configs == before.configs;
    var i := |p.disk.configs| - 2;
    assert p.disk.configs[i] == hardened;
    stranded := p.disk.Survivor(i, 0);
    assert !stranded.Covers(map[], hardened);
  }
}
