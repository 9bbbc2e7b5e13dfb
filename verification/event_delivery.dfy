/**
 From the log file to the Controller: poll, enqueue durably, save the checkpoint, flush.
 A crash or a power loss may strike between any two durable steps, and other tasks
 enqueue and flush at the same time. No event of a byte behind the saved checkpoint may
 be lost.
 */
module EventDelivery {
  import opened Prelude
  import opened AuthLog

  const MAX_ITEMS: nat := 5000

  /** File names order the queue: a creation time followed by a random suffix. */
  type Name = nat

  datatype Item = Events(events: seq<Event>) | Report(id: nat) | CommandResult(command: string)

  type Dir = map<Name, Item>

  /** A saved checkpoint, with what it stands for: the bytes of its generation that it
      covers (they start at `base`) and the events of the generations before. */
  datatype Mark = Mark(saved: Saved, base: nat, consumed: string, earlier: seq<Event>) {
    /** Every event of a byte behind this checkpoint. */
    function Owed(find: Matcher): seq<Event> {
      match saved
      case Stored(cp) => earlier + LineEvents(find, cp.source, base, consumed)
      case _ => earlier
    }

    ghost predicate Wellformed() {
      match saved
      case Stored(cp) => cp.offset == base + |consumed| && StopsWell(consumed, cp.discarding)
      case _ => consumed == "" && earlier == []
    }

    /** The file still holds what the checkpoint covers, or visibly does not. */
    predicate Faithful(file: LogFile) {
      saved.Stored? && Continues(saved.checkpoint, file) && base <= saved.checkpoint.offset ==>
        file.content[base..saved.checkpoint.offset] == consumed
    }
  }

  function MarkGeneration(m: Mark): nat { if m.saved.Stored? then m.saved.checkpoint.source.generation else 0 }

  function MarkOffset(m: Mark): nat { if m.saved.Stored? then m.saved.checkpoint.offset else 0 }

  /** Checkpoint order: generation first, then offset. */
  predicate NotAfter(a: Mark, b: Mark) {
    || MarkGeneration(a) < MarkGeneration(b)
    || (MarkGeneration(a) == MarkGeneration(b) && MarkOffset(a) <= MarkOffset(b))
  }

  /** Checkpoint file and queue directory; the last element is live, the earlier ones
      may come back after a power loss. */
  datatype Disk = Disk(marks: seq<Mark>, dirs: seq<Dir>) {
    predicate Wellformed() { marks != [] && dirs != [] }

    function Live(): Mark
      requires Wellformed()
    {
      marks[|marks| - 1]
    }

    function Queue(): Dir
      requires Wellformed()
    {
      dirs[|dirs| - 1]
    }
  }

  /** Later checkpoints lie further on, and none before `floor`. */
  predicate Forward(floor: Mark, disk: Disk) {
    && (forall i | 0 <= i < |disk.marks| :: NotAfter(floor, disk.marks[i]))
    && (forall i, j | 0 <= i < j < |disk.marks| :: NotAfter(disk.marks[i], disk.marks[j]))
  }

  ghost predicate Holds(d: Dir, e: Event) { exists n | n in d :: d[n].Events? && e in d[n].events }

  /** The event reached the Controller or is in the queue whatever survives. */
  ghost predicate Kept(dirs: seq<Dir>, delivered: set<Event>, e: Event) {
    e in delivered || forall d | d in dirs :: Holds(d, e)
  }

  ghost predicate Safe(find: Matcher, disk: Disk, delivered: set<Event>) {
    && disk.Wellformed()
    && (forall m | m in disk.marks :: m.Wellformed())
    && (forall m, e | m in disk.marks && e in m.Owed(find) :: Kept(disk.dirs, delivered, e))
  }

  // ---------------------------------------------------------------------------
  // What the durable steps keep
  // ---------------------------------------------------------------------------

  /** Adding a queue entry loses nothing. */
  lemma AddKeeps(d: Dir, n: Name, item: Item, e: Event)
    requires n !in d && Holds(d, e)
    ensures Holds(d[n := item], e)
  {
    var k :| k in d && d[k].Events? && e in d[k].events;
    assert d[n := item][k] == d[k];
  }

  /** Removing an entry whose events were delivered loses nothing. */
  lemma RemoveKeeps(d: Dir, n: Name, delivered: set<Event>, e: Event)
    requires Holds(d, e) && (n in d && d[n].Events? ==> forall x | x in d[n].events :: x in delivered)
    ensures e in delivered || Holds(d - {n}, e)
  {
    var k :| k in d && d[k].Events? && e in d[k].events;
    if k != n { assert (d - {n})[k] == d[k]; }
  }

  lemma ChangeKeepsSafe(find: Matcher, disk: Disk, delivered: set<Event>, delivered': set<Event>, d: Dir)
    requires Safe(find, disk, delivered) && delivered <= delivered'
    requires forall e | Holds(disk.Queue(), e) :: e in delivered' || Holds(d, e)
    ensures Safe(find, disk.(dirs := disk.dirs + [d]), delivered')
    ensures Safe(find, disk.(dirs := [d]), delivered')
  {
    hide LineEvents;
    forall m, e | m in disk.marks && e in m.Owed(find)
      ensures Kept(disk.dirs + [d], delivered', e) && Kept([d], delivered', e)
    {
      assert Kept(disk.dirs, delivered, e);
      if e !in delivered' {
        assert disk.Queue() in disk.dirs;
        assert Holds(disk.Queue(), e);
      }
    }
  }

  /** A checkpoint may be saved once every event it newly covers is kept. */
  lemma MarkKeepsSafe(find: Matcher, disk: Disk, delivered: set<Event>, next: Mark, events: seq<Event>)
    requires Safe(find, disk, delivered) && next.Wellformed()
    requires next.Owed(find) == disk.Live().Owed(find) + events
    requires forall e | e in events :: Kept(disk.dirs, delivered, e)
    ensures Safe(find, disk.(marks := disk.marks + [next]), delivered)
    ensures Safe(find, disk.(marks := [next]), delivered)
  {
    hide LineEvents;
    assert disk.Live() in disk.marks;
    assert forall e | e in next.Owed(find) :: e in disk.Live().Owed(find) || e in events;
  }

  lemma DeliveredGrows(find: Matcher, disk: Disk, delivered: set<Event>, delivered': set<Event>)
    requires Safe(find, disk, delivered) && delivered <= delivered'
    ensures Safe(find, disk, delivered')
  {
    hide LineEvents;
    forall m, e | m in disk.marks && e in m.Owed(find) ensures Kept(disk.dirs, delivered', e) {
      assert Kept(disk.dirs, delivered, e);
    }
  }

  /** The mark that a poll of `file` from `m` moves on to. */
  function Successor(find: Matcher, m: Mark, file: LogFile, next: Checkpoint): Mark
    requires Resume(m.saved, file).Some? && ResumeBase(m.saved, file, m.base) <= next.offset <= |file.content|
  {
    var base := ResumeBase(m.saved, file, m.base);
    var continued := m.saved.Stored? && Continues(m.saved.checkpoint, file);
    Mark(Stored(next), base, file.content[base..next.offset], if continued then m.earlier else m.Owed(find))
  }

  /** The mark after a successful poll: a window read from where the old one resumes. */
  ghost predicate Polled(find: Matcher, m: Mark, file: LogFile, m': Mark) {
    && Resume(m.saved, file).Some? && m'.saved.Stored?
    && var start, next := Resume(m.saved, file).value, m'.saved.checkpoint;
       && ResumeBase(m.saved, file, m.base) <= next.offset <= |file.content|
       && m' == Successor(find, m, file, next)
       && if m.saved.Absent? then next == start
          else exists events :: PollStep(find, file.content, ResumeBase(m.saved, file, m.base), start, events, next)
  }

  lemma SuccessorIsPolled(find: Matcher, m: Mark, file: LogFile, events: seq<Event>, next: Checkpoint)
    requires Resume(m.saved, file).Some?
    requires ResumeBase(m.saved, file, m.base) <= next.offset <= |file.content|
    requires var start := Resume(m.saved, file).value;
             if m.saved.Absent? then next == start
             else PollStep(find, file.content, ResumeBase(m.saved, file, m.base), start, events, next)
    ensures Polled(find, m, file, Successor(find, m, file, next))
  {
    hide PollStep, Resume;
  }

  lemma MarkMovesOn(floor: Mark, disk: Disk, next: Mark)
    requires disk.Wellformed() && Forward(floor, disk) && NotAfter(disk.Live(), next)
    ensures Forward(floor, disk.(marks := disk.marks + [next])) && Forward(floor, disk.(marks := [next]))
  {
    assert forall i | 0 <= i < |disk.marks| - 1 :: NotAfter(disk.marks[i], disk.Live());
  }

  lemma FaithfulAligns(m: Mark, file: LogFile)
    requires m.Wellformed() && m.Faithful(file)
    ensures m.saved.Stored? && Continues(m.saved.checkpoint, file) ==> Aligned(file.content, m.base, m.saved.checkpoint)
  {
  }

  /** It covers exactly the events the poll reported on top, and never lies behind. */
  lemma {:induction false} SuccessorOwes(find: Matcher, m: Mark, file: LogFile, events: seq<Event>, next: Checkpoint)
    requires m.Wellformed() && m.Faithful(file) && Resume(m.saved, file).Some?
    requires var start := Resume(m.saved, file).value;
             if m.saved.Absent? then events == [] && next == start
             else PollStep(find, file.content, ResumeBase(m.saved, file, m.base), start, events, next)
    ensures ResumeBase(m.saved, file, m.base) <= next.offset <= |file.content|
    ensures var s := Successor(find, m, file, next);
            s.Wellformed() && s.Owed(find) == m.Owed(find) + events && NotAfter(m, s) && s.Faithful(file)
  {
    hide LineEvents;
    var base := ResumeBase(m.saved, file, m.base);
    var start := Resume(m.saved, file).value;
    EventsUnfold(find, start.source, base, "");
    if m.saved.Stored? && Continues(m.saved.checkpoint, file) {
      assert file.content[base..start.offset] == m.consumed;
      Associative(m.earlier, LineEvents(find, start.source, base, m.consumed), events);
    } else {
      assert file.content[base..start.offset] == "";
      Associative(m.Owed(find), [], events);
      Associative([], events, []);
      Associative(events, [], []);
    }
  }

  datatype Step =
    | PollTask
    | FlushTask
    | EnqueueTask(item: Item)
    | LogTo(file: Option<LogFile>)
    | CrashAt(step: nat)
    | PowerLossAt(step: nat, mark: nat, dir: nat)

  class Agent {
    const find: Matcher
    /** Every file operation succeeds, entries fit, and the Controller acknowledges. */
    const smooth: bool

    var file: Option<LogFile>
    var disk: Disk
    var delivered: set<Event>
    /** The disk states since the current task began: a crash may strike at any. */
    var trail: seq<Disk>
    /** The oldest checkpoint that could survive when the current task began. */
    ghost var floor: Mark

    ghost predicate Valid()
      reads this
    {
      && Safe(find, disk, delivered)
      && trail != [] && trail[|trail| - 1] == disk
      && (forall d | d in trail :: Safe(find, d, delivered) && Forward(floor, d))
      && (file.Some? ==> forall d, m | d in trail && m in d.marks :: m.Faithful(file.value))
    }

    /** Whatever was kept still is. */
    twostate predicate KeepsAll()
      reads this
    {
      && old(delivered) <= delivered
      && forall e | Kept(old(disk).dirs, old(delivered), e) :: Kept(disk.dirs, delivered, e)
    }

    constructor (find: Matcher, file: Option<LogFile>, smooth: bool)
      ensures Valid() && this.smooth == smooth && disk == Disk([Mark(Absent, 0, "", [])], [map[]])
    {
      this.find, this.file, this.smooth := find, file, smooth;
      var d := Disk([Mark(Absent, 0, "", [])], [map[]]);
      disk, trail, delivered, floor := d, [d], {}, d.marks[0];
    }

    method Land(d: Disk)
      requires Valid() && Safe(find, d, delivered) && Forward(floor, d)
      requires file.Some? ==> forall m | m in d.marks :: m.Faithful(file.value)
      modifies `disk, `trail
      ensures Valid() && disk == d && trail == old(trail) + [d]
    {
      hide LineEvents;
      disk, trail := d, trail + [d];
    }

    /** A task begins: a crash from here on strikes at its states. */
    method Begin()
      requires Valid()
      modifies `trail, `floor
      ensures Valid() && trail == [disk] && floor == disk.marks[0] && NotAfter(old(floor), floor)
    {
      hide LineEvents;
      assert disk in trail;
      trail, floor := [disk], disk.marks[0];
    }

    // -------------------------------------------------------------------------
    // The queue
    // -------------------------------------------------------------------------

    /** Only a durable entry is reported as success. */
    method Enqueue(item: Item) returns (w: Write)
      requires Valid()
      modifies `disk, `trail
      ensures Valid() && KeepsAll() && disk.marks == old(disk).marks && old(trail) <= trail
      ensures w.Done? && item.Events? ==> forall e | e in item.events :: Kept(disk.dirs, delivered, e)
      ensures smooth && |old(disk).Queue()| < MAX_ITEMS ==> w.Done?
      ensures w.NotDone? ==> disk == old(disk)
      ensures !w.NotDone? ==>
        && |old(disk).Queue()| < MAX_ITEMS
        && exists n: Name :: n !in old(disk).Queue() && disk.Queue() == old(disk).Queue()[n := item]
    {
      hide LineEvents;
      var fits: bool := *;
      if |disk.Queue()| >= MAX_ITEMS || (!fits && !smooth) { return NotDone; }
      var n: Name := Fresh(disk.Queue());
      var renamed: bool := *;
      if !renamed && !smooth { return NotDone; }
      var before := disk;
      var d := disk.Queue()[n := item];
      forall e | Holds(before.Queue(), e) ensures Holds(d, e) { AddKeeps(before.Queue(), n, item, e); }
      ChangeKeepsSafe(find, before, delivered, delivered, d);
      assert before in trail && before.Queue() in before.dirs;
      Land(before.(dirs := before.dirs + [d]));
      var synced: bool := *;
      if !synced && !smooth { return Unsynced; }
      Land(before.(dirs := [d]));
      assert d[n] == item;
      return Done;
    }

    /** An unused name; the clock that makes it may run backwards. */
    method Fresh(d: Dir) returns (n: Name)
      ensures n !in d
    {
      Greatest(d.Keys);
      ghost var above :| AboveAll(d.Keys, above);
      assert above !in d;
      n :| n !in d;
    }

    /** Send the entries in name order; stop at the first that is not acknowledged or
        cannot be removed. An entry is never sent before an older one that was there. */
    method Flush() returns (sent: seq<Name>)
      requires Valid()
      modifies `disk, `trail, `delivered
      ensures Valid() && KeepsAll() && disk.marks == old(disk).marks && old(trail) <= trail
      ensures forall i, j | 0 <= i < j < |sent| :: sent[i] < sent[j]
      ensures forall n, k | n in sent && k in old(disk).Queue() && k < n :: k in sent
      ensures disk.Queue().Keys <= old(disk).Queue().Keys
      ensures forall n | n in old(disk).Queue() && n !in disk.Queue() :: n in sent
      ensures forall i | 0 <= i < |sent| - 1 :: sent[i] !in disk.Queue()
      ensures smooth ==> disk.Queue().Keys == {}
    {
      hide LineEvents;
      sent := [];
      var pending := disk.Queue().Keys;
      while pending != {}
        invariant Valid() && KeepsAll() && disk.marks == old(disk).marks && old(trail) <= trail
        invariant pending <= disk.Queue().Keys <= old(disk).Queue().Keys
        invariant forall i, j | 0 <= i < j < |sent| :: sent[i] < sent[j]
        invariant forall n, k | n in sent && k in pending :: n < k
        invariant forall n | n in old(disk).Queue() && n !in pending :: n in sent
        invariant forall n | n in sent :: n in old(disk).Queue() && n !in disk.Queue()
        invariant smooth ==> disk.Queue().Keys == pending
        decreases pending
      {
        var n := First(pending);
        assert n in pending && forall i | 0 <= i < |sent| :: sent[i] in sent;
        sent := sent + [n];
        pending := pending - {n};
        var removed := Send(n);
        if !removed { return; }
      }
    }

    method First(names: set<Name>) returns (n: Name)
      requires names != {}
      ensures LeastOf(names, n)
    {
      Least(names);
      n :| LeastOf(names, n);
    }

    /** Post one entry and remove it once acknowledged. A lost answer leaves it queued
        although the Controller has it. */
    method Send(n: Name) returns (removed: bool)
      requires Valid() && n in disk.Queue()
      modifies `disk, `trail, `delivered
      ensures Valid() && KeepsAll() && disk.marks == old(disk).marks && old(trail) <= trail
      ensures disk.Queue() == old(disk).Queue() || disk.Queue() == old(disk).Queue() - {n}
      ensures removed ==> disk.dirs == [old(disk).Queue() - {n}]
      ensures smooth ==> removed
    {
      hide LineEvents;
      var acknowledged := Post(disk.Queue()[n]);
      if !acknowledged { return false; }
      removed := Remove(n);
    }

    /** The Controller may have the entry although its answer was lost. */
    method Post(item: Item) returns (acknowledged: bool)
      requires Valid()
      modifies `delivered
      ensures Valid() && old(delivered) <= delivered
      ensures acknowledged && item.Events? ==> forall e | e in item.events :: e in delivered
      ensures smooth ==> acknowledged
    {
      hide LineEvents;
      var accepted: bool := *;
      if !accepted && !smooth { return false; }
      var all := delivered + if item.Events? then (set e | e in item.events) else {};
      forall d | d in trail ensures Safe(find, d, all) { DeliveredGrows(find, d, delivered, all); }
      delivered := all;
      acknowledged := *;
      if smooth { acknowledged := true; }
    }

    /** Remove an entry that the Controller has. */
    method Remove(n: Name) returns (removed: bool)
      requires Valid() && n in disk.Queue()
      requires var item := disk.Queue()[n]; item.Events? ==> forall e | e in item.events :: e in delivered
      modifies `disk, `trail
      ensures Valid() && KeepsAll() && disk.marks == old(disk).marks && old(trail) <= trail
      ensures disk.Queue() == old(disk).Queue() || disk.Queue() == old(disk).Queue() - {n}
      ensures removed ==> disk.dirs == [old(disk).Queue() - {n}]
      ensures smooth ==> removed
    {
      hide LineEvents;
      var unlinked: bool := *;
      if !unlinked && !smooth { return false; }
      var before := disk;
      var d := before.Queue() - {n};
      forall e | Holds(before.Queue(), e) ensures e in delivered || Holds(d, e) {
        RemoveKeeps(before.Queue(), n, delivered, e);
      }
      assert before in trail && before.Queue() in before.dirs;
      ChangeKeepsSafe(find, before, delivered, delivered, d);
      Land(before.(dirs := before.dirs + [d]));
      var synced: bool := *;
      if !synced && !smooth { return false; }
      Land(before.(dirs := [d]));
      return true;
    }

    /** Other agent tasks share the queue and may flush it at any time. */
    method OtherTasks()
      requires Valid()
      modifies `disk, `trail, `delivered
      ensures Valid() && KeepsAll() && disk.marks == old(disk).marks && old(trail) <= trail
    {
      hide LineEvents;
      var other: bool := *;
      if other {
        var item: Item := *;
        var _ := Enqueue(item);
      }
      var flush: bool := *;
      if flush { var _ := Flush(); }
    }

    /** Save a checkpoint: write aside, sync, rename, sync the directory. */
    method Commit(next: Mark, ghost events: seq<Event>) returns (w: Write)
      requires Valid() && next.Wellformed() && next.Owed(find) == disk.Live().Owed(find) + events
      requires forall e | e in events :: Kept(disk.dirs, delivered, e)
      requires file.Some? ==> next.Faithful(file.value)
      requires NotAfter(disk.Live(), next)
      modifies `disk, `trail
      ensures Valid() && KeepsAll() && disk.dirs == old(disk).dirs && old(trail) <= trail
      ensures w.NotDone? ==> disk == old(disk)
      ensures !w.NotDone? ==> disk.Live() == next
      ensures w.Unsynced? ==> disk.marks == old(disk).marks + [next]
      ensures w.Done? ==> disk.marks == [next]
      ensures smooth ==> w.Done?
    {
      hide LineEvents;
      var before := disk;
      assert before in trail;
      MarkKeepsSafe(find, before, delivered, next, events);
      MarkMovesOn(floor, before, next);
      var renamed: bool := *;
      if !renamed && !smooth { return NotDone; }
      Land(before.(marks := before.marks + [next]));
      var synced: bool := *;
      if !synced && !smooth { return Unsynced; }
      Land(before.(marks := [next]));
      return Done;
    }

    /** Queue the events before the checkpoint advances over their bytes. The saved
        checkpoint only moves forward, and covers only events that are kept. */
    method PollSecurityEvents() returns (ok: bool)
      requires Valid()
      modifies `disk, `trail, `delivered, `floor
      ensures Valid() && KeepsAll() && NotAfter(old(floor), floor)
      ensures NotAfter(old(disk).Live(), disk.Live())
      ensures
        || disk.marks == old(disk).marks || disk.marks == [disk.Live()]
        || disk.marks == old(disk).marks + [disk.Live()]
      ensures ok && file.Some? ==>
        disk.marks == [disk.Live()] && Polled(find, old(disk).Live(), file.value, disk.Live())
      ensures file.None? ==> ok && disk == old(disk)
      ensures smooth && |old(disk).Queue()| < MAX_ITEMS ==>
        (ok <==> (file.Some? ==> Resume(old(disk).Live().saved, file.value).Some?))
    {
      hide LineEvents, PollStep, Aligned, Resume, Successor, Mark.Owed, Mark.Faithful, Polled;
      Begin();
      if file.None? { return true; }
      var live := disk.Live();
      assert live in disk.marks && disk in trail;
      FaithfulAligns(live, file.value);
      var polled, events, next := Poll(find, live.saved, file.value, live.base, smooth);
      if !polled { return false; }
      SuccessorOwes(find, live, file.value, events, next);
      SuccessorIsPolled(find, live, file.value, events, next);
      ok := QueueThenCommit(Successor(find, live, file.value, next), events);
    }

    method QueueThenCommit(next: Mark, events: seq<Event>) returns (ok: bool)
      requires Valid() && next.Wellformed() && next.Owed(find) == disk.Live().Owed(find) + events
      requires file.Some? ==> next.Faithful(file.value)
      requires NotAfter(disk.Live(), next)
      modifies `disk, `trail, `delivered
      ensures Valid() && KeepsAll()
      ensures disk.marks == old(disk).marks || disk.marks == [next] || disk.marks == old(disk).marks + [next]
      ensures ok ==> disk.marks == [next]
      ensures smooth && |old(disk).Queue()| < MAX_ITEMS ==> ok
    {
      hide LineEvents;
      if events != [] {
        var queued := Enqueue(Events(events));
        if !queued.Done? { return false; }
      }
      OtherTasks();
      var w := Commit(next, events);
      if !w.Done? { return false; }
      var _ := Flush();
      return true;
    }

    /** The log grows, is truncated, rotated or removed. A file that still looks like the
        one a checkpoint covers must still begin with the bytes it covers. */
    method LogChanges(f: Option<LogFile>)
      requires Valid() && (f.Some? ==> forall m | m in disk.marks :: m.Faithful(f.value))
      modifies `file, `trail, `floor
      ensures Valid() && file == f && NotAfter(old(floor), floor)
    {
      hide LineEvents;
      Begin();
      file := f;
    }

    /** The process dies at any disk state since the step began. */
    method Crash(k: nat)
      requires Valid() && k < |trail|
      modifies `disk, `trail
      ensures Valid() && disk == old(trail)[k]
    {
      hide LineEvents;
      assert trail[k] in trail;
      Land(trail[k]);
    }

    /** The machine loses power there: any unsynced checkpoint or queue state survives. */
    method PowerLoss(k: nat, i: nat, j: nat)
      requires Valid() && k < |trail| && i < |trail[k].marks| && j < |trail[k].dirs|
      modifies `disk, `trail
      ensures Valid() && disk == Disk([old(trail)[k].marks[i]], [old(trail)[k].dirs[j]])
    {
      hide LineEvents;
      var d := trail[k];
      assert d in trail && d.marks[i] in d.marks && d.dirs[j] in d.dirs;
      var survived := Disk([d.marks[i]], [d.dirs[j]]);
      forall e | e in d.marks[i].Owed(find) ensures Kept(survived.dirs, delivered, e) {
        assert Kept(d.dirs, delivered, e);
      }
      Land(survived);
    }

    /** Any sequence of tasks, log changes, crashes and power losses. The oldest checkpoint
        that may survive never moves back. */
    method Run(steps: seq<Step>)
      requires Valid()
      modifies this
      ensures Valid()
      ensures forall m, e | m in disk.marks && e in m.Owed(find) :: Kept(disk.dirs, delivered, e)
      ensures NotAfter(old(floor), floor) && forall m | m in disk.marks :: NotAfter(floor, m)
    {
      hide LineEvents;
      for i := 0 to |steps|
        invariant Valid() && NotAfter(old(floor), floor)
      {
        match steps[i] {
          case PollTask => var _ := PollSecurityEvents();
          case FlushTask => Begin(); var _ := Flush();
          case EnqueueTask(item) => Begin(); var _ := Enqueue(item);
          case LogTo(f) =>
            if f.None? || forall m | m in disk.marks :: m.Faithful(f.value) { LogChanges(f); }
          case CrashAt(k) => if k < |trail| { Crash(k); }
          case PowerLossAt(k, x, y) =>
            if k < |trail| && x < |trail[k].marks| && y < |trail[k].dirs| { PowerLoss(k, x, y); }
        }
      }
    }
  }

  predicate LeastOf(names: set<Name>, n: Name) { n in names && forall k | k in names :: n <= k }

  predicate AboveAll(names: set<Name>, n: Name) { forall k | k in names :: k < n }

  lemma {:induction false} Least(names: set<Name>)
    requires names != {}
    ensures exists n :: LeastOf(names, n)
  {
    var n :| n in names;
    if names == {n} {
      assert LeastOf(names, n);
    } else {
      var rest := names - {n};
      Least(rest);
      var m :| LeastOf(rest, m);
      assert forall k | k in names :: k == n || k in rest;
      assert LeastOf(names, if m < n then m else n);
    }
  }

  lemma {:induction false} Greatest(names: set<Name>)
    ensures exists n :: AboveAll(names, n)
  {
    if names == {} {
      assert AboveAll(names, 0);
    } else {
      var x :| x in names;
      var rest := names - {x};
      Greatest(rest);
      var n :| AboveAll(rest, n);
      assert forall k | k in names :: k == x || k in rest;
      assert AboveAll(names, if x < n then n else x + 1);
    }
  }
}