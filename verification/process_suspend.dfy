/**
 Suspending one process for a while. A durable journal is written before SIGSTOP, and a
 timer resumes the process; the Helper may crash at any point, processes may exit, their
 PIDs may be reused, and their executables may be renamed or deleted. Signals take effect at the call.
 */
module ProcessSuspend {
  import opened Prelude

  type Action = string

  const SECOND: int := 1_000_000_000
  const MINUTE: int := 60 * SECOND
  const LONGEST: int := 15 * MINUTE
  const DELETED: string := " (deleted)"

  datatype Params = Params(pid: nat, start: nat, executable: string, ttlSeconds: int)

  /** What an inspection shows of a process, and what a journal and a state record. */
  datatype Identity = Identity(pid: nat, start: nat, executable: string)

  /** An action that stopped a process still answers for it, or has given it up: it saw
      `shown` where it had recorded something else. */
  datatype Hold = Kept | GivenUp(shown: Identity, recorded: Identity)

  /** `held` are the actions that stopped this process and have not seen it run since. Only
      the end of the process or a continue signal takes it away. */
  datatype Process = Process(start: nat, executable: string, stopped: bool, held: map<Action, Hold>)

  datatype Journal = Journal(who: Identity, resumeAt: int)

  datatype World = World(processes: map<nat, Process>, journals: map<Action, Journal>, states: map<Action, Identity>) {
    function IdentityOf(pid: nat): Identity
      requires pid in processes
    {
      Identity(pid, processes[pid].start, processes[pid].executable)
    }

    predicate HeldBy(pid: nat, a: Action) { pid in processes && a in processes[pid].held }

    predicate KeptBy(pid: nat, a: Action) { HeldBy(pid, a) && processes[pid].held[a].Kept? }

    /** A stopped process has the journal of the action that stopped it, unless that action
        saw another start time or path than it had recorded. */
    ghost predicate Covered() {
      forall pid, a | HeldBy(pid, a) ::
        && processes[pid].stopped
        && match processes[pid].held[a]
           case Kept => a in journals && journals[a].who.pid == pid
           case GivenUp(shown, recorded) => shown != recorded && shown.pid == pid && shown.start == processes[pid].start
    }

    function With(pid: nat, p: Process): World { this.(processes := processes[pid := p]) }

    /** The action gives the process up, if it held it. */
    function GiveUp(a: Action, shown: Identity, recorded: Identity): World
      requires shown.pid in processes
    {
      var p := processes[shown.pid];
      if a in p.held then With(shown.pid, p.(held := p.held[a := GivenUp(shown, recorded)])) else this
    }
  }

  /** What happens to processes behind the Helper's back. */
  datatype Happening =
    | Exits(pid: nat)
    | Starts(pid: nat, start: nat, executable: string)
    | Executes(pid: nat, executable: string)
    | Moves(pid: nat, path: string)
    | Stops(pid: nat)
    | Continues(pid: nat)

  /** Only a running process executes something else; but when its executable, or a
      directory above it, is renamed or deleted, even a stopped one shows another path. */
  function After(w: World, h: Happening): World {
    if h.Exits? then w.(processes := w.processes - {h.pid})
    else if h.Starts? then
      if h.pid in w.processes then w else w.With(h.pid, Process(h.start, h.executable, false, map[]))
    else if h.pid !in w.processes then w
    else
      var p := w.processes[h.pid];
      match h
      case Executes(pid, executable) => if p.stopped then w else w.With(pid, p.(executable := executable))
      case Moves(pid, path) => w.With(pid, p.(executable := path))
      case Stops(pid) => w.With(pid, p.(stopped := true))
      case _ => w.With(h.pid, p.(stopped := false, held := map[]))
  }

  /** Every process still held is one that was, in the same way. */
  ghost predicate NoNewHolds(w: World, w': World) {
    forall pid, a | w'.HeldBy(pid, a) ::
      && w.HeldBy(pid, a) && w'.processes[pid].held[a] == w.processes[pid].held[a]
      && w'.processes[pid].start == w.processes[pid].start
  }

  /** No action answers for a process that it did not answer for before. */
  ghost predicate NoNewKept(w: World, w': World) { forall pid, a | w'.KeptBy(pid, a) :: w.KeptBy(pid, a) }

  /** No happening leaves a process stopped without cover, nor holds a new one. */
  lemma HappeningKeepsCover(w: World, h: Happening)
    requires w.Covered()
    ensures After(w, h).Covered() && NoNewHolds(w, After(w, h))
  {
    var w' := After(w, h);
    forall pid, a | w'.HeldBy(pid, a) ensures w.HeldBy(pid, a) {}
    assert NoNewHolds(w, w');
  }

  lemma GivingUpKeepsCover(w: World, a: Action, shown: Identity, recorded: Identity)
    requires w.Covered() && shown.pid in w.processes && shown == w.IdentityOf(shown.pid) && shown != recorded
    ensures w.GiveUp(a, shown, recorded).Covered() && !w.GiveUp(a, shown, recorded).KeptBy(shown.pid, a)
    ensures forall pid, b :: w.GiveUp(a, shown, recorded).HeldBy(pid, b) <==> w.HeldBy(pid, b)
  {
    var w' := w.GiveUp(a, shown, recorded);
    forall pid, b ensures w'.HeldBy(pid, b) <==> w.HeldBy(pid, b) {}
  }

  function TrimDeleted(path: string): string {
    if |path| >= |DELETED| && path[|path| - |DELETED|..] == DELETED then path[..|path| - |DELETED|] else path
  }

  /** One mark of deletion at the end is dropped, and nothing else. */
  lemma TrimmedMark(path: string)
    ensures TrimDeleted(path + DELETED) == path
    ensures TrimDeleted(path) == path || path == TrimDeleted(path) + DELETED
  {
    assert (path + DELETED)[|path|..] == DELETED && (path + DELETED)[..|path|] == path;
  }

  datatype Inspection = NotFound | Unreadable | Found(who: Identity, stopped: bool)

  /** A continue signal: the process it was meant for, and the one inspected before. */
  datatype Signal = Signal(meant: Identity, inspected: Identity)

  datatype Event =
    | ApplyEvent(a: Action)
    | RollbackEvent(a: Action)
    | ExpireEvent(a: Action)
    | TimePasses(duration: nat)
    | WallClockSet(time: int)
    | CrashAt(step: nat)

  class Playbook {
    /** What each action was approved for. */
    const target: Action -> Params
    /** Every inspection, signal and file operation succeeds. */
    const smooth: bool
    /** Nothing else happens while an operation is under way. */
    const calm: bool

    var world: World
    var timers: map<Action, int>
    /** Timers follow the monotonic clock, journals name wall-clock times. */
    var now: int
    var wall: int
    /** Down, or refusing to start because a journal could not be read. */
    var up: bool
    ghost var signals: seq<Signal>
    /** Every state since the current operation began: a crash may strike at any. */
    var trail: seq<World>

    /** Each action concerns the one process it was approved for. */
    ghost predicate Targeted(w: World) {
      && (forall a | a in w.states :: w.states[a].pid == target(a).pid)
      && (forall a | a in w.journals :: w.journals[a].who.pid == target(a).pid)
      && (forall pid, a | w.HeldBy(pid, a) :: pid == target(a).pid)
    }

    ghost predicate Covering()
      reads this
    {
      && world.Covered() && Targeted(world) && trail != [] && trail[|trail| - 1] == world
      && (forall w | w in trail :: w.Covered() && Targeted(w))
      && (forall s | s in signals :: s.inspected == s.meant)
    }

    /** While the Helper is up, every process that an action answers for has a timer due
        within a quarter hour. */
    ghost predicate Armed()
      reads this
    {
      up ==> forall pid, a | world.KeptBy(pid, a) :: a in timers && timers[a] <= now + LONGEST
    }

    ghost predicate Valid()
      reads this
    {
      Covering() && Armed()
    }

    constructor (target: Action -> Params, smooth: bool, calm: bool, wall: int)
      ensures Valid() && this.target == target && this.smooth == smooth && this.calm == calm
      ensures world == World(map[], map[], map[]) && up
    {
      this.target, this.smooth, this.calm := target, smooth, calm;
      world, timers, now, this.wall, up := World(map[], map[], map[]), map[], 0, wall, true;
      signals, trail := [], [World(map[], map[], map[])];
    }

    method Land(w: World)
      requires Covering() && w.Covered() && Targeted(w)
      modifies `world, `trail
      ensures Covering() && world == w && old(trail) <= trail
    {
      world, trail := w, trail + [w];
    }

    /** During an operation. */
    method Meanwhile()
      requires Covering()
      modifies `world, `trail
      ensures Covering() && old(trail) <= trail && NoNewHolds(old(world), world) && NoNewKept(old(world), world)
      ensures world.journals == old(world).journals && world.states == old(world).states
      ensures calm ==> world == old(world)
    {
      if !calm { Happen(); }
    }

    /** Other processes, and this one, go on. */
    method Happen()
      requires Covering()
      modifies `world, `trail
      ensures Covering() && old(trail) <= trail && NoNewHolds(old(world), world) && NoNewKept(old(world), world)
      ensures world.journals == old(world).journals && world.states == old(world).states
    {
      var n :| 0 <= n;
      for i := 0 to n
        invariant Covering() && old(trail) <= trail && NoNewHolds(old(world), world) && NoNewKept(old(world), world)
        invariant world.journals == old(world).journals && world.states == old(world).states
      {
        var h: Happening := *;
        HappeningKeepsCover(world, h);
        Land(After(world, h));
      }
    }

    method Inspect(pid: nat) returns (r: Inspection)
      ensures smooth ==> !r.Unreadable?
      ensures r.NotFound? ==> pid !in world.processes
      ensures r.Found? ==>
        pid in world.processes && r.who == world.IdentityOf(pid) && r.stopped == world.processes[pid].stopped
    {
      var readable: bool := *;
      if !readable && !smooth { return Unreadable; }
      if pid !in world.processes { return NotFound; }
      return Found(Identity(pid, world.processes[pid].start, world.processes[pid].executable),
          world.processes[pid].stopped);
    }

    /** Write aside, sync, rename, sync the directory. */
    method WriteJournal(a: Action, j: Journal) returns (w: Write)
      requires Covering() && j.who.pid == target(a).pid
      modifies `world, `trail
      ensures Covering() && old(trail) <= trail && NoNewKept(old(world), world)
      ensures world == if w.NotDone? then old(world) else old(world).(journals := old(world).journals[a := j])
      ensures smooth ==> w.Done?
    {
      w := *;
      if smooth { w := Done; }
      if w.NotDone? { return; }
      var next := world.(journals := world.journals[a := j]);
      assert next.Covered() by {
        assert forall pid, b | next.HeldBy(pid, b) :: world.HeldBy(pid, b);
      }
      assert forall pid, b | next.HeldBy(pid, b) :: world.HeldBy(pid, b);
      Land(next);
    }

    /** Remove the journal of an action that answers for nobody any more. */
    method DeleteJournal(a: Action) returns (ok: bool)
      requires Covering() && forall pid :: !world.KeptBy(pid, a)
      modifies `world, `trail
      ensures Covering() && old(trail) <= trail && world.processes == old(world).processes
      ensures NoNewKept(old(world), world) && forall pid :: !world.KeptBy(pid, a)
      ensures ok ==> a !in world.journals
      ensures smooth ==> ok
    {
      if a !in world.journals { return true; }
      var unlinked: bool := *;
      if !unlinked && !smooth { return false; }
      var next := world.(journals := world.journals - {a});
      assert forall pid, b | next.HeldBy(pid, b) ::
        world.HeldBy(pid, b) && (next.KeptBy(pid, b) ==> world.KeptBy(pid, b));
      Land(next);
      ok := *;
      if smooth { ok := true; }
    }

    method Schedule(a: Action, resumeAt: int)
      modifies `timers
      ensures a in timers && timers == old(timers)[a := timers[a]] && timers[a] <= now + LONGEST
      ensures now <= timers[a] && (wall <= resumeAt <= wall + LONGEST ==> timers[a] - now == resumeAt - wall)
      ensures (resumeAt < wall ==> timers[a] == now) && (resumeAt > wall + LONGEST ==> timers[a] == now + LONGEST)
    {
      var delay := resumeAt - wall;
      if delay < 0 { delay := 0; } else if delay > LONGEST { delay := LONGEST; }
      timers := timers[a := now + delay];
    }

    /** Stop whatever has this PID now: the action answers for it from here on. */
    method Stop(a: Action, pid: nat, ghost who: Identity) returns (ok: bool)
      requires Covering() && a in world.journals && world.journals[a].who == who && who.pid == pid
      modifies `world, `trail
      ensures Covering() && old(trail) <= trail && world.journals == old(world).journals
      ensures a in world.states && world.states[a] == who
      ensures forall p, b | world.KeptBy(p, b) :: (p == pid && b == a) || old(world).KeptBy(p, b)
      ensures ok ==> pid in world.processes && world.processes[pid].stopped && world.KeptBy(pid, a)
      ensures smooth ==> (ok <==> pid in old(world).processes)
    {
      var journaled := world.journals[a].who;
      var next := world.(states := world.states[a := journaled]);
      assert forall p, b | next.HeldBy(p, b) :: world.HeldBy(p, b);
      Land(next);
      ok := *;
      var delivered: bool := *;
      if pid !in world.processes { return false; }
      if smooth { ok := true; }
      if ok || delivered {
        var p := world.processes[pid];
        var after := world.With(pid, p.(stopped := true, held := p.held[a := Kept]));
        forall q, b | after.HeldBy(q, b) ensures (q == pid && b == a) || world.HeldBy(q, b) {}
        Land(after);
      }
    }

    /** The stop signal goes out only after the journal is durable and the timer armed. */
    method Apply(a: Action) returns (ok: bool)
      requires Valid() && up
      modifies this
      ensures Valid() && up
      ensures ok ==> a in world.states && a in world.journals && world.journals[a].who == world.states[a]
      ensures ok ==> a in timers && timers[a] <= now + LONGEST
      ensures ok && 0 <= target(a).ttlSeconds * SECOND <= LONGEST ==> timers[a] == now + target(a).ttlSeconds * SECOND
      ensures ok ==>
        && target(a).pid in world.processes && world.processes[target(a).pid].stopped && world.KeptBy(target(a).pid, a)
      ensures smooth && calm ==> (ok <==> Approved(old(world), a))
    {
      hide World.Covered, Targeted;
      trail := [world];
      var prepared, who := Prepare(a);
      if !prepared { return false; }
      Schedule(a, world.journals[a].resumeAt);
      Meanwhile();
      ok := Stop(a, who.pid, who);
    }

    /** The PID belongs to the process the action was approved for. */
    predicate Approved(w: World, a: Action) {
      && target(a).pid in w.processes
      && var p := w.processes[target(a).pid];
         p.start == target(a).start && TrimDeleted(p.executable) == target(a).executable
    }

    /** Inspect the process and make its journal durable. */
    method Prepare(a: Action) returns (ok: bool, who: Identity)
      requires Covering()
      modifies `world, `trail
      ensures Covering() && old(trail) <= trail && NoNewKept(old(world), world)
      ensures ok ==> a in world.journals && world.journals[a].who == who && who.pid == target(a).pid
      ensures ok ==> who.start == target(a).start && TrimDeleted(who.executable) == target(a).executable
      ensures ok ==> world.journals[a].resumeAt == wall + target(a).ttlSeconds * SECOND
      ensures ok ==> Approved(old(world), a)
      ensures smooth && Approved(old(world), a) ==> ok
      ensures calm ==> world.processes == old(world).processes
    {
      var params := target(a);
      var r := Inspect(params.pid);
      who := Identity(params.pid, params.start, params.executable);
      if !r.Found? || r.who.start != params.start || TrimDeleted(r.who.executable) != params.executable {
        return false, who;
      }
      who := r.who;
      Meanwhile();
      var written := WriteJournal(a, Journal(who, wall + params.ttlSeconds * SECOND));
      ok := written.Done?;
    }

    /** Continue exactly the recorded process. Success means that the action answers for
        nobody any more: the process is gone, runs, or shows something else than recorded. */
    method ResumeExact(a: Action, s: Identity) returns (ok: bool)
      requires Covering() && s.pid == target(a).pid
      modifies `world, `trail, `signals
      ensures Covering() && old(trail) <= trail
      ensures world.journals == old(world).journals && world.states == old(world).states
      ensures NoNewKept(old(world), world)
      ensures ok ==> forall pid :: !world.KeptBy(pid, a)
      ensures smooth ==> ok
      ensures s.pid in old(world).processes && old(world).IdentityOf(s.pid) != s ==>
        signals == old(signals) && (ok ==> world == old(world).GiveUp(a, old(world).IdentityOf(s.pid), s))
      ensures ok && (s.pid !in old(world).processes || old(world).IdentityOf(s.pid) == s) ==>
        forall b :: !world.HeldBy(s.pid, b)
      ensures smooth && old(world).HeldBy(s.pid, a) ==>
        (world.HeldBy(s.pid, a) && world.processes[s.pid].stopped <==> old(world).IdentityOf(s.pid) != s)
    {
      var r := Inspect(s.pid);
      if r.NotFound? { return true; }
      if r.Unreadable? { return false; }
      if r.who.start != s.start || r.who.executable != s.executable {
        GivingUpKeepsCover(world, a, r.who, s);
        Land(world.GiveUp(a, r.who, s));
        return true;
      }
      if !r.stopped {
        assert forall b :: !world.HeldBy(s.pid, b);
        return true;
      }
      Meanwhile();
      ok := Continue(s, r.who);
    }

    method Continue(s: Identity, inspected: Identity) returns (ok: bool)
      requires Covering() && inspected == s
      modifies `world, `trail, `signals
      ensures Covering() && old(trail) <= trail && NoNewKept(old(world), world)
      ensures world.journals == old(world).journals && world.states == old(world).states
      ensures signals == old(signals) + [Signal(s, inspected)] && (smooth ==> ok)
      ensures ok ==> forall b :: !world.HeldBy(s.pid, b)
    {
      ok := *;
      var delivered: bool := *;
      if smooth { ok := true; }
      signals := signals + [Signal(s, inspected)];
      if ok || delivered {
        HappeningKeepsCover(world, Continues(s.pid));
        Land(After(world, Continues(s.pid)));
      }
    }

    /** Resume what the record names, then drop the journal. When no call fails, a held
        process is left stopped without its journal exactly when it shows another start
        time or path than the record. */
    method Release(a: Action, s: Identity) returns (resumed: bool, ok: bool)
      requires Covering() && s.pid == target(a).pid
      modifies `world, `trail, `signals
      ensures Covering() && old(trail) <= trail
      ensures NoNewKept(old(world), world)
      ensures resumed ==> forall pid :: !world.KeptBy(pid, a)
      ensures ok ==> resumed && a !in world.journals
      ensures smooth ==> ok
      ensures smooth && old(world).HeldBy(s.pid, a) ==>
        (world.HeldBy(s.pid, a) && world.processes[s.pid].stopped <==> old(world).IdentityOf(s.pid) != s)
    {
      hide World.Covered, Targeted, World.GiveUp;
      resumed := ResumeExact(a, s);
      if !resumed { return resumed, false; }
      ok := DeleteJournal(a);
    }

    /** A run of the model that strands a process: its executable is renamed, or deleted,
        while it is stopped, and then it is resumed. */
    method MovedExecutableStrands(a: Action, path: string)
      requires Covering() && smooth && a in world.journals && world.KeptBy(target(a).pid, a)
      requires path != world.journals[a].who.executable
      modifies `world, `trail, `signals
      ensures Covering() && a !in world.journals && signals == old(signals)
      ensures world.HeldBy(target(a).pid, a) && world.processes[target(a).pid].stopped
    {
      var who := world.journals[a].who;
      HappeningKeepsCover(world, Moves(who.pid, path));
      Land(After(world, Moves(who.pid, path)));
      var ok := ResumeExact(a, who);
      ok := DeleteJournal(a);
    }

    /** Resume early, with the state of the latest Apply. */
    method Rollback(a: Action) returns (ok: bool)
      requires Valid() && up && a in world.states
      modifies this
      ensures Valid() && up
      ensures ok ==> a !in world.journals && a !in timers && forall pid :: !world.KeptBy(pid, a)
      ensures smooth ==> ok
      ensures var s := old(world).states[a];
              smooth && old(world).HeldBy(s.pid, a) ==>
                (world.HeldBy(s.pid, a) && world.processes[s.pid].stopped <==> old(world).IdentityOf(s.pid) != s)
    {
      trail := [world];
      var resumed;
      resumed, ok := Release(a, world.states[a]);
      if ok { timers := timers - {a}; }
    }

    /** The timer fires: the action answers for nobody any more, or some call failed and
        there is another try within a minute. */
    method Expire(a: Action)
      requires Valid() && up && a in timers && timers[a] <= now
      modifies this
      ensures Valid() && up
      ensures (a !in timers && forall pid :: !world.KeptBy(pid, a))
        || (!smooth && a in timers && timers[a] == now + MINUTE)
      ensures a in old(world).journals && smooth ==>
        var s := old(world).journals[a].who;
        old(world).HeldBy(s.pid, a) ==>
          (world.HeldBy(s.pid, a) && world.processes[s.pid].stopped <==> old(world).IdentityOf(s.pid) != s)
    {
      trail := [world];
      if a !in world.journals {
        timers := timers - {a};
        return;
      }
      var s := world.journals[a].who;
      assert s.pid == target(a).pid;
      hide World.Covered, Targeted, World.GiveUp;
      var resumed: bool := *;
      if smooth { resumed := true; }
      if resumed {
        var deleted;
        resumed, deleted := Release(a, s);
      }
      if resumed {
        timers := timers - {a};
      } else {
        timers := timers[a := now + MINUTE];
      }
    }

    /** The Helper dies at any state since the operation began; timers die with it. */
    method Crash(k: nat)
      requires Covering() && k < |trail|
      modifies this
      ensures Valid() && !up && world == old(trail)[k]
    {
      assert trail[k] in trail;
      Land(trail[k]);
      timers, up := map[], false;
    }

    /** Every journal gets a timer again, or the Helper does not start. */
    method Restart()
      requires Covering() && !up
      modifies `timers, `up
      ensures Valid()
      ensures up ==> forall a | a in world.journals :: a in timers && timers[a] <= now + LONGEST
      ensures smooth ==> up
    {
      timers := map[];
      var left := world.journals.Keys;
      while left != {}
        invariant left <= world.journals.Keys && !up
        invariant forall a | a in world.journals && a !in left :: a in timers && timers[a] <= now + LONGEST
        decreases left
      {
        var a :| a in left;
        left := left - {a};
        var readable: bool := *;
        if !readable && !smooth { return; }
        Schedule(a, world.journals[a].resumeAt);
      }
      up := true;
    }

    /** Any sequence of operations, expiries, crashes and restarts, with any happenings in
        between: a process that was stopped and has not run since has its action's journal,
        and a timer while the Helper is up, unless the action saw another start time or path
        than it had recorded; and no other process was ever told to continue. */
    method Run(events: seq<Event>)
      requires Valid()
      modifies this
      ensures Valid()
      ensures forall pid, a | world.HeldBy(pid, a) ::
        && world.processes[pid].stopped
        && match world.processes[pid].held[a]
           case Kept => true
           case GivenUp(shown, recorded) => shown != recorded && shown.start == world.processes[pid].start
      ensures forall pid, a | world.KeptBy(pid, a) ::
        a in world.journals && (up ==> a in timers && timers[a] <= now + LONGEST)
      ensures forall s | s in signals :: s.inspected == s.meant
    {
      for i := 0 to |events|
        invariant Valid()
      {
        Perform(events[i]);
      }
      forall pid, a | world.KeptBy(pid, a)
          ensures a in world.journals && (up ==> a in timers && timers[a] <= now + LONGEST) {
        assert world.HeldBy(pid, a);
      }
    }

    method Perform(event: Event)
      requires Valid()
      modifies this
      ensures Valid()
    {
      hide World.Covered, Targeted;
      Happen();
      match event {
        case ApplyEvent(a) => if up { var _ := Apply(a); }
        case RollbackEvent(a) => if up && a in world.states { var _ := Rollback(a); }
        case ExpireEvent(a) => if up && a in timers && timers[a] <= now { Expire(a); }
        case TimePasses(duration) => now, wall := now + duration, wall + duration;
        case WallClockSet(time) => wall := time;
        case CrashAt(k) =>
          if k < |trail| { Crash(k); }
          up := false;
          Restart();
      }
    }
  }
}
