/**
 The Controller's rows for actions, their commands, and temporary bans. Each operation
 is one transaction. A command that was started and not finished must find its action in
 the state that waits for it, and a finished command must never change anything again.
 */
module ActionStore {
  import opened Prelude
  import opened Engine
  import opened CommandResults

  type ActionId = string
  type CommandId = string
  type Device = string

  const MINUTE: int := 60_000_000_000
  const SECONDS: int := 1_000_000_000

  datatype Status =
    | Draft | Approved | Executing | AwaitingConfirmation | Confirming
    | Succeeded | Failed | RollingBack | RolledBack | Cancelled | Indeterminate

  datatype BanStatus = BanPending | BanActive | BanFailed | BanRolledBack | BanCancelled | BanIndeterminate

  /** A result accepted from a device is bound by its whole submission; a completion that
      the Controller wrote on its own has none. */
  datatype Completion = Completion(at: int, ok: bool, error: string, bound: Option<Submission>)

  /** `meta` is absent when the payload of an action command cannot be read. */
  datatype Command = Command(
    device: Device, kind: CommandKind, meta: Option<Meta>, preauthorized: bool,
    createdAt: int, started: Option<int>, completed: Option<Completion>)

  datatype ActionRow = ActionRow(device: Device, status: Status, rollback: Wire, confirmBy: Option<int>, error: string)

  datatype DeviceRow = DeviceRow(observer: bool, revoked: bool)

  datatype Ban = Ban(status: BanStatus, expiresAt: int)

  datatype Audit = Audit(action: ActionId, event: string)

  const REVOKED_MESSAGE: string := "device was revoked before " + "command completion"

  datatype Db = Db(
    devices: map<Device, DeviceRow>, commands: map<CommandId, Command>,
    actions: map<ActionId, ActionRow>, bans: map<ActionId, Ban>, audit: seq<Audit>) {

    /** An unfinished command about this action. */
    predicate Waiting(c: CommandId, a: ActionId) {
      && c in commands && commands[c].completed == None && commands[c].kind != OtherCommand
      && commands[c].meta.Some? && commands[c].meta.value.action == a
    }

    /** A started action command without a result. */
    predicate Running(c: CommandId) {
      c in commands && commands[c].started.Some? && commands[c].completed == None && commands[c].kind != OtherCommand
    }

    /** The device has an action command, started or not, without a result. */
    predicate Busy(device: Device) {
      exists c ::
        c in commands && commands[c].device == device && commands[c].completed == None
        && commands[c].kind != OtherCommand
    }

    predicate Acts(device: Device) { device in devices && !devices[device].observer }

    /** The action waits for exactly this command, in the state that fits it, and no command
        runs on a device that only observes. */
    ghost predicate Consistent() {
      && (forall c, a | Waiting(c, a) ::
            && a in actions && actions[a].device == commands[c].device
            && actions[a].status == Awaited(commands[c]))
      && (forall c, c', a | Waiting(c, a) && Waiting(c', a) :: c == c')
      && (forall c | c in commands && commands[c].started.Some? && commands[c].kind != OtherCommand ::
            commands[c].meta.Some?)
      && (forall c | Running(c) :: Acts(commands[c].device))
    }

    /** UPDATE actions SET ... WHERE id and device and status IN (...): all or nothing. */
    predicate Selects(a: ActionId, device: Device, from: set<Status>) {
      a in actions && actions[a].device == device && actions[a].status in from
    }

    function SetStatus(a: ActionId, status: Status, error: string): Db
      requires a in actions
    {
      this.(actions := actions[a := actions[a].(status := status, error := error)])
    }

    function Complete(c: CommandId, completion: Completion): Db
      requires c in commands
    {
      this.(commands := commands[c := commands[c].(completed := Some(completion))])
    }

    function SetBan(a: ActionId, from: set<BanStatus>, status: BanStatus): Db {
      if a in bans && bans[a].status in from then this.(bans := bans[a := bans[a].(status := status)]) else this
    }

    /** The Controller gives a command up before it ran, and its ban if that is in `bans`. */
    function Cancel(c: CommandId, a: ActionId, from: set<Status>, bans: set<BanStatus>, now: int, message: string,
        event: string): Db
      requires c in commands
    {
      var closed := Complete(c, Completion(now, false, message, None));
      var moved := if Selects(a, commands[c].device, from) then closed.SetStatus(a, Cancelled, message) else closed;
      moved.SetBan(a, bans, BanCancelled).Log(a, event)
    }

    /** The device of an unfinished command is revoked. */
    function Revoked(c: CommandId, a: ActionId, now: int): Db
      requires c in commands
    {
      var started := commands[c].started.Some?;
      var message := if started then UNKNOWN_RESULT else REVOKED_MESSAGE;
      var closed := Complete(c, Completion(now, false, message, None));
      var from := if started then {Executing, RollingBack, Confirming}
                  else {Approved, Executing, RollingBack, Confirming, AwaitingConfirmation};
      if !Selects(a, commands[c].device, from) then closed
      else if started then
        closed.SetStatus(a, Indeterminate, message)
          .SetBan(a, {BanPending, BanActive, BanIndeterminate}, BanIndeterminate)
          .Log(a, "device_revoked_during_execution")
      else
        closed.SetStatus(a, Cancelled, message)
          .SetBan(a, {BanPending}, BanCancelled)
          .Log(a, "device_revoked_before_execution")
    }

    /** What the Controller adds to a result on its own account. */
    function Warned(a: ActionId, unsaved: bool, over: bool): Db {
      var next := if unsaved then Log(a, UNSAVED_EVENT) else this;
      if over then next.Log(a, OVER_EVENT) else next
    }

    function Log(a: ActionId, event: string): Db { this.(audit := audit + [Audit(a, event)]) }
  }

  /** The state in which an action waits for a command. */
  function Awaited(c: Command): Status {
    match c.kind
    case ExecuteAction => if c.started == None then Approved else Executing
    case RollbackAction => RollingBack
    case _ => Confirming
  }

  /** Where a result takes the action. */
  function Projected(e: Engine, kind: CommandKind, meta: Meta, s: Submission, now: int): Status {
    if Unknown(e, kind, meta, s) then Indeterminate
    else if !Proven(e, kind, meta, s, now) then Failed
    else
      match kind
      case ExecuteAction =>
        if s.ok && LegacyResume(kind, meta, s.audit.value) then RollingBack
        else if s.audit.value.confirmBy.Some? then AwaitingConfirmation else Succeeded
      case RollbackAction => RolledBack
      case _ => Succeeded
  }

  /** Completed commands stay as they are. */
  ghost predicate Frozen(db: Db, db': Db) {
    forall c | c in db.commands && db.commands[c].completed.Some? ::
      c in db'.commands && db'.commands[c] == db.commands[c]
  }

  /** The action that an unfinished command is about. A finished command is about none. */
  function About(db: Db, c: CommandId): set<ActionId> {
    if c in db.commands && db.commands[c].completed == None && db.commands[c].kind != OtherCommand
        && db.commands[c].meta.Some?
    then {db.commands[c].meta.value.action} else {}
  }

  /** The actions of a device's unfinished commands. */
  function AboutDevice(db: Db, device: Device): set<ActionId> {
    set c, a | c in db.commands && db.commands[c].device == device && a in About(db, c) :: a
  }

  /** Every action, ban and audit entry of any other action is as it was. */
  ghost predicate OnlyAbout(db: Db, db': Db, s: set<ActionId>) {
    && (forall a | a !in s ::
          (a in db'.actions <==> a in db.actions) && (a in db.actions ==> db'.actions[a] == db.actions[a]))
    && (forall a | a !in s :: (a in db'.bans <==> a in db.bans) && (a in db.bans ==> db'.bans[a] == db.bans[a]))
    && db.audit <= db'.audit
    && (forall i | |db.audit| <= i < |db'.audit| :: db'.audit[i].action in s)
  }

  lemma OnlyAboutTwice(db: Db, db': Db, db'': Db, s: set<ActionId>, t: set<ActionId>)
    requires OnlyAbout(db, db', s) && OnlyAbout(db', db'', t)
    ensures OnlyAbout(db, db'', s + t)
  {
    forall i | |db.audit| <= i < |db''.audit| ensures db''.audit[i].action in s + t {
      if i < |db'.audit| { assert db''.audit[i] == db'.audit[i]; }
    }
  }

  lemma OnlyAboutLogged(db: Db, db0: Db, db1: Db, a: ActionId)
    requires db0.actions == db.actions && db0.bans == db.bans && db0.audit == db.audit && OnlyAbout(db0, db1, {a})
    ensures OnlyAbout(db, db1, {a})
  {
  }

  lemma OnlyAboutLogs(db: Db, db1: Db, db2: Db, a: ActionId)
    requires OnlyAbout(db, db1, {a}) && db2.actions == db1.actions && db2.bans == db1.bans && db1.audit <= db2.audit
    requires forall i | |db1.audit| <= i < |db2.audit| :: db2.audit[i].action == a
    ensures OnlyAbout(db, db2, {a})
  {
  }

  lemma SameTables(db: Db, db': Db)
    requires db'.actions == db.actions && db'.bans == db.bans && db'.audit == db.audit
    ensures OnlyAbout(db, db', {})
  {
  }

  lemma OnlyAboutItself(db: Db, s: set<ActionId>)
    ensures OnlyAbout(db, db, s)
  {
  }

  lemma OnlyAboutMore(db: Db, db': Db, s: set<ActionId>, t: set<ActionId>)
    requires OnlyAbout(db, db', s) && s <= t
    ensures OnlyAbout(db, db', t)
  {
  }

  // ---------------------------------------------------------------------------
  // What keeps the rows consistent
  // ---------------------------------------------------------------------------

  /** The command is finished, and nobody else waits for its action. */
  lemma FinishKeepsConsistent(db: Db, db': Db, c: CommandId, a: ActionId)
    requires db.Consistent() && db.Waiting(c, a)
    requires c in db'.commands && db'.commands[c].completed.Some?
    requires db'.commands.Keys == db.commands.Keys
    requires forall k | k in db.commands && k != c :: db'.commands[k] == db.commands[k]
    requires db'.commands[c].started == db.commands[c].started && db'.commands[c].kind == db.commands[c].kind
      && db'.commands[c].meta == db.commands[c].meta
    requires forall x | x in db.actions && x != a :: x in db'.actions && db'.actions[x] == db.actions[x]
    requires db'.devices == db.devices
    ensures db'.Consistent()
  {
    forall k, x | db'.Waiting(k, x) ensures db.Waiting(k, x) && k != c && x != a {
      assert k != c && db.Waiting(k, x);
    }
    assert forall k | db'.Running(k) :: k != c && db.Running(k);
  }

  /** A new command may be queued for an action that nobody waits for. */
  lemma QueueKeepsConsistent(db: Db, db': Db, c: CommandId, a: ActionId)
    requires db.Consistent() && forall k :: !db.Waiting(k, a)
    requires c !in db.commands && db'.commands.Keys == db.commands.Keys + {c}
    requires forall k | k in db.commands :: db'.commands[k] == db.commands[k]
    requires db'.Waiting(c, a) && db'.commands[c].started == None
    requires forall x | x in db.actions && x != a :: x in db'.actions && db'.actions[x] == db.actions[x]
    requires a in db'.actions && db'.actions[a].device == db'.commands[c].device
      && db'.actions[a].status == Awaited(db'.commands[c])
    requires db'.devices == db.devices
    ensures db'.Consistent()
  {
    assert forall k | db'.Running(k) :: k != c && db.Running(k);
    forall k, x | db'.Waiting(k, x) ensures (k == c && x == a) || (db.Waiting(k, x) && x != a) {
      if k != c { assert db.Waiting(k, x); }
    }
  }

  /** Nobody waits for an action at rest. */
  lemma AtRest(db: Db, a: ActionId)
    requires db.Consistent()
    requires a in db.actions ==> db.actions[a].status !in {Approved, Executing, RollingBack, Confirming}
    ensures forall c :: !db.Waiting(c, a)
  {
  }

  const COMMAND_TTL: int := 10 * MINUTE

  const BEFORE_RUN: set<Status> := {Approved, RollingBack, Confirming}

  const OBSERVER_MESSAGE: string :=
    "action command cancelled " + "because the device is read-only " + "observer mode"
  const EXPIRED_MESSAGE: string := "action command expired before " + "privileged execution"
  const POLICY_MESSAGE: string := "automatic defense command " + "cancelled before execution"
  const GRANT_MESSAGE: string :=
    "pre-authorized action cancelled " + "because its policy grant is " + "no longer active"

  const EXPIRED_EVENT: string := "command_expired_" + "before_execution"
  const WINDOW_MESSAGE: string :=
    "confirmation window expired; " + "the helper safety rollback " + "was triggered"
  const WINDOW_EVENT: string := "confirmation_expired_" + "safety_rollback_triggered"
  const POLICY_EVENT: string := "policy_command_" + "cancelled_before_" + "execution"

  datatype Start = Authorized | Denied | NotFound | Conflict | Invalid

  /** Whether a command was created in time to be started now. */
  predicate Fresh(c: Command, now: int) { c.createdAt <= now + 5 * MINUTE && now - c.createdAt <= COMMAND_TTL }

  /** No policy lets this command run any more. */
  predicate Withdrawn(c: Command, policyAllows: bool) {
    c.kind == ExecuteAction && c.preauthorized && !policyAllows
  }

  lemma CancelIsAbout(db: Db, c: CommandId, a: ActionId, from: set<Status>, bans: set<BanStatus>, now: int,
      message: string, event: string)
    requires c in db.commands
    ensures var db' := db.Cancel(c, a, from, bans, now, message, event);
            && OnlyAbout(db, db', {a}) && db'.bans == db.SetBan(a, bans, BanCancelled).bans
            && db'.audit == db.audit + [Audit(a, event)]
  {
  }

  lemma CancelKeepsConsistent(db: Db, c: CommandId, a: ActionId, from: set<Status>, bans: set<BanStatus>, now: int,
      message: string, event: string)
    requires db.Consistent() && db.Waiting(c, a)
    ensures var db' := db.Cancel(c, a, from, bans, now, message, event);
            && db'.Consistent() && Frozen(db, db') && db'.commands.Keys == db.commands.Keys
            && (forall k :: !db'.Waiting(k, a))
            && db'.commands[c] == db.commands[c].(completed := Some(Completion(now, false, message, None)))
            && a in db'.actions
            && db'.actions[a] ==
               (if db.actions[a].status in from then db.actions[a].(status := Cancelled, error := message)
                else db.actions[a])
            && OnlyAbout(db, db', {a}) && db'.bans == db.SetBan(a, bans, BanCancelled).bans
            && db'.audit == db.audit + [Audit(a, event)]
  {
    hide OnlyAbout;
    var db' := db.Cancel(c, a, from, bans, now, message, event);
    CancelIsAbout(db, c, a, from, bans, now, message, event);
    FinishKeepsConsistent(db, db', c, a);
    assert forall k | db'.Waiting(k, a) :: db.Waiting(k, a);
  }

  class Store {
    const e: Engine
    /** The time to live in the parameters of a ban, in seconds. */
    const ttlOf: string -> Option<int>

    var db: Db

    ghost predicate Valid()
      reads this
    {
      db.Consistent()
    }

    constructor (e: Engine, ttlOf: string -> Option<int>, devices: map<Device, DeviceRow>)
      ensures Valid() && db == Db(devices, map[], map[], map[], [])
    {
      this.e, this.ttlOf := e, ttlOf;
      db := Db(devices, map[], map[], map[], []);
    }

    /** The last gate before the privileged Helper. */
    method StartActionCommand(device: Device, c: CommandId, now: int, policyAllows: bool) returns (r: Start)
      requires Valid()
      modifies this
      ensures Valid() && Frozen(old(db), db)
      ensures OnlyAbout(old(db), db, About(old(db), c))
      ensures r in {NotFound, Conflict, Invalid} ==> db == old(db)
      ensures r.Denied? ==> c in old(db).commands
      ensures c in old(db).commands && old(db).commands[c].completed.Some? ==> db == old(db) && !r.Authorized?
      ensures r.Denied? && old(db).commands[c].completed == None ==>
        && c in db.commands && db.commands[c].completed.Some? && !db.commands[c].completed.value.ok
        && (forall a | old(db).Waiting(c, a) ::
              && (forall k :: !db.Waiting(k, a)) && Denial(old(db), db, device, c, a, now)
              && (BanKept(old(db), device, c, now) ==> db.bans == old(db).bans)
              && (!BanKept(old(db), device, c, now) ==> db.bans == old(db).SetBan(a, {BanPending}, BanCancelled).bans))
      ensures r.Denied? <==> MustDeny(old(db), device, c, now, policyAllows)
      ensures r.Authorized? <==> MayStart(old(db), device, c, now, policyAllows)
      ensures r.Authorized? ==>
        && c in old(db).commands && c in db.commands && db.commands[c].started.Some?
        && db.commands[c].meta.Some? && db.Waiting(c, db.commands[c].meta.value.action)
        && (old(db).commands[c].started.Some? ==> db == old(db))
        && (old(db).commands[c].started.None? ==> db.commands[c] == old(db).commands[c].(started := Some(now)))
    {
      hide OnlyAbout, Db.Cancel, TtlReadable;
      OnlyAboutItself(db, About(db, c));
      if c !in db.commands || db.commands[c].device != device { return NotFound; }
      var cmd := db.commands[c];
      if cmd.completed.Some? { return Denied; }
      if cmd.kind == OtherCommand { return Conflict; }
      if cmd.meta.None? { return Invalid; }
      var meta := cmd.meta.value;
      var a := meta.action;
      assert db.Waiting(c, a);
      if device !in db.devices { return NotFound; }
      if db.devices[device].observer {
        ObserverCancelReachesAction(db, c, a, now);
        db := db.Cancel(c, a, BEFORE_RUN, {BanPending}, now, OBSERVER_MESSAGE, "observer_mode_cancelled");
        return Denied;
      }
      if cmd.started.Some? { return Authorized; }
      if cmd.createdAt > now + 5 * MINUTE || now - cmd.createdAt > COMMAND_TTL {
        CancelKeepsConsistent(db, c, a, BEFORE_RUN, {BanPending}, now, EXPIRED_MESSAGE, EXPIRED_EVENT);
        db := db.Cancel(c, a, BEFORE_RUN, {BanPending}, now, EXPIRED_MESSAGE, EXPIRED_EVENT);
        return Denied;
      }
      if cmd.kind == ExecuteAction && cmd.preauthorized && !policyAllows {
        if meta.kind == IpBan {
          CancelKeepsConsistent(db, c, a, {Approved}, {BanPending}, now, POLICY_MESSAGE, POLICY_EVENT);
          db := db.Cancel(c, a, {Approved}, {BanPending}, now, POLICY_MESSAGE, POLICY_EVENT);
        } else {
          CancelKeepsConsistent(db, c, a, {Approved}, {}, now, GRANT_MESSAGE, POLICY_EVENT);
          db := db.Cancel(c, a, {Approved}, {}, now, GRANT_MESSAGE, POLICY_EVENT);
        }
        return Denied;
      }
      r := MarkStarted(c, a, now);
    }

    /** An unfinished action command of that device, which does not merely observe: it runs
        already, or is in time, allowed by policy, and readable. */
    predicate MayStart(db: Db, device: Device, c: CommandId, now: int, policyAllows: bool) {
      && c in db.commands && device in db.devices && !db.devices[device].observer
      && var cmd := db.commands[c];
         && cmd.device == device && cmd.completed == None && cmd.kind != OtherCommand && cmd.meta.Some?
         && (cmd.started.Some?
             || (Fresh(cmd, now) && !Withdrawn(cmd, policyAllows)
                 && (cmd.kind == ExecuteAction ==> TtlReadable(cmd.meta))))
    }

    /** A finished command of that device, or an unfinished one that must not run any more. */
    predicate MustDeny(db: Db, device: Device, c: CommandId, now: int, policyAllows: bool) {
      && c in db.commands && db.commands[c].device == device
      && var cmd := db.commands[c];
         || cmd.completed.Some?
         || (cmd.kind != OtherCommand && cmd.meta.Some? && device in db.devices
             && (db.devices[device].observer
                 || (cmd.started.None? && (!Fresh(cmd, now) || Withdrawn(cmd, policyAllows)))))
    }

    /** The denied command is closed and its action cancelled, for the reason that applied. */
    predicate Denial(db0: Db, db1: Db, device: Device, c: CommandId, a: ActionId, now: int) {
      && c in db0.commands && c in db1.commands && a in db0.actions && a in db1.actions
      && var (message, event) :=
           if !db0.Acts(device) then (OBSERVER_MESSAGE, "observer_mode_cancelled")
           else if !Fresh(db0.commands[c], now) then (EXPIRED_MESSAGE, EXPIRED_EVENT)
           else if db0.commands[c].meta.Some? && db0.commands[c].meta.value.kind == IpBan
           then (POLICY_MESSAGE, POLICY_EVENT)
           else (GRANT_MESSAGE, POLICY_EVENT);
         && db1.commands[c] == db0.commands[c].(completed := Some(Completion(now, false, message, None)))
         && db1.actions[a] == db0.actions[a].(status := Cancelled, error := message)
         && db1.audit == db0.audit + [Audit(a, event)]
    }

    /** Only a refused grant leaves a pending ban as it is. */
    predicate BanKept(db: Db, device: Device, c: CommandId, now: int) {
      && c in db.commands && Fresh(db.commands[c], now) && db.Acts(device)
      && db.commands[c].meta.Some? && db.commands[c].meta.value.kind != IpBan
    }

    method MarkStarted(c: CommandId, a: ActionId, now: int) returns (r: Start)
      requires Valid() && db.Waiting(c, a) && db.commands[c].started == None
      requires db.Acts(db.commands[c].device)
      modifies this
      ensures Valid() && Frozen(old(db), db) && r in {Authorized, Invalid}
      ensures r.Authorized? <==> (old(db).commands[c].kind == ExecuteAction ==> TtlReadable(old(db).commands[c].meta))
      ensures OnlyAbout(old(db), db, {a})
      ensures !r.Authorized? ==> db == old(db)
      ensures r.Authorized? ==>
        && c in db.commands && a in db.actions
        && db.actions[a] == old(db).actions[a].(status := Awaited(db.commands[c]))
        && db.bans.Keys == old(db).bans.Keys && (a in db.bans ==>
              Extended(old(db), db.bans[a], c, a, now, ttlOf(old(db).commands[c].meta.value.params)))
        && db.Waiting(c, a) && db.devices == old(db).devices
        && db.commands == old(db).commands[c := old(db).commands[c].(started := Some(now))]
        && db.audit == old(db).audit
                       + if old(db).commands[c].kind == ExecuteAction then [Audit(a, "execution_started")] else []
    {
      var cmd, next := db.commands[c], db;
      if cmd.kind == ExecuteAction {
        if next.Selects(a, cmd.device, {Approved}) {
          next := next.SetStatus(a, Executing, next.actions[a].error).Log(a, "execution_started");
        } else if !next.Selects(a, cmd.device, {Executing}) {
          return Conflict;
        }
        if cmd.meta.value.kind == IpBan {
          var ttl := ttlOf(cmd.meta.value.params);
          if ttl.None? || ttl.value < 1 { return Invalid; }
          var horizon := now + ttl.value * SECONDS;
          if a in next.bans && next.bans[a].status == BanPending && next.bans[a].expiresAt < horizon {
            next := next.(bans := next.bans[a := next.bans[a].(expiresAt := horizon)]);
          }
        }
      } else if !next.Selects(a, cmd.device, {Awaited(cmd)}) {
        return Conflict;
      }
      next := next.(commands := next.commands[c := cmd.(started := Some(now))]);
      StartKeepsConsistent(db, next, c, a);
      db := next;
      return Authorized;
    }

    /** The device's result. A finished command accepts only the very result it is bound
        to, and nothing changes; a started one can always be finished, once. */
    method CompleteCommandAndAction(device: Device, c: CommandId, s: Submission, now: int, resumeId: CommandId)
      returns (r: Completed)
      requires Valid() && resumeId !in db.commands
      modifies this
      ensures Valid() && Frozen(old(db), db)
      ensures OnlyAbout(old(db), db, About(old(db), c))
      ensures !r.Newly? ==> db == old(db)
      ensures c in old(db).commands && old(db).commands[c].completed.Some? ==> !r.Newly?
      ensures c in old(db).commands && old(db).commands[c].completed.Some? && old(db).commands[c].device == device ==>
        var done := old(db).commands[c].completed.value;
        if done.bound.Some? then (if done.bound.value == s then r == Repeated(done.ok, done.error) else r.Rejected?)
        else done.error == UNKNOWN_RESULT ==> r == Repeated(false, UNKNOWN_RESULT)
      ensures r.Newly? ==>
        && c in old(db).commands && old(db).commands[c].device == device && old(db).commands[c].completed == None
        && c in db.commands && db.commands[c].completed.Some? && db.commands[c].completed.value.bound == Some(s)
      ensures r.Newly? && old(db).commands[c].kind != OtherCommand ==>
        && old(db).commands[c].started.Some?
        && var meta := old(db).commands[c].meta.value;
           && meta.action in db.actions && db.actions[meta.action] == SettledRow(e, old(db), c, s, now)
           && db.audit == old(db).audit + Logged(meta.action, EventsOf(e, old(db), c, s, now))
           && (db.actions[meta.action].status == RollingBack ==> db.Waiting(resumeId, meta.action))
      ensures r.Newly? ==>
        var v := VerdictOn(e, old(db).commands[c], s, now);
        r == Newly(v.ok, v.error) && db.commands[c] == old(db).commands[c].(completed := Some(v))
      ensures r.Newly? && old(db).commands[c].kind != OtherCommand ==>
        BanFollows(old(db), db, c, Proven(e, old(db).commands[c].kind, old(db).commands[c].meta.value, s, now),
                   Unknown(e, old(db).commands[c].kind, old(db).commands[c].meta.value, s), now)
      ensures c in old(db).commands && Finishable(old(db), device, c) && TtlReadable(old(db).commands[c].meta) ==>
        r.Newly?
    {
      if c !in db.commands || db.commands[c].device != device { return Rejected; }
      var cmd := db.commands[c];
      if cmd.completed.Some? {
        var done := cmd.completed.value;
        if done.bound.Some? {
          if done.bound.value == s { return Repeated(done.ok, done.error); }
          return Rejected;
        }
        if done.error == UNKNOWN_RESULT { return Repeated(false, done.error); }
        return Rejected;
      }
      if cmd.kind == OtherCommand {
        UnreadableKeepsConsistent(db, c, Completion(now, s.ok, s.error, Some(s)));
        db := db.Complete(c, Completion(now, s.ok, s.error, Some(s)));
        return Newly(s.ok, s.error);
      }
      if cmd.meta.None? || cmd.started.None? { return Rejected; }
      assert db.Waiting(c, cmd.meta.value.action);
      r := Settle(c, s, now, resumeId);
    }

    predicate TtlReadable(meta: Option<Meta>) {
      meta.Some? && meta.value.kind == IpBan ==> ttlOf(meta.value.params).Some? && ttlOf(meta.value.params).value >= 1
    }

    method Settle(c: CommandId, s: Submission, now: int, resumeId: CommandId) returns (r: Completed)
      requires Valid() && resumeId !in db.commands
      requires c in db.commands && db.commands[c].meta.Some? && db.commands[c].started.Some?
      requires db.Waiting(c, db.commands[c].meta.value.action)
      modifies this
      ensures Valid() && Frozen(old(db), db) && !r.Repeated?
      ensures !r.Newly? ==> db == old(db) && !TtlReadable(old(db).commands[c].meta)
      ensures OnlyAbout(old(db), db, About(old(db), c))
      ensures r.Newly? ==>
        var v := VerdictOn(e, old(db).commands[c], s, now);
        r == Newly(v.ok, v.error) && c in db.commands && db.commands[c] == old(db).commands[c].(completed := Some(v))
      ensures r.Newly? ==>
        var meta := old(db).commands[c].meta.value;
        && meta.action in db.actions && db.actions[meta.action] == SettledRow(e, old(db), c, s, now)
        && db.audit == old(db).audit + Logged(meta.action, EventsOf(e, old(db), c, s, now))
        && (db.actions[meta.action].status == RollingBack ==> db.Waiting(resumeId, meta.action))
      ensures r.Newly? ==>
        BanFollows(old(db), db, c, Proven(e, old(db).commands[c].kind, old(db).commands[c].meta.value, s, now),
                   Unknown(e, old(db).commands[c].kind, old(db).commands[c].meta.value, s), now)
    {
      hide Proven, Unknown, Kept, LegacyResume, Refusal, Interrupted, OnlyAbout, BanFollows;
      var meta := db.commands[c].meta.value;
      var o := Classify(e, db.commands[c].kind, meta, s, now);
      var next := Project(c, s, now, o);
      OnlyAboutItself(db, {meta.action});
      if next.None? { return Rejected; }
      ghost var start := db;
      Finish(next.value, c, meta.action);
      if o.resuming {
        QueueResume(resumeId, db.commands[c].device, meta, now);
        OnlyAboutTwice(start, next.value, db, {meta.action}, {meta.action});
        assert {meta.action} + {meta.action} == {meta.action};
        SameBansFollow(start, next.value, db, c, Proven(e, start.commands[c].kind, meta, s, now),
                       Unknown(e, start.commands[c].kind, meta, s), now);
      }
      return Newly(o.ok, o.error);
    }

    lemma CompletedBansFollow(db0: Db, db1: Db, c: CommandId, completion: Completion, ok: bool, unknown: bool, now: int)
      requires c in db0.commands && db0.commands[c].meta.Some? && db0.commands[c].started.Some?
      requires BanFollows(db0.Complete(c, completion), db1, c, ok, unknown, now)
      ensures BanFollows(db0, db1, c, ok, unknown, now)
    {
    }

    lemma SameBansFollow(db0: Db, db1: Db, db2: Db, c: CommandId, ok: bool, unknown: bool, now: int)
      requires c in db0.commands && db0.commands[c].meta.Some? && db0.commands[c].started.Some?
      requires BanFollows(db0, db1, c, ok, unknown, now) && db2.bans == db1.bans
      ensures BanFollows(db0, db2, c, ok, unknown, now)
    {
    }

    /** The rows after the result of a started command, or none when they do not fit. */
    method Project(c: CommandId, s: Submission, now: int, o: Outcome) returns (r: Option<Db>)
      requires Valid() && c in db.commands && db.commands[c].meta.Some? && db.commands[c].started.Some?
      requires db.Waiting(c, db.commands[c].meta.value.action)
      requires Classified(e, db.commands[c].kind, db.commands[c].meta.value, s, now, o)
      ensures r.None? ==> !TtlReadable(db.commands[c].meta)
      ensures r.Some? ==> Projection(db, r.value, c, s, now)
      ensures r.Some? ==> OnlyAbout(db, r.value, {db.commands[c].meta.value.action})
      ensures r.Some? ==> BanFollows(db, r.value, c, o.ok, o.indeterminate, now)
      ensures r.Some? && o.resuming ==>
        Projected(e, db.commands[c].kind, db.commands[c].meta.value, s, now) == RollingBack
      ensures Projected(e, db.commands[c].kind, db.commands[c].meta.value, s, now) == RollingBack ==> o.resuming
    {
      hide Proven, Unknown, Kept, LegacyResume, Refusal, Interrupted, BanFollows, TtlReadable, OnlyAbout, Classified;
      hide Projected, RowAfter, EventsAfter, SettledRow, EventsOf, ErrorOf, BanIsOver, RecoveredSuccess;
      hide Db.Warned, WarningsOf, Logged, Projection, Moved, VerdictOn;
      var cmd := db.commands[c];
      var meta := cmd.meta.value;
      OutcomeMatches(e, cmd.kind, meta, s, now, o);
      var completion := Completion(now, o.ok, o.error, Some(s));
      var next := db.Complete(c, completion);
      var confirmBy := if s.audit.Some? then s.audit.value.confirmBy else None;
      var settled := SettleByKind(next, c, o, confirmBy, now);
      if settled.None? { return None; }
      CompletedBansFollow(db, settled.value, c, completion, o.ok, o.indeterminate, now);
      MovedOnlyAbout(db, next, settled.value, meta.action, RowAfter(db.actions[meta.action], cmd.kind, o, confirmBy),
                     EventsAfter(cmd.kind, o, confirmBy));
      var over := false;
      if cmd.kind == ExecuteAction && (o.ok || o.indeterminate) && meta.kind == IpBan {
        var ttl := ttlOf(meta.params);
        over := ttl.Some? && now >= cmd.started.value + ttl.value * SECONDS;
      }
      OverIs(cmd, o.ok || o.indeterminate, now, over);
      var warned := settled.value.Warned(meta.action, o.warned, over);
      WarnedIsLogged(db, settled.value, meta.action, o.warned, over);
      ProjectionHolds(db, settled.value, c, s, now, o);
      SameBansFollow(db, settled.value, warned, c, o.ok, o.indeterminate, now);
      r := Some(warned);
    }

    /** Everything but the bans after the result of a started command. */
    ghost predicate Projection(db0: Db, next: Db, c: CommandId, s: Submission, now: int)
      requires c in db0.commands && db0.commands[c].meta.Some?
    {
      var a := db0.commands[c].meta.value.action;
      && c in next.commands && next.commands == db0.commands[c := next.commands[c]] && next.devices == db0.devices
      && next.commands[c] == db0.commands[c].(completed := Some(VerdictOn(e, db0.commands[c], s, now)))
      && a in db0.actions && a in next.actions && next.actions[a] == SettledRow(e, db0, c, s, now)
      && next.audit == db0.audit + Logged(a, EventsOf(e, db0, c, s, now))
    }

    lemma ProjectionHolds(db0: Db, settled: Db, c: CommandId, s: Submission, now: int, o: Outcome)
      requires c in db0.commands && db0.commands[c].meta.Some? && db0.commands[c].kind != OtherCommand
      requires Classified(e, db0.commands[c].kind, db0.commands[c].meta.value, s, now, o)
      requires var cmd, a := db0.commands[c], db0.commands[c].meta.value.action;
               var confirmBy := if s.audit.Some? then s.audit.value.confirmBy else None;
               && a in db0.actions
               && Moved(db0.Complete(c, Completion(now, o.ok, o.error, Some(s))), settled, a,
                        RowAfter(db0.actions[a], cmd.kind, o, confirmBy), EventsAfter(cmd.kind, o, confirmBy))
      ensures var cmd, a := db0.commands[c], db0.commands[c].meta.value.action;
              var over := BanIsOver(cmd, o.ok || o.indeterminate, now);
              Projection(db0, settled.Warned(a, o.warned, over), c, s, now)
    {
      hide Classified, Proven, Unknown, Kept, Projected, ErrorOf, BanIsOver, RecoveredSuccess, OnlyAbout;
      hide Db.Warned, WarningsOf, Logged, RowAfter, EventsAfter, SettledRow, EventsOf;
      var cmd, a := db0.commands[c], db0.commands[c].meta.value.action;
      var confirmBy := if s.audit.Some? then s.audit.value.confirmBy else None;
      OutcomeMatches(e, cmd.kind, cmd.meta.value, s, now, o);
      RowMatches(db0, c, s, now, o);
      var over := BanIsOver(cmd, o.ok || o.indeterminate, now);
      var closed := db0.Complete(c, Completion(now, o.ok, o.error, Some(s)));
      MovedItself(closed, settled, a, RowAfter(db0.actions[a], cmd.kind, o, confirmBy),
                  EventsAfter(cmd.kind, o, confirmBy));
      WarnedIsLogged(closed, settled, a, o.warned, over);
      LoggedParts(a, EventsAfter(cmd.kind, o, confirmBy), WarningsOf(o.warned, over));
    }

    lemma RowMatches(db: Db, c: CommandId, s: Submission, now: int, o: Outcome)
      requires c in db.commands && db.commands[c].meta.Some? && db.commands[c].kind != OtherCommand
      requires Classified(e, db.commands[c].kind, db.commands[c].meta.value, s, now, o)
      ensures var cmd, a := db.commands[c], db.commands[c].meta.value.action;
              var confirmBy := if s.audit.Some? then s.audit.value.confirmBy else None;
              && (a in db.actions ==> SettledRow(e, db, c, s, now) == RowAfter(db.actions[a], cmd.kind, o, confirmBy))
              && EventsOf(e, db, c, s, now) ==
                 EventsAfter(cmd.kind, o, confirmBy)
                 + WarningsOf(o.warned, BanIsOver(cmd, o.ok || o.indeterminate, now))
    {
      hide Classified, Proven, Unknown, Kept, Projected, ErrorOf, BanIsOver, RecoveredSuccess, WarningsOf, StatusName;
      var cmd := db.commands[c];
      OutcomeMatches(e, cmd.kind, cmd.meta.value, s, now, o);
    }

    method SettleByKind(db0: Db, c: CommandId, o: Outcome, confirmBy: Option<int>, now: int) returns (r: Option<Db>)
      requires c in db0.commands && db0.commands[c].meta.Some? && db0.commands[c].started.Some?
      requires db0.commands[c].kind != OtherCommand
      requires var a := db0.commands[c].meta.value.action;
               a in db0.actions && db0.actions[a].device == db0.commands[c].device
               && db0.actions[a].status == Awaited(db0.commands[c])
      ensures r.None? ==> !TtlReadable(db0.commands[c].meta)
      ensures r.Some? ==>
        && BanFollows(db0, r.value, c, o.ok, o.indeterminate, now)
        && var cmd, a := db0.commands[c], db0.commands[c].meta.value.action;
           Moved(db0, r.value, a, RowAfter(db0.actions[a], cmd.kind, o, confirmBy), EventsAfter(cmd.kind, o, confirmBy))
    {
      hide StatusName, RESUME_EVENT;
      match db0.commands[c].kind {
        case ExecuteAction => r := SettleExecute(db0, c, o, confirmBy, now);
        case RollbackAction => r := SettleRollback(db0, c, o);
        case _ => r := SettleConfirm(db0, c, o);
      }
    }

    /** An executed ban whose earliest end has passed when its result arrives. */
    predicate BanIsOver(cmd: Command, applied: bool, now: int) {
      && cmd.kind == ExecuteAction && cmd.started.Some? && applied && cmd.meta.Some? && cmd.meta.value.kind == IpBan
      && var ttl := ttlOf(cmd.meta.value.params);
         ttl.Some? && cmd.started.value + ttl.value * SECONDS <= now
    }

    lemma OverIs(cmd: Command, applied: bool, now: int, over: bool)
      requires cmd.started.Some? && cmd.meta.Some?
      requires over <==>
        && cmd.kind == ExecuteAction && applied && cmd.meta.value.kind == IpBan
        && var ttl := ttlOf(cmd.meta.value.params); ttl.Some? && now >= cmd.started.value + ttl.value * SECONDS
      ensures over == BanIsOver(cmd, applied, now)
    {
    }

    /** What the audit says of a result, in order. */
    function EventsOf(e: Engine, db: Db, c: CommandId, s: Submission, now: int): seq<string>
      requires c in db.commands && db.commands[c].meta.Some?
    {
      var cmd, meta := db.commands[c], db.commands[c].meta.value;
      var ok, unknown := Proven(e, cmd.kind, meta, s, now), Unknown(e, cmd.kind, meta, s);
      var status := Projected(e, cmd.kind, meta, s, now);
      (if status == RollingBack then [RESUME_EVENT] else [])
      + [if cmd.kind != ConfirmAction then StatusName(status) else if ok then "confirmed" else "confirmation_failed"]
      + WarningsOf(RecoveredSuccess(e, cmd.kind, meta, s, now), BanIsOver(cmd, ok || unknown, now))
    }

    method Finish(next: Db, c: CommandId, a: ActionId)
      requires Valid() && db.Waiting(c, a)
      requires c in next.commands && next.commands == db.commands[c := next.commands[c]]
        && next.commands[c] == db.commands[c].(completed := next.commands[c].completed)
      requires next.commands[c].completed.Some?
      requires OnlyAbout(db, next, {a}) && next.devices == db.devices
      modifies this
      ensures Valid() && Frozen(old(db), db) && db == next && forall k :: !db.Waiting(k, a)
    {
      FinishKeepsConsistent(db, next, c, a);
      forall k ensures !next.Waiting(k, a) { assert next.Waiting(k, a) ==> db.Waiting(k, a) && k != c; }
      db := next;
    }

    /** The compatibility case: resume at once what has no local journal. */
    method QueueResume(c: CommandId, device: Device, meta: Meta, now: int)
      requires Valid() && c !in db.commands && forall k :: !db.Waiting(k, meta.action)
      requires db.Selects(meta.action, device, {RollingBack})
      modifies this
      ensures Valid() && Frozen(old(db), db) && db.actions == old(db).actions
      ensures OnlyAbout(old(db), db, {meta.action}) && db.bans == old(db).bans && db.audit == old(db).audit
      ensures db.commands == old(db).commands[c := Command(device, RollbackAction, Some(meta), false, now, None, None)]
    {
      var resume := Command(device, RollbackAction, Some(meta), false, now, None, None);
      var next := db.(commands := db.commands[c := resume]);
      QueueKeepsConsistent(db, next, c, meta.action);
      db := next;
    }

    method SettleExecute(db0: Db, c: CommandId, o: Outcome, confirmBy: Option<int>, now: int) returns (r: Option<Db>)
      requires c in db0.commands && db0.commands[c].meta.Some? && db0.commands[c].started.Some?
      requires db0.commands[c].kind == ExecuteAction
      ensures r.Some? <==>
        && db0.Selects(db0.commands[c].meta.value.action, db0.commands[c].device, {Executing})
        && (o.ok || o.indeterminate ==> TtlReadable(db0.commands[c].meta))
      ensures r.Some? ==> BanFollows(db0, r.value, c, o.ok, o.indeterminate, now)
      ensures r.Some? ==> Moved(db0, r.value, db0.commands[c].meta.value.action,
        ActionRow(db0.commands[c].device, AfterExecute(o, confirmBy), o.kept,
                  if AfterExecute(o, confirmBy) == AwaitingConfirmation then confirmBy else None, o.error),
        (if o.resuming then [RESUME_EVENT] else []) + [StatusName(AfterExecute(o, confirmBy))])
    {
      var cmd := db0.commands[c];
      var next, a, status := db0, cmd.meta.value.action, AfterExecute(o, confirmBy);
      if !next.Selects(a, cmd.device, {Executing}) { return None; }
      var deadline := if status == AwaitingConfirmation then confirmBy else None;
      next := next.(actions := next.actions[a := ActionRow(cmd.device, status, o.kept, deadline, o.error)]);
      if o.resuming { next := next.Log(a, RESUME_EVENT); }
      var bans := ExecutedBans(next.bans, cmd, o, now);
      if bans.None? { return None; }
      return Some(next.(bans := bans.value).Log(a, StatusName(status)));
    }

    /** The bans after the result of an execution, or none when its parameters cannot be read. */
    method ExecutedBans(bans: map<ActionId, Ban>, cmd: Command, o: Outcome, now: int)
      returns (r: Option<map<ActionId, Ban>>)
      requires cmd.meta.Some? && cmd.started.Some? && cmd.kind == ExecuteAction
      ensures r.Some? <==> (o.ok || o.indeterminate ==> TtlReadable(cmd.meta))
      ensures r.Some? ==>
        && r.value.Keys == bans.Keys
        && (forall x | x in bans && x != cmd.meta.value.action :: r.value[x] == bans[x])
        && BanEnds(bans, r.value, cmd, o.ok, o.indeterminate, now)
    {
      var a := cmd.meta.value.action;
      if (o.ok || o.indeterminate) && cmd.meta.value.kind == IpBan {
        var ttl := ttlOf(cmd.meta.value.params);
        if ttl.None? || ttl.value < 1 { return None; }
        var expiresAt := cmd.started.value + ttl.value * SECONDS;
        var over := expiresAt <= now;
        if a !in bans || bans[a].status != BanPending { return Some(bans); }
        return Some(bans[a := Ban(if over || o.indeterminate then BanIndeterminate else BanActive, expiresAt)]);
      }
      if a !in bans || bans[a].status != BanPending { return Some(bans); }
      var banned := if o.indeterminate then BanIndeterminate else if o.ok then BanActive else BanFailed;
      return Some(bans[a := bans[a].(status := banned)]);
    }

    /** A pending ban turns active only by a success, and only while the earliest moment at
        which the kernel can drop it lies ahead; that moment is what gets recorded. A
        rollback takes it back, and a confirmation leaves it alone. */
    ghost predicate BanFollows(db0: Db, db1: Db, c: CommandId, ok: bool, unknown: bool, now: int)
      requires c in db0.commands && db0.commands[c].meta.Some? && db0.commands[c].started.Some?
    {
      BanEnds(db0.bans, db1.bans, db0.commands[c], ok, unknown, now)
    }

    ghost predicate BanEnds(before: map<ActionId, Ban>, after: map<ActionId, Ban>, cmd: Command, ok: bool,
        unknown: bool, now: int)
      requires cmd.meta.Some? && cmd.started.Some?
    {
      var a := cmd.meta.value.action;
      a in before ==>
        && a in after
        && match cmd.kind
           case ExecuteAction =>
             if before[a].status != BanPending then after[a] == before[a]
             else if cmd.meta.value.kind == IpBan && (ok || unknown) then
               && TtlReadable(cmd.meta)
               && var earliest := cmd.started.value + ttlOf(cmd.meta.value.params).value * SECONDS;
                  after[a] == Ban(if ok && !unknown && now < earliest then BanActive else BanIndeterminate, earliest)
             else
               after[a] == before[a].(status := if unknown then BanIndeterminate
                                                else if ok then BanActive else BanFailed)
           case RollbackAction => after[a] == before[a].(status := AfterUndo(ok, unknown, before[a].status))
           case _ => after[a] == before[a]
    }

    method SettleRollback(db0: Db, c: CommandId, o: Outcome) returns (r: Option<Db>)
      requires c in db0.commands && db0.commands[c].meta.Some?
      ensures r.Some? <==> db0.Selects(db0.commands[c].meta.value.action, db0.commands[c].device, {RollingBack})
      ensures r.Some? ==>
        Moved(db0, r.value, db0.commands[c].meta.value.action, db0.actions[db0.commands[c].meta.value.action].(
        status := AfterRollback(o), error := o.error), [StatusName(AfterRollback(o))])
      requires db0.commands[c].kind == RollbackAction && db0.commands[c].started.Some?
      ensures r.Some? ==> forall now: int :: BanFollows(db0, r.value, c, o.ok, o.indeterminate, now)
    {
      var cmd := db0.commands[c];
      var next, a := db0, cmd.meta.value.action;
      if !next.Selects(a, cmd.device, {RollingBack}) { return None; }
      var status := if o.indeterminate then Indeterminate else if o.ok then RolledBack else Failed;
      next := next.SetStatus(a, status, o.error);
      if o.ok {
        next := next.SetBan(a, {BanActive, BanIndeterminate}, BanRolledBack);
      } else if o.indeterminate {
        next := next.SetBan(a, {BanPending, BanActive, BanIndeterminate}, BanIndeterminate);
      }
      return Some(next.Log(a, StatusName(status)));
    }

    method SettleConfirm(db0: Db, c: CommandId, o: Outcome) returns (r: Option<Db>)
      requires c in db0.commands && db0.commands[c].meta.Some?
      requires db0.commands[c].kind == ConfirmAction && db0.commands[c].started.Some?
      ensures r.Some? <==> db0.Selects(db0.commands[c].meta.value.action, db0.commands[c].device, {Confirming})
      ensures r.Some? ==>
        Moved(db0, r.value, db0.commands[c].meta.value.action, db0.actions[db0.commands[c].meta.value.action].(
        status := if o.indeterminate then Indeterminate else if o.ok then Succeeded else Failed, error := o.error),
        [if o.ok then "confirmed" else "confirmation_failed"])
      ensures r.Some? ==> r.value.bans == db0.bans
    {
      var cmd := db0.commands[c];
      var next, a := db0, cmd.meta.value.action;
      if !next.Selects(a, cmd.device, {Confirming}) { return None; }
      next := next.SetStatus(a, if o.indeterminate then Indeterminate else if o.ok then Succeeded else Failed, o.error);
      return Some(next.Log(a, if o.ok then "confirmed" else "confirmation_failed"));
    }

    /** The device is gone: everything unfinished ends. What had started may have run, so
        its action becomes indeterminate; what had not is cancelled. */
    method RevokeDevice(device: Device, now: int) returns (ok: bool)
      requires Valid()
      modifies this
      ensures Valid() && Frozen(old(db), db)
      ensures ok <==> device in old(db).devices && !old(db).devices[device].revoked
      ensures db.devices ==
        if ok then old(db).devices[device := old(db).devices[device].(revoked := true)] else old(db).devices
      ensures !ok ==> db == old(db)
      ensures ok ==> forall c | c in db.commands && db.commands[c].device == device :: db.commands[c].completed.Some?
      ensures ok ==> db.commands.Keys == old(db).commands.Keys
      ensures ok ==> forall c | c in old(db).commands && old(db).commands[c].device == device ::
        Closed(old(db).commands[c], db.commands[c], now)
      ensures ok ==>
        forall c, a | old(db).Waiting(c, a) && old(db).commands[c].device == device :: Ended(old(db), db, c, a)
      ensures OnlyAbout(old(db), db, AboutDevice(old(db), device))
    {
      hide OnlyAbout, Ended, About, AboutDevice, Db.Consistent, ClosedBut, Closed;
      OnlyAboutItself(db, AboutDevice(db, device));
      if device !in db.devices || db.devices[device].revoked { return false; }
      ghost var start := db;
      var marked := db.(devices := db.devices[device := db.devices[device].(revoked := true)]);
      RevokingKeepsConsistent(db, device);
      SameTables(db, marked);
      db := marked;
      var pending := set c | c in db.commands && db.commands[c].device == device && db.commands[c].completed == None;
      ghost var settled: set<ActionId> := {};
      NoneClosed(start, db, device, now, pending);
      while pending != {}
        invariant Valid() && Frozen(start, db) && db.devices == marked.devices
        invariant forall c | c in pending :: Open(start, db, device, c)
        invariant forall c | c in db.commands && db.commands[c].device == device && db.commands[c].completed == None ::
          c in pending
        invariant ClosedBut(start, db, device, now, pending)
        invariant OnlyAbout(start, db, settled) && settled <= AboutDevice(start, device)
        invariant forall c, a | start.Waiting(c, a) && c in pending :: a !in settled
        invariant forall c, a | start.Waiting(c, a) && start.commands[c].device == device && c !in pending ::
          a in settled && Ended(start, db, c, a)
        decreases pending
      {
        var c :| c in pending;
        ghost var was, before := pending, db;
        pending := pending - {c};
        RevokeCommand(device, c, now);
        RevokedOnTop(start, before, db, settled, device, c);
        assert pending + {c} == was;
        OneClosed(start, before, db, device, now, pending, c);
        settled := settled + About(start, c);
      }
      OnlyAboutMore(start, db, settled, AboutDevice(start, device));
      AllClosed(start, db, device, now);
      ok := true;
    }

    method RevokeCommand(device: Device, c: CommandId, now: int)
      requires Valid() && c in db.commands && db.commands[c].completed == None && db.commands[c].device == device
      modifies this
      ensures Valid() && Frozen(old(db), db) && db.commands.Keys == old(db).commands.Keys
      ensures db.devices == old(db).devices
      ensures db.commands[c].completed.Some? && db.commands[c].device == device
      ensures Closed(old(db).commands[c], db.commands[c], now)
      ensures forall k | k in old(db).commands && k != c :: db.commands[k] == old(db).commands[k]
      ensures forall a | old(db).Waiting(c, a) :: Ended(old(db), db, c, a)
      ensures OnlyAbout(old(db), db, About(old(db), c))
    {
      hide OnlyAbout, Ended, Db.Consistent, Db.Revoked, UNKNOWN_RESULT, REVOKED_MESSAGE;
      var cmd := db.commands[c];
      if cmd.kind == OtherCommand || cmd.meta.None? {
        var message := if cmd.kind != OtherCommand && cmd.started.Some? then UNKNOWN_RESULT else REVOKED_MESSAGE;
        UnreadableKeepsConsistent(db, c, Completion(now, false, message, None));
        SameTables(db, db.Complete(c, Completion(now, false, message, None)));
        assert About(db, c) == {};
        db := db.Complete(c, Completion(now, false, message, None));
      } else {
        assert db.Waiting(c, cmd.meta.value.action);
        RevokedKeepsConsistent(db, c, cmd.meta.value.action, now);
        db := db.Revoked(c, cmd.meta.value.action, now);
      }
    }

    // -------------------------------------------------------------------------
    // Queueing
    // -------------------------------------------------------------------------

    /** A new action, if the device has room for one; a ban gets its pending row. */
    method CreateAction(a: ActionId, device: Device, ban: Option<Ban>, admitted: bool) returns (ok: bool)
      requires Valid()
      modifies this
      ensures Valid() && db.commands == old(db).commands && OnlyAbout(old(db), db, {a})
      ensures ok <==>
        && admitted && a !in old(db).actions && device in old(db).devices
        && (ban.Some? ==> ban.value.status == BanPending)
      ensures !ok ==> db == old(db)
      ensures ok ==>
        && a in db.actions && db.actions[a] == ActionRow(device, Draft, Nothing, None, "")
        && db.bans == (if ban.Some? then old(db).bans[a := ban.value] else old(db).bans)
        && db.audit == old(db).audit + [Audit(a, "preview_created")]
    {
      if !admitted || device !in db.devices || a in db.actions || (ban.Some? && ban.value.status != BanPending) {
        return false;
      }
      AtRest(db, a);
      var next := db.(actions := db.actions[a := ActionRow(device, Draft, Nothing, None, "")]);
      if ban.Some? { next := next.(bans := next.bans[a := ban.value]); }
      RestingKeepsConsistent(db, next, a);
      db := next.Log(a, "preview_created");
      SameRows(next, db);
      return true;
    }

    /** Approval, a rollback request, or a confirmation request: the action moves to the
        state that waits, and its command is queued, in one transaction. Only an action at
        rest can be moved, so at most one command ever waits for it. `admitted`: an approval
        has its recent nonce, and the device of a rollback has room for another command. */
    method Request(a: ActionId, c: CommandId, kind: CommandKind, meta: Meta, preauthorized: bool, admitted: bool,
        now: int)
      returns (ok: bool)
      requires Valid() && c !in db.commands && kind != OtherCommand && meta.action == a
      modifies this
      ensures Valid() && Frozen(old(db), db)
      ensures !ok ==> db == old(db)
      ensures OnlyAbout(old(db), db, {a}) && db.bans == old(db).bans
      ensures ok <==>
        (admitted || kind == ConfirmAction) && a in old(db).actions && Requestable(old(db).actions[a], kind, now)
      ensures ok ==>
        && a in db.actions && c in db.commands
        && db.actions[a] == old(db).actions[a].(status := Awaited(db.commands[c]))
        && db.commands ==
           old(db).commands[c := Command(old(db).actions[a].device, kind, Some(meta), preauthorized, now, None, None)]
        && db.audit == old(db).audit + [Audit(a, RequestEvent(kind))]
      ensures ok ==> db.Waiting(c, a) && forall k | db.Waiting(k, a) :: k == c
    {
      if !admitted && kind != ConfirmAction { return false; }
      if a !in db.actions { return false; }
      var row := db.actions[a];
      if kind == ExecuteAction {
        if row.status != Draft { return false; }
      } else if kind == RollbackAction {
        if row.rollback == Nothing { return false; }
        if row.status !in {Succeeded, AwaitingConfirmation, Failed, Indeterminate} { return false; }
      } else {
        if row.status != AwaitingConfirmation || row.rollback == Nothing { return false; }
        if row.confirmBy.None? || row.confirmBy.value <= now { return false; }
      }
      var cmd := Command(row.device, kind, Some(meta), preauthorized, now, None, None);
      AtRest(db, a);
      var next := db.(actions := db.actions[a := row.(status := Awaited(cmd))],
          commands := db.commands[c := cmd]).Log(a, RequestEvent(kind));
      QueueKeepsConsistent(db, next, c, a);
      db := next;
      return true;
    }

    /** Nobody confirmed in time. */
    method ExpireConfirmation(a: ActionId, now: int)
      requires Valid()
      modifies this
      ensures Valid() && db.commands == old(db).commands && OnlyAbout(old(db), db, {a}) && db.bans == old(db).bans
      ensures if a in old(db).actions && Unconfirmed(old(db).actions[a], now)
              then
                && a in db.actions
                && db.actions[a] == old(db).actions[a].(status := Cancelled, error := WINDOW_MESSAGE)
                && db.audit == old(db).audit + [Audit(a, WINDOW_EVENT)]
              else db == old(db)
    {
      if a !in db.actions || db.actions[a].status != AwaitingConfirmation { return; }
      if db.actions[a].confirmBy.None? || db.actions[a].confirmBy.value > now { return; }
      AtRest(db, a);
      var next := db.SetStatus(a, Cancelled, WINDOW_MESSAGE);
      RestingKeepsConsistent(db, next, a);
      db := next.Log(a, WINDOW_EVENT);
      SameRows(next, db);
    }

    /** A device is enrolled, or enrolled again: never once it was revoked, and not in another
        mode while one of its action commands has no result. */
    method Enroll(device: Device, observer: bool) returns (ok: bool)
      requires Valid()
      modifies this
      ensures Valid() && OnlyAbout(old(db), db, {})
      ensures ok <==>
        (device in old(db).devices ==>
          && !old(db).devices[device].revoked
          && (old(db).devices[device].observer == observer
              || forall c | c in old(db).commands && old(db).commands[c].device == device ::
                   old(db).commands[c].completed.Some? || old(db).commands[c].kind == OtherCommand))
      ensures db ==
        if ok then old(db).(devices := old(db).devices[device := DeviceRow(observer, false)]) else old(db)
    {
      if device in db.devices {
        var row := db.devices[device];
        if row.revoked { return false; }
        if row.observer != observer && db.Busy(device) { return false; }
      }
      ModeChangeKeepsConsistentIff(db, device, observer);
      db := db.(devices := db.devices[device := DeviceRow(observer, false)]);
      return true;
    }

    method Perform(step: Step)
      requires Valid()
      modifies this
      ensures Valid() && Explained(Passage(step, old(db), db))
    {
      hide OnlyAbout, About, AboutDevice;
      OnlyAboutItself(db, Touched(step, db));
      match step {
        case EnrollStep(device, observer) => var _ := Enroll(device, observer);
        case CreateStep(a, device, ban, admitted) => var _ := CreateAction(a, device, ban, admitted);
        case RequestStep(c, kind, meta, preauthorized, admitted, now) =>
          if c !in db.commands && kind != OtherCommand {
            var _ := Request(meta.action, c, kind, meta, preauthorized, admitted, now);
          }
        case StartStep(device, c, now, allows) => var _ := StartActionCommand(device, c, now, allows);
        case CompleteStep(device, c, s, now, resumeId) =>
          if resumeId !in db.commands { var _ := CompleteCommandAndAction(device, c, s, now, resumeId); }
        case ExpireStep(a, now) => ExpireConfirmation(a, now);
        case RevokeStep(device, now) => var _ := RevokeDevice(device, now);
      }
    }

    /** Any sequence of transactions: the rows stay consistent; a command that was finished
        at any time stays exactly as it was finished; and every step changes rows, bans and
        audit only of the actions it is entitled to. A start or a result of a finished
        command changes nothing at all. */
    method Run(steps: seq<Step>) returns (ghost passages: seq<Passage>)
      requires Valid()
      modifies this
      ensures Valid() && Frozen(old(db), db)
      ensures |passages| == |steps| && Chained(old(db), passages, db)
      ensures forall i | 0 <= i < |steps| :: passages[i].step == steps[i] && Explained(passages[i])
    {
      hide Touched, Explained;
      passages := [];
      for i := 0 to |steps|
        invariant Valid() && Frozen(old(db), db)
        invariant |passages| == i && Chained(old(db), passages, db)
        invariant forall k | 0 <= k < i :: passages[k].step == steps[k] && Explained(passages[k])
      {
        ghost var before := db;
        Perform(steps[i]);
        ExplainedFreezes(Passage(steps[i], before, db));
        ChainMore(old(db), passages, before, Passage(steps[i], before, db));
        passages := passages + [Passage(steps[i], before, db)];
      }
    }
  }

  /** One transaction, with the tables before and after it. */
  datatype Passage = Passage(step: Step, before: Db, after: Db)

  /** The actions that a transaction may change. */
  function Touched(step: Step, db: Db): set<ActionId> {
    match step
    case EnrollStep(_, _) => {}
    case CreateStep(a, _, _, _) => {a}
    case RequestStep(_, _, meta, _, _, _) => {meta.action}
    case StartStep(_, c, _, _) => About(db, c)
    case CompleteStep(_, c, _, _, _) => About(db, c)
    case ExpireStep(a, _) => {a}
    case RevokeStep(device, _) => AboutDevice(db, device)
  }

  predicate FinishedBefore(p: Passage) {
    && (p.step.StartStep? || p.step.CompleteStep?)
    && p.step.c in p.before.commands && p.before.commands[p.step.c].completed.Some?
  }

  ghost predicate Explained(p: Passage) {
    && Frozen(p.before, p.after) && OnlyAbout(p.before, p.after, Touched(p.step, p.before))
    && (FinishedBefore(p) ==> p.after == p.before)
  }

  ghost predicate Chained(start: Db, passages: seq<Passage>, end: Db) {
    if passages == [] then start == end
    else
      && passages[|passages| - 1].after == end
      && Chained(start, passages[..|passages| - 1], passages[|passages| - 1].before)
  }

  lemma ChainMore(start: Db, passages: seq<Passage>, middle: Db, p: Passage)
    requires Chained(start, passages, middle) && p.before == middle
    ensures Chained(start, passages + [p], p.after)
  {
    assert (passages + [p])[..|passages|] == passages;
  }

  lemma ExplainedFreezes(p: Passage)
    requires Explained(p)
    ensures Frozen(p.before, p.after)
  {
  }

  /** Over a whole run, the row and the ban of an action that no step is entitled to change
      are as they were, and no audit entry about it was added. */
  lemma {:induction false} UntouchedKeepsRows(start: Db, passages: seq<Passage>, end: Db, a: ActionId)
    requires Chained(start, passages, end)
      && forall p | p in passages :: Explained(p) && a !in Touched(p.step, p.before)
    ensures a in end.actions <==> a in start.actions
    ensures a in start.actions ==> end.actions[a] == start.actions[a]
    ensures a in end.bans <==> a in start.bans
    ensures a in start.bans ==> end.bans[a] == start.bans[a]
    ensures start.audit <= end.audit && forall i | |start.audit| <= i < |end.audit| :: end.audit[i].action != a
  {
    hide Touched;
    if passages != [] {
      var n := |passages| - 1;
      var last := passages[n];
      assert last in passages && forall p | p in passages[..n] :: p in passages;
      UntouchedKeepsRows(start, passages[..n], last.before, a);
      forall i | |start.audit| <= i < |end.audit| ensures end.audit[i].action != a {
        if i < |last.before.audit| { assert end.audit[i] == last.before.audit[i]; }
      }
    }
  }

  /** The confirmation window of an applied change is over. */
  predicate Unconfirmed(row: ActionRow, now: int) {
    row.status == AwaitingConfirmation && row.confirmBy.Some? && row.confirmBy.value <= now
  }

  function RequestEvent(kind: CommandKind): string {
    match kind
    case ExecuteAction => "approved_and_queued"
    case RollbackAction => "rollback_requested"
    case _ => "confirmation_requested"
  }

  /** From which rows an administrator may ask for a command. */
  predicate Requestable(row: ActionRow, kind: CommandKind, now: int) {
    match kind
    case ExecuteAction => row.status == Draft
    case RollbackAction =>
      row.status in {Succeeded, AwaitingConfirmation, Failed, Indeterminate} && row.rollback != Nothing
    case ConfirmAction =>
      && row.status == AwaitingConfirmation && row.rollback != Nothing && row.confirmBy.Some?
      && row.confirmBy.value > now
    case OtherCommand => false
  }

  datatype Step =
    | EnrollStep(device: Device, observer: bool)
    | CreateStep(a: ActionId, device: Device, ban: Option<Ban>, admitted: bool)
    | RequestStep(c: CommandId, kind: CommandKind, meta: Meta, preauthorized: bool, admitted: bool, now: int)
    | StartStep(device: Device, c: CommandId, now: int, allows: bool)
    | CompleteStep(device: Device, c: CommandId, s: Submission, now: int, resumeId: CommandId)
    | ExpireStep(a: ActionId, now: int)
    | RevokeStep(device: Device, now: int)

  lemma RestingKeepsConsistent(db: Db, db': Db, a: ActionId)
    requires db.Consistent() && db'.commands == db.commands && db'.devices == db.devices
    requires forall c :: !db.Waiting(c, a)
    requires forall x | x in db.actions && x != a :: x in db'.actions && db'.actions[x] == db.actions[x]
    ensures db'.Consistent()
  {
    forall c, x | db'.Waiting(c, x) ensures db.Waiting(c, x) && x != a { assert db.Waiting(c, x); }
    assert forall c | db'.Running(c) :: db.Running(c);
  }

  /** A command of the device that is as unfinished as it was at the start. */
  ghost predicate Open(start: Db, db: Db, device: Device, c: CommandId) {
    && c in start.commands && c in db.commands && db.commands[c] == start.commands[c]
    && db.commands[c].completed == None && db.commands[c].device == device
  }

  lemma RevokedKeepsConsistent(db: Db, c: CommandId, a: ActionId, now: int)
    requires db.Consistent() && db.Waiting(c, a)
    ensures var db' := db.Revoked(c, a, now);
            && db'.Consistent() && db'.commands.Keys == db.commands.Keys
            && (forall k | k in db.commands && k != c :: db'.commands[k] == db.commands[k])
            && db'.commands[c].completed.Some? && db'.commands[c].device == db.commands[c].device
            && Closed(db.commands[c], db'.commands[c], now) && db'.devices == db.devices
            && OnlyAbout(db, db', {a}) && Ended(db, db', c, a)
  {
    hide Ended, OnlyAbout;
    RevokedEnds(db, c, a, now);
    RevokedCommands(db, c, a, now);
    FinishKeepsConsistent(db, db.Revoked(c, a, now), c, a);
  }

  lemma RevokedCommands(db: Db, c: CommandId, a: ActionId, now: int)
    requires db.Waiting(c, a)
    ensures var db' := db.Revoked(c, a, now);
            && db'.commands == db.commands[c := db.commands[c].(completed := db'.commands[c].completed)]
            && db'.commands[c].completed.Some? && db'.devices == db.devices
            && Closed(db.commands[c], db'.commands[c], now)
            && forall x | x in db.actions && x != a :: x in db'.actions && db'.actions[x] == db.actions[x]
  {
    hide UNKNOWN_RESULT, REVOKED_MESSAGE;
  }

  lemma RevokedEnds(db: Db, c: CommandId, a: ActionId, now: int)
    requires db.Consistent() && db.Waiting(c, a)
    ensures OnlyAbout(db, db.Revoked(c, a, now), {a}) && Ended(db, db.Revoked(c, a, now), c, a)
  {
    hide OnlyAbout;
    RevokedOnlyAbout(db, c, a, now);
    assert db.actions[a].device == db.commands[c].device;
    var event :=
      if db.commands[c].started.Some? then "device_revoked_during_execution"
      else "device_revoked_before_execution";
    assert db.Revoked(c, a, now).audit == db.audit + [Audit(a, event)];
  }

  lemma RevokedOnlyAbout(db: Db, c: CommandId, a: ActionId, now: int)
    requires c in db.commands
    ensures OnlyAbout(db, db.Revoked(c, a, now), {a})
  {
    hide UNKNOWN_RESULT, REVOKED_MESSAGE;
  }

  /** What ended before the next command of the device is revoked stays ended, and what
      that command is about has not been touched before. */
  lemma RevokedOnTop(start: Db, before: Db, db: Db, settled: set<ActionId>, device: Device, c: CommandId)
    requires start.Consistent() && Open(start, before, device, c)
    requires OnlyAbout(start, before, settled) && OnlyAbout(before, db, About(before, c))
    requires forall a | start.Waiting(c, a) :: a !in settled
    requires forall a | before.Waiting(c, a) :: Ended(before, db, c, a)
    ensures OnlyAbout(start, db, settled + About(start, c)) && About(start, c) <= AboutDevice(start, device)
    ensures forall a | start.Waiting(c, a) :: a in About(start, c) && Ended(start, db, c, a)
    ensures forall k, a | start.Waiting(k, a) && k != c && Ended(start, before, k, a) && a in settled ::
      Ended(start, db, k, a)
    ensures forall k, a | start.Waiting(k, a) && k != c :: a !in About(start, c)
  {
    OnlyAboutTwice(start, before, db, settled, About(before, c));
    assert About(before, c) == About(start, c);
    forall k, a | start.Waiting(k, a) && k != c ensures a !in About(start, c) {
      assert a in About(start, c) ==> start.Waiting(c, a);
    }
    forall k, a | start.Waiting(k, a) && k != c && Ended(start, before, k, a) && a in settled
        ensures Ended(start, db, k, a) {
      assert a !in About(before, c);
    }
    forall a | start.Waiting(c, a) ensures a in About(start, c) && Ended(start, db, c, a) {
      assert before.Waiting(c, a) && a !in settled;
    }
  }

  /** A ban after the device of its action's command was revoked. */
  function AfterRevoke(started: bool, b: BanStatus): BanStatus {
    if started && b in {BanPending, BanActive, BanIndeterminate} then BanIndeterminate
    else if !started && b == BanPending then BanCancelled
    else b
  }

  /** How the revocation of its device closes a command: one that may have run is unknown. */
  predicate Closed(before: Command, after: Command, now: int) {
    after ==
    if before.completed.Some? then before
    else if before.kind != OtherCommand && before.started.Some?
    then before.(completed := Some(Completion(now, false, UNKNOWN_RESULT, None)))
    else before.(completed := Some(Completion(now, false, REVOKED_MESSAGE, None)))
  }

  /** The commands of the device are closed, but for the pending ones. */
  ghost predicate ClosedBut(start: Db, db: Db, device: Device, now: int, pending: set<CommandId>) {
    && db.commands.Keys == start.commands.Keys
    && forall c | c in start.commands && start.commands[c].device == device && c !in pending ::
         Closed(start.commands[c], db.commands[c], now)
  }

  lemma NoneClosed(start: Db, db: Db, device: Device, now: int, pending: set<CommandId>)
    requires db.commands == start.commands
    requires forall c | c in db.commands && db.commands[c].device == device && c !in pending ::
      db.commands[c].completed.Some?
    ensures ClosedBut(start, db, device, now, pending)
  {
  }

  lemma OneClosed(start: Db, before: Db, after: Db, device: Device, now: int, pending: set<CommandId>, c: CommandId)
    requires ClosedBut(start, before, device, now, pending + {c}) && Open(start, before, device, c)
    requires after.commands.Keys == before.commands.Keys && Closed(before.commands[c], after.commands[c], now)
    requires forall k | k in before.commands && k != c :: after.commands[k] == before.commands[k]
    ensures ClosedBut(start, after, device, now, pending)
  {
  }

  lemma AllClosed(start: Db, db: Db, device: Device, now: int)
    requires ClosedBut(start, db, device, now, {})
    ensures db.commands.Keys == start.commands.Keys
    ensures forall c | c in start.commands && start.commands[c].device == device ::
      Closed(start.commands[c], db.commands[c], now)
  {
  }

  /** The unfinished command of `start` has ended; its action, ban and audit say so. */
  ghost predicate Ended(start: Db, db: Db, c: CommandId, a: ActionId)
    requires start.Waiting(c, a)
  {
    var started := start.commands[c].started.Some?;
    && a in db.actions && db.actions[a].status == (if started then Indeterminate else Cancelled)
    && (a in start.bans ==>
          a in db.bans && db.bans[a] == start.bans[a].(status := AfterRevoke(started, start.bans[a].status)))
    && Audit(a, if started then "device_revoked_during_execution" else "device_revoked_before_execution") in db.audit
  }

  lemma SameRows(db: Db, db': Db)
    requires db.Consistent() && db'.commands == db.commands && db'.actions == db.actions
    requires forall c | db.Running(c) :: db'.Acts(db.commands[c].device)
    ensures db'.Consistent() && forall c, a :: db'.Waiting(c, a) <==> db.Waiting(c, a)
  {
    assert forall c, a :: db'.Waiting(c, a) <==> db.Waiting(c, a);
    assert forall c :: db'.Running(c) <==> db.Running(c);
  }

  /** Revoking leaves the mode of a device as it is. */
  lemma RevokingKeepsConsistent(db: Db, device: Device)
    requires db.Consistent() && device in db.devices
    ensures db.(devices := db.devices[device := db.devices[device].(revoked := true)]).Consistent()
  {
    SameRows(db, db.(devices := db.devices[device := db.devices[device].(revoked := true)]));
  }

  lemma UnreadableKeepsConsistent(db: Db, c: CommandId, completion: Completion)
    requires db.Consistent() && c in db.commands && (db.commands[c].kind == OtherCommand || db.commands[c].meta.None?)
    ensures db.Complete(c, completion).Consistent()
  {
    var db' := db.Complete(c, completion);
    forall k, x | db'.Waiting(k, x) ensures db.Waiting(k, x) { assert k != c; }
    assert forall k | db'.Running(k) :: k != c && db.Running(k);
  }

  /** The cancellation for observer mode always reaches the action, although it would miss
      one that executes: a device with an unfinished command does not change its mode, so
      nothing runs where nothing may. */
  lemma ObserverCancelReachesAction(db: Db, c: CommandId, a: ActionId, now: int)
    requires db.Consistent() && db.Waiting(c, a) && !db.Acts(db.commands[c].device)
    ensures db.commands[c].started == None
    ensures var db' := db.Cancel(c, a, BEFORE_RUN, {BanPending}, now, OBSERVER_MESSAGE, "observer_mode_cancelled");
            && db'.Consistent() && Frozen(db, db') && OnlyAbout(db, db', {a}) && (forall k :: !db'.Waiting(k, a))
            && c in db'.commands
            && db'.commands[c] == db.commands[c].(completed := Some(Completion(now, false, OBSERVER_MESSAGE, None)))
            && a in db'.actions
            && db'.actions[a] == db.actions[a].(status := Cancelled, error := OBSERVER_MESSAGE)
            && db'.audit == db.audit + [Audit(a, "observer_mode_cancelled")]
            && db'.bans == db.SetBan(a, {BanPending}, BanCancelled).bans
  {
    assert !db.Running(c);
    CancelKeepsConsistent(db, c, a, BEFORE_RUN, {BanPending}, now, OBSERVER_MESSAGE, "observer_mode_cancelled");
  }

  /** Why the mode may not change then: with a command under way, exactly the switch to
      observing would break the rows. */
  lemma ModeChangeKeepsConsistentIff(db: Db, device: Device, observer: bool)
    requires db.Consistent()
    ensures db.(devices := db.devices[device := DeviceRow(observer, false)]).Consistent() <==>
      (observer ==> forall c | db.Running(c) :: db.commands[c].device != device)
  {
    var db' := db.(devices := db.devices[device := DeviceRow(observer, false)]);
    assert forall c, a :: db'.Waiting(c, a) <==> db.Waiting(c, a);
    assert forall c :: db'.Running(c) <==> db.Running(c);
    assert forall c | db.Running(c) ::
      db'.Acts(db.commands[c].device) <==> !(observer && db.commands[c].device == device);
  }

  /** A pending ban now lasts at least as long as the command may make it. */
  predicate Extended(db: Db, ban: Ban, c: CommandId, a: ActionId, now: int, ttl: Option<int>)
    requires a in db.bans && c in db.commands && db.commands[c].meta.Some?
  {
    var was, cmd := db.bans[a], db.commands[c];
    if cmd.kind == ExecuteAction && cmd.meta.value.kind == IpBan && was.status == BanPending && ttl.Some?
    then ban == Ban(BanPending, if was.expiresAt < now + ttl.value * SECONDS then now + ttl.value * SECONDS
                                else was.expiresAt)
    else ban == was
  }

  /** A ban after its rollback was reported. */
  function AfterUndo(ok: bool, unknown: bool, b: BanStatus): BanStatus {
    if ok && b in {BanActive, BanIndeterminate} then BanRolledBack
    else if !ok && unknown && b in {BanPending, BanActive} then BanIndeterminate
    else b
  }

  function AfterExecute(o: Outcome, confirmBy: Option<int>): Status {
    if o.indeterminate then Indeterminate
    else if !o.ok then Failed
    else if o.resuming then RollingBack
    else if confirmBy.Some? then AwaitingConfirmation
    else Succeeded
  }

  /** One action's row and ban changed, and its audit grew. */
  ghost predicate Moved(db: Db, db': Db, a: ActionId, row: ActionRow, events: seq<string>) {
    && db'.devices == db.devices && db'.commands == db.commands && db'.actions == db.actions[a := row]
    && db'.bans.Keys == db.bans.Keys && (forall x | x in db.bans && x != a :: db'.bans[x] == db.bans[x])
    && db'.audit == db.audit + Logged(a, events) && OnlyAbout(db, db', {a})
  }

  lemma MovedItself(db: Db, db': Db, a: ActionId, row: ActionRow, events: seq<string>)
    requires Moved(db, db', a, row, events)
    ensures OnlyAbout(db, db', {a})
  {
  }

  lemma MovedOnlyAbout(db: Db, db0: Db, db1: Db, a: ActionId, row: ActionRow, events: seq<string>)
    requires db0.actions == db.actions && db0.bans == db.bans && db0.audit == db.audit
    requires Moved(db0, db1, a, row, events)
    ensures OnlyAbout(db, db1, {a})
  {
    OnlyAboutLogged(db, db0, db1, a);
  }

  function Logged(a: ActionId, events: seq<string>): seq<Audit> {
    seq(|events|, i requires 0 <= i < |events| => Audit(a, events[i]))
  }

  function WarningsOf(unsaved: bool, over: bool): seq<string> {
    (if unsaved then [UNSAVED_EVENT] else []) + if over then [OVER_EVENT] else []
  }

  lemma LoggedParts(a: ActionId, x: seq<string>, y: seq<string>)
    ensures Logged(a, x + y) == Logged(a, x) + Logged(a, y)
  {
  }

  lemma WarnedIsLogged(db: Db, db1: Db, a: ActionId, unsaved: bool, over: bool)
    requires OnlyAbout(db, db1, {a})
    ensures var w := db1.Warned(a, unsaved, over);
            && w.audit == db1.audit + Logged(a, WarningsOf(unsaved, over)) && OnlyAbout(db, w, {a})
            && w.actions == db1.actions && w.bans == db1.bans && w.commands == db1.commands && w.devices == db1.devices
  {
    hide UNSAVED_EVENT, OVER_EVENT;
    OnlyAboutLogs(db, db1, db1.Warned(a, unsaved, over), a);
  }

  function StatusName(status: Status): string {
    match status
    case Succeeded => "succeeded"
    case Failed => "failed"
    case Indeterminate => "indeterminate"
    case RollingBack => "rolling_back"
    case RolledBack => "rolled_back"
    case AwaitingConfirmation => "awaiting_confirmation"
    case _ => ""
  }

  const RESUME_EVENT: string := "legacy_process_" + "resume_queued"
  const UNSAVED_EVENT: string := "helper_receipt_" + "persistence_warning"
  const OVER_EVENT: string := "temporary_ban_" + "expiry_indeterminate"

  /** How a command row ends: by what is proven of the device's submission. */
  function VerdictOn(e: Engine, cmd: Command, s: Submission, now: int): Completion {
    if cmd.kind == OtherCommand || cmd.meta.None? then Completion(now, s.ok, s.error, Some(s))
    else Completion(now, Proven(e, cmd.kind, cmd.meta.value, s, now),
                    ErrorOf(e, cmd.kind, cmd.meta.value, s, now), Some(s))
  }

  /** The action's row after the result of its command. */
  function SettledRow(e: Engine, db: Db, c: CommandId, s: Submission, now: int): ActionRow
    requires c in db.commands && db.commands[c].meta.Some? && db.commands[c].meta.value.action in db.actions
  {
    var cmd, meta := db.commands[c], db.commands[c].meta.value;
    var status, error := Projected(e, cmd.kind, meta, s, now), ErrorOf(e, cmd.kind, meta, s, now);
    if cmd.kind != ExecuteAction then db.actions[meta.action].(status := status, error := error)
    else
      var deadline := if status == AwaitingConfirmation && s.audit.Some? then s.audit.value.confirmBy else None;
      ActionRow(db.actions[meta.action].device, status, Kept(e, cmd.kind, meta, s, now), deadline, error)
  }

  function StatusAfter(kind: CommandKind, o: Outcome, confirmBy: Option<int>): Status {
    match kind
    case ExecuteAction => AfterExecute(o, confirmBy)
    case RollbackAction => AfterRollback(o)
    case _ => if o.indeterminate then Indeterminate else if o.ok then Succeeded else Failed
  }

  /** The row of an action after its command's outcome. */
  function RowAfter(row: ActionRow, kind: CommandKind, o: Outcome, confirmBy: Option<int>): ActionRow {
    var status := StatusAfter(kind, o, confirmBy);
    if kind != ExecuteAction then row.(status := status, error := o.error)
    else ActionRow(row.device, status, o.kept, if status == AwaitingConfirmation then confirmBy else None, o.error)
  }

  function EventsAfter(kind: CommandKind, o: Outcome, confirmBy: Option<int>): seq<string> {
    (if kind == ExecuteAction && o.resuming then [RESUME_EVENT] else [])
    + [if kind != ConfirmAction then StatusName(StatusAfter(kind, o, confirmBy))
       else if o.ok then "confirmed" else "confirmation_failed"]
  }

  function AfterRollback(o: Outcome): Status {
    if o.indeterminate then Indeterminate else if o.ok then RolledBack else Failed
  }

  datatype Completed = Rejected | Repeated(ok: bool, error: string) | Newly(ok: bool, error: string)

  ghost predicate Finishable(db: Db, device: Device, c: CommandId) {
    && c in db.commands && db.commands[c].device == device && db.commands[c].completed == None
    && (db.commands[c].kind != OtherCommand ==> db.commands[c].meta.Some? && db.commands[c].started.Some?)
  }

  /** The classified outcome says in its own terms what the submission amounts to. */
  lemma OutcomeMatches(e: Engine, kind: CommandKind, meta: Meta, s: Submission, now: int, o: Outcome)
    requires kind != OtherCommand && Classified(e, kind, meta, s, now, o)
    ensures o.ok == Proven(e, kind, meta, s, now) && o.indeterminate == Unknown(e, kind, meta, s)
    ensures o.kept == Kept(e, kind, meta, s, now) && o.error == ErrorOf(e, kind, meta, s, now)
    ensures o.warned == RecoveredSuccess(e, kind, meta, s, now)
    ensures var confirmBy := if s.audit.Some? then s.audit.value.confirmBy else None;
            Projected(e, kind, meta, s, now) == StatusAfter(kind, o, confirmBy)
    ensures o.resuming <==> Projected(e, kind, meta, s, now) == RollingBack
  {
    hide Proven, Unknown, Kept, Refusal, Interrupted, ErrorOf, RecoveredSuccess;
    ProvenHasReceipt(e, kind, meta, s, now);
  }

  lemma ProvenHasReceipt(e: Engine, kind: CommandKind, meta: Meta, s: Submission, now: int)
    requires kind != OtherCommand
    ensures Proven(e, kind, meta, s, now) ==> s.audit.Some?
    ensures Proven(e, kind, meta, s, now) ==> !Unknown(e, kind, meta, s)
  {
    assert UNSAVED_SUCCESS[0] != INTERRUPTED[0];
  }

  lemma StartKeepsConsistent(db: Db, db': Db, c: CommandId, a: ActionId)
    requires db.Consistent() && db.Waiting(c, a) && db'.commands.Keys == db.commands.Keys
    requires db'.commands[c] == db.commands[c].(started := db'.commands[c].started)
    requires forall k | k in db.commands && k != c :: db'.commands[k] == db.commands[k]
    requires forall x | x in db.actions && x != a :: x in db'.actions && db'.actions[x] == db.actions[x]
    requires a in db'.actions && db'.actions[a].device == db.actions[a].device
      && db'.actions[a].status == Awaited(db'.commands[c])
    requires db'.devices == db.devices && db.Acts(db.commands[c].device)
    ensures db'.Consistent()
  {
    forall k, x | db'.Waiting(k, x) ensures db.Waiting(k, x) && (k != c ==> x != a) {
      assert db.Waiting(k, x);
    }
    forall k | db'.Running(k) ensures db.Acts(db'.commands[k].device) { assert k == c || db.Running(k); }
  }
}
