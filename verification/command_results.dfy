/**
 The Controller's reading of a command result. The submission comes from a device, so
 success, failure and "unknown" are derived again from the embedded receipt's shape.
 */
module CommandResults {
  import opened Prelude
  import opened Engine

  datatype CommandKind = ExecuteAction | RollbackAction | ConfirmAction | OtherCommand

  /** What the command was approved for. */
  datatype Meta = Meta(action: string, kind: ActionType, params: string)

  datatype Submission = Submission(ok: bool, rollback: Wire, audit: Option<Receipt>, error: string)

  /** What is projected: `kept` is the rollback state worth storing, `resuming` the
      compatibility case that queues an immediate rollback, `warned` an audit warning. */
  datatype Outcome = Outcome(ok: bool, indeterminate: bool, error: string, kept: Wire, resuming: bool, warned: bool)

  const CONFIRM_WINDOW: int := 15 * 60 * 1_000_000_000

  const NO_RECEIPT: string :=
    "privileged helper receipt was " + "missing or did not match the " + "approved action"
  const NO_STATE: string :=
    "privileged helper receipt " + "lacked a matching durable " + "rollback state"
  const STRAY_STATE: string := "only an action execution may " + "return durable rollback state"
  const STRAY_DEADLINE: string :=
    "only an SSH hardening execution " + "may request a safety " + "confirmation window"
  const NO_PENDING: string :=
    "SSH helper receipt did not " + "prove whether the configuration " + "changed"
  const NO_DEADLINE: string :=
    "SSH change lacked a matching " + "durable rollback state or " + "safety confirmation deadline"
  const NEEDLESS_DEADLINE: string :=
    "SSH receipt requested " + "confirmation even though " + "verification reported no "
    + "pending change"
  const BAD_DEADLINE: string := "safety recovery deadline was " + "invalid or already elapsed"
  const UNKNOWN_RESULT: string :=
    "privileged execution result was " + "not received before the safety "
    + "timeout; remote state is " + "unknown and requires manual " + "verification"

  // ---------------------------------------------------------------------------
  // Receipt shapes
  // ---------------------------------------------------------------------------

  function Expected(command: CommandKind): Operation {
    match command
    case RollbackAction => Rollback
    case ConfirmAction => Confirm
    case _ => Execute
  }

  predicate Did(step: Step, operation: Operation) {
    step.operation == operation && step.success && step.result.Some?
  }

  predicate Tried(step: Step, operation: Operation) {
    step.operation == operation && !step.success
  }

  predicate Looked(steps: seq<Step>) {
    |steps| >= 2 && Did(steps[0], Precheck) && Did(steps[1], Preview)
  }

  predicate ValidSuccessfulSteps(steps: seq<Step>, command: CommandKind) {
    match command
    case RollbackAction => |steps| == 1 && Did(steps[0], Rollback)
    case ConfirmAction => |steps| == 1 && Did(steps[0], Confirm)
    case _ => |steps| == 4 && Looked(steps) && Did(steps[2], Apply) && Did(steps[3], Verify)
  }

  /** The failures after which the sealed state may still be needed. */
  predicate RecoverableState(r: Receipt) {
    if r.success then ValidSuccessfulSteps(r.steps, ExecuteAction)
    else if |r.steps| == 4 then
      Looked(r.steps) && Tried(r.steps[2], Apply) && Tried(r.steps[3], Rollback)
    else
      && |r.steps| == 5 && Looked(r.steps) && Did(r.steps[2], Apply)
      && Tried(r.steps[3], Verify) && Tried(r.steps[4], Rollback)
  }

  predicate UnavailableState(r: Receipt) {
    !r.success && |r.steps| == 3 && Looked(r.steps) && Tried(r.steps[2], Apply)
  }

  predicate FailedAlone(r: Receipt, operation: Operation) {
    !r.success && |r.steps| == 1 && Tried(r.steps[0], operation)
  }

  /** The first successful Verify step speaks for the confirmation. */
  function ConfirmationPending(steps: seq<Step>): Option<bool> {
    if steps == [] then None
    else if steps[0].operation == Verify && steps[0].success && steps[0].result.Some? then steps[0].result.value.pending
    else ConfirmationPending(steps[1..])
  }

  predicate ValidRollbackState(w: Wire) { w.Boxed? || (w.Foreign? && w.isObject) }

  predicate Matches(e: Engine, command: CommandKind, meta: Meta, s: Submission) {
    && s.audit.Some? && s.audit.value.action == meta.action && s.audit.value.kind == meta.kind
    && s.audit.value.operation == Expected(command) && s.audit.value.params == e.digest(meta.params)
  }

  /** A process suspension that asks for a deadline, from before local resume journals. */
  predicate LegacyResume(command: CommandKind, meta: Meta, r: Receipt) {
    r.confirmBy.Some? && meta.kind == ProcessSuspend && command == ExecuteAction
  }

  /** Why a claimed success of an action is refused: the first check that fails. */
  function Refusal(e: Engine, command: CommandKind, meta: Meta, s: Submission, now: int): Option<string> {
    if !Matches(e, command, meta, s) then Some(NO_RECEIPT)
    else
      var r := s.audit.value;
      var ssh := meta.kind == SshHardening && command == ExecuteAction;
      var pending := ConfirmationPending(r.steps);
      if !r.success || r.indeterminate || !ValidSuccessfulSteps(r.steps, command) then Some(NO_RECEIPT)
      else if command == ExecuteAction
          && (!ValidRollbackState(s.rollback) || r.digest != DigestOf(s.rollback)) then Some(NO_STATE)
      else if command != ExecuteAction && s.rollback != Nothing then Some(STRAY_STATE)
      else if r.confirmBy.Some? && !LegacyResume(command, meta, r) && !ssh then Some(STRAY_DEADLINE)
      else if ssh && pending.None? then Some(NO_PENDING)
      else if ssh && pending.value && r.confirmBy.None? then Some(NO_DEADLINE)
      else if ssh && !pending.value && r.confirmBy.Some? then Some(NEEDLESS_DEADLINE)
      else if r.confirmBy.Some? && r.confirmBy.value >= now + CONFIRM_WINDOW then Some(BAD_DEADLINE)
      else if r.confirmBy.Some? && !LegacyResume(command, meta, r) && r.confirmBy.value <= now then Some(BAD_DEADLINE)
      else None
  }

  /** The success-side checks, repeated for a success whose receipt could not be saved. */
  predicate ValidRecoveredResult(meta: Meta, r: Receipt, command: CommandKind, rollback: Wire, now: int) {
    if command != ExecuteAction then rollback == Nothing && r.confirmBy == None
    else
      && ValidRollbackState(rollback) && r.digest == DigestOf(rollback)
      && (r.confirmBy.Some? ==> meta.kind == SshHardening)
      && (meta.kind == SshHardening ==> ConfirmationPending(r.steps) == Some(r.confirmBy.Some?))
      && (r.confirmBy.Some? ==> now < r.confirmBy.value < now + CONFIRM_WINDOW)
  }

  // ---------------------------------------------------------------------------
  // What may be believed of a submission
  // ---------------------------------------------------------------------------

  /** The exact interruption text, signed by the device, says the outcome is unknown. */
  predicate Interrupted(command: CommandKind, s: Submission) {
    command != OtherCommand && !s.ok && s.error == INTERRUPTED
  }

  predicate RecoveredSuccess(e: Engine, command: CommandKind, meta: Meta, s: Submission, now: int) {
    && command != OtherCommand && !s.ok && s.error == UNSAVED_SUCCESS && Matches(e, command, meta, s)
    && var r := s.audit.value;
    && r.success && !r.indeterminate && ValidSuccessfulSteps(r.steps, command)
    && ValidRecoveredResult(meta, r, command, s.rollback, now)
  }

  predicate UnknownWithState(e: Engine, command: CommandKind, meta: Meta, s: Submission) {
    && command == ExecuteAction && !s.ok && s.error != INTERRUPTED && Matches(e, command, meta, s)
    && var r := s.audit.value;
    && !r.success && r.indeterminate && RecoverableState(r)
    && ValidRollbackState(s.rollback) && r.digest == DigestOf(s.rollback)
  }

  predicate UnknownWithoutState(e: Engine, command: CommandKind, meta: Meta, s: Submission) {
    && command != OtherCommand && !s.ok && s.error != INTERRUPTED && Matches(e, command, meta, s)
    && var r := s.audit.value;
    && !r.success && r.indeterminate && s.rollback == Nothing && r.digest == NoDigest
    && (match command
        case ExecuteAction => UnavailableState(r)
        case RollbackAction => FailedAlone(r, Rollback)
        case _ => FailedAlone(r, Confirm))
  }

  predicate Proven(e: Engine, command: CommandKind, meta: Meta, s: Submission, now: int) {
    if s.ok then command == OtherCommand || Refusal(e, command, meta, s, now) == None
    else RecoveredSuccess(e, command, meta, s, now)
  }

  predicate Unknown(e: Engine, command: CommandKind, meta: Meta, s: Submission) {
    Interrupted(command, s) || UnknownWithState(e, command, meta, s) || UnknownWithoutState(e, command, meta, s)
  }

  /** The rollback state worth storing with the outcome. */
  function Kept(e: Engine, command: CommandKind, meta: Meta, s: Submission, now: int): Wire {
    if Proven(e, command, meta, s, now) || UnknownWithState(e, command, meta, s) then s.rollback else Nothing
  }

  /** The text worth storing: why a claim is refused, or what the device said. */
  function ErrorOf(e: Engine, command: CommandKind, meta: Meta, s: Submission, now: int): string {
    if Interrupted(command, s) then UNKNOWN_RESULT
    else if s.ok && command != OtherCommand && Refusal(e, command, meta, s, now).Some?
    then Refusal(e, command, meta, s, now).value
    else s.error
  }

  /** What the outcome of a submission has to be. */
  predicate Classified(e: Engine, command: CommandKind, meta: Meta, s: Submission, now: int, o: Outcome) {
    && o.ok == Proven(e, command, meta, s, now)
    && o.indeterminate == Unknown(e, command, meta, s)
    && o.kept == Kept(e, command, meta, s, now)
    && o.error == ErrorOf(e, command, meta, s, now)
    && o.resuming == (s.ok && o.ok && command == ExecuteAction && LegacyResume(command, meta, s.audit.value))
    && o.warned == RecoveredSuccess(e, command, meta, s, now)
  }

  method Classify(e: Engine, command: CommandKind, meta: Meta, s: Submission, now: int) returns (o: Outcome)
    ensures Classified(e, command, meta, s, now, o)
  {
    var ok, error, rollback := s.ok, s.error, s.rollback;
    var isAction := command != OtherCommand;
    var matches := Matches(e, command, meta, s);
    var r := if s.audit.Some? then s.audit.value
             else Receipt("", PackageUpgrade, Other, "", false, false, [], Nothing, NoDigest, None, "");
    if ok && isAction && (!matches || !r.success || r.indeterminate || !ValidSuccessfulSteps(r.steps, command)) {
      ok, error := false, NO_RECEIPT;
    }
    if ok && command == ExecuteAction && (!ValidRollbackState(rollback) || r.digest != DigestOf(rollback)) {
      ok, error := false, NO_STATE;
    }
    if ok && isAction && command != ExecuteAction && rollback != Nothing {
      ok, error := false, STRAY_STATE;
    }
    var legacy := ok && LegacyResume(command, meta, r);
    if ok && isAction && r.confirmBy.Some? && !legacy && (meta.kind != SshHardening || command != ExecuteAction) {
      ok, error := false, STRAY_DEADLINE;
    }
    if ok && meta.kind == SshHardening && command == ExecuteAction {
      var pending := ConfirmationPending(r.steps);
      if pending.None? {
        ok, error := false, NO_PENDING;
      } else if pending.value && r.confirmBy.None? {
        ok, error := false, NO_DEADLINE;
      } else if !pending.value && r.confirmBy.Some? {
        ok, error := false, NEEDLESS_DEADLINE;
      }
    }
    if ok && isAction && r.confirmBy.Some? {
      var invalid := r.confirmBy.value >= now + CONFIRM_WINDOW;
      if !legacy { invalid := invalid || r.confirmBy.value <= now; }
      if invalid { ok, error := false, BAD_DEADLINE; }
    }
    legacy := legacy && ok;
    var indeterminate := isAction && !s.ok && error == INTERRUPTED;
    if indeterminate { ok, error := false, UNKNOWN_RESULT; }
    var failed := isAction && !s.ok && !indeterminate && matches;
    var recovered := failed && error == UNSAVED_SUCCESS && r.success && !r.indeterminate
      && ValidSuccessfulSteps(r.steps, command) && ValidRecoveredResult(meta, r, command, rollback, now);
    var unknown := failed && !r.success && r.indeterminate;
    var withState := unknown && command == ExecuteAction && ValidRollbackState(rollback)
      && r.digest == DigestOf(rollback) && RecoverableState(r);
    var withoutState := unknown && rollback == Nothing && r.digest == NoDigest
      && ((command == ExecuteAction && UnavailableState(r)) || (command == RollbackAction && FailedAlone(r, Rollback))
          || (command == ConfirmAction && FailedAlone(r, Confirm)));
    if recovered { ok := true; }
    if withState || withoutState { indeterminate, ok := true, false; }
    if !ok && !(recovered && command == ExecuteAction) && !withState { rollback := Nothing; }
    return Outcome(ok, indeterminate, error, rollback, legacy, recovered);
  }

  // ---------------------------------------------------------------------------
  // The verdict, in terms of what a submission contains
  // ---------------------------------------------------------------------------

  /** What was done, step by step, and whether it worked. */
  function Shape(steps: seq<Step>): seq<(Operation, bool)> {
    seq(|steps|, i requires 0 <= i < |steps| => (steps[i].operation, steps[i].success))
  }

  function PendingOf(step: Step): Option<bool> { if step.result.Some? then step.result.value.pending else None }

  predicate Reported(steps: seq<Step>) { forall s | s in steps :: s.success ==> s.result.Some? }

  /** The receipt is about this very action, operation and parameters. */
  predicate Concerns(e: Engine, command: CommandKind, meta: Meta, r: Receipt) {
    && r.action == meta.action && r.kind == meta.kind && r.params == e.digest(meta.params)
    && (command == ExecuteAction ==> r.operation == Execute) && (command == RollbackAction ==> r.operation == Rollback)
    && (command == ConfirmAction ==> r.operation == Confirm)
  }

  /** The state is one that can be rolled back with, and the receipt vouches for it. */
  predicate VouchedFor(r: Receipt, w: Wire) {
    w != Nothing && (w.Foreign? ==> w.isObject) && r.digest == DigestOf(w)
  }

  const PHASES: seq<(Operation, bool)> := [(Precheck, true), (Preview, true), (Apply, true), (Verify, true)]

  /** The steps of a receipt by which a command counts as done. */
  lemma SuccessfulShape(steps: seq<Step>, command: CommandKind)
    requires command != OtherCommand
    ensures ValidSuccessfulSteps(steps, command) <==>
      && Reported(steps)
      && Shape(steps) == (if command == ExecuteAction then PHASES
                          else if command == RollbackAction then [(Rollback, true)] else [(Confirm, true)])
  {
    var shape := Shape(steps);
    assert |shape| == |steps| && forall i | 0 <= i < |steps| :: shape[i] == (steps[i].operation, steps[i].success);
    if ValidSuccessfulSteps(steps, command) {
      assert command != ExecuteAction ==> steps == [steps[0]];
      assert command == ExecuteAction ==> steps == [steps[0], steps[1], steps[2], steps[3]];
    }
    if Reported(steps) { assert forall i | 0 <= i < |steps| :: steps[i] in steps; }
  }

  /** A device's submission counts as a success exactly if its own claim, or the report that
      its receipt could not be kept, comes with a receipt of that very action which shows
      every step, vouches for the state, and has its deadline in order. */
  lemma ProvenIff(e: Engine, command: CommandKind, meta: Meta, s: Submission, now: int)
    requires command != OtherCommand
    ensures Proven(e, command, meta, s, now) <==>
      && (s.ok || s.error == UNSAVED_SUCCESS) && s.audit.Some?
      && var r := s.audit.value;
         && Concerns(e, command, meta, r) && r.success && !r.indeterminate && Reported(r.steps)
         && (command == RollbackAction ==> Shape(r.steps) == [(Rollback, true)])
         && (command == ConfirmAction ==> Shape(r.steps) == [(Confirm, true)])
         && (command != ExecuteAction ==> s.rollback == Nothing && r.confirmBy == None)
         && (command == ExecuteAction ==>
               && Shape(r.steps) == PHASES && VouchedFor(r, s.rollback)
               && if meta.kind == SshHardening then
                    && PendingOf(r.steps[3]) == Some(r.confirmBy.Some?)
                    && (r.confirmBy.Some? ==> now < r.confirmBy.value < now + CONFIRM_WINDOW)
                  else
                    r.confirmBy.Some? ==>
                      s.ok && meta.kind == ProcessSuspend && r.confirmBy.value < now + CONFIRM_WINDOW)
  {
    hide INTERRUPTED, UNSAVED_SUCCESS;
    if s.audit.Some? {
      SuccessfulShape(s.audit.value.steps, command);
      if ValidSuccessfulSteps(s.audit.value.steps, ExecuteAction) { PendingOfExecution(s.audit.value.steps); }
      hide ConfirmationPending, Shape, Reported, ValidSuccessfulSteps;
    }
  }

  /** It counts as unknown exactly if it says so in the reserved words, or comes with a
      receipt of that very action which says so: after an undo that failed, with the state
      for another one, or without any, because there is none or nothing to undo with. */
  lemma UnknownIff(e: Engine, command: CommandKind, meta: Meta, s: Submission)
    requires command != OtherCommand
    ensures Unknown(e, command, meta, s) <==>
      && !s.ok
      && (s.error == INTERRUPTED
          || (s.audit.Some?
              && var r := s.audit.value;
                 && Concerns(e, command, meta, r) && !r.success && r.indeterminate && Reported(r.steps)
                 && ((command == ExecuteAction && VouchedFor(r, s.rollback)
                      && Shape(r.steps) in {STUCK_AFTER_APPLY, STUCK_AFTER_VERIFY})
                     || (s.rollback == Nothing && r.digest == NoDigest
                         && Shape(r.steps) == if command == ExecuteAction then BROKEN_APPLY
                                              else if command == RollbackAction then [(Rollback, false)]
                                              else [(Confirm, false)]))))
  {
    hide INTERRUPTED;
    if s.audit.Some? { FailedShapes(s.audit.value); }
    hide Shape, Reported, RecoverableState, UnavailableState, FailedAlone;
  }

  const STUCK_AFTER_APPLY: seq<(Operation, bool)> :=
    [(Precheck, true), (Preview, true), (Apply, false), (Rollback, false)]
  const STUCK_AFTER_VERIFY: seq<(Operation, bool)> :=
    [(Precheck, true), (Preview, true), (Apply, true), (Verify, false), (Rollback, false)]
  const BROKEN_APPLY: seq<(Operation, bool)> := [(Precheck, true), (Preview, true), (Apply, false)]

  lemma FailedShapes(r: Receipt)
    ensures !r.success ==>
      && (RecoverableState(r) <==>
            Reported(r.steps) && Shape(r.steps) in {STUCK_AFTER_APPLY, STUCK_AFTER_VERIFY})
      && (UnavailableState(r) <==> Reported(r.steps) && Shape(r.steps) == BROKEN_APPLY)
      && (FailedAlone(r, Rollback) <==> Reported(r.steps) && Shape(r.steps) == [(Rollback, false)])
      && (FailedAlone(r, Confirm) <==> Reported(r.steps) && Shape(r.steps) == [(Confirm, false)])
  {
    var steps, shape := r.steps, Shape(r.steps);
    assert |shape| == |steps| && forall i | 0 <= i < |steps| :: shape[i] == (steps[i].operation, steps[i].success);
    if Reported(steps) { assert forall i | 0 <= i < |steps| :: steps[i] in steps; }
    if RecoverableState(r) && !r.success {
      assert |steps| == 4 ==> shape == STUCK_AFTER_APPLY;
      assert |steps| == 5 ==> shape == STUCK_AFTER_VERIFY;
    }
    if UnavailableState(r) { assert shape == BROKEN_APPLY; }
    assert Reported(steps) <==> forall i | 0 <= i < |steps| :: steps[i].success ==> steps[i].result.Some?;
  }

  // ---------------------------------------------------------------------------
  // From the Helper's run to the Controller's verdict
  // ---------------------------------------------------------------------------

  function MetaOf(request: Request): Meta { Meta(request.action, request.kind, request.params) }

  /** The Agent signs and forwards the Helper's answer as it is. */
  function Forwarded(response: Response): Submission {
    Submission(response.ok, response.rollback, response.audit, response.error)
  }

  /** The safety deadline of an execution fits its type and lies in the window. A success
      whose receipt could not be saved gets no compatibility treatment. */
  predicate DeadlineInOrder(request: Request, p: Playbook, saved: bool, now: int) {
    var d := p.apply.confirmBy;
    request.operation == Execute ==>
      if request.kind == SshHardening then
        && p.verify.Fine? && p.verify.detail.pending == Some(d.Some?)
        && (d.Some? ==> now < d.value < now + CONFIRM_WINDOW)
      else d.Some? ==> saved && request.kind == ProcessSuspend && d.value < now + CONFIRM_WINDOW
  }

  /** The playbook failed before its mutation boundary, in the reserved words. */
  predicate Echoes(path: Path, p: Playbook) {
    || (path == PrecheckFailed && Said(p.precheck) == INTERRUPTED)
    || (path == PreviewFailed && Said(p.preview) == INTERRUPTED)
    || (path == ApplyRefused && p.apply.error == Some(INTERRUPTED))
  }

  /** The two reserved texts reach the Controller only where they are meant. */
  lemma ReservedTexts(r: Receipt, saved: bool)
    ensures var s := Forwarded(Reply(r, saved));
            && (s.error == INTERRUPTED && !s.ok && !r.success <==> saved && !r.success && r.error == INTERRUPTED)
            && (r.success && !saved ==> s.error == UNSAVED_SUCCESS && s.error != INTERRUPTED)
  {
    Distinct(UNSAVED_FAILURE, r.error);
  }

  /** None of the texts that the engine composes is the reserved one. */
  lemma CompositeTexts()
    ensures BAD_STATE != INTERRUPTED && INTERRUPTED != ""
    ensures forall t: string :: UNUSABLE + t != INTERRUPTED
    ensures forall t: string :: UNDONE_APPLY + t != INTERRUPTED && UNDONE_VERIFY + t != INTERRUPTED
    ensures forall t: string, u: string :: STUCK_APPLY + t + "; " + u != INTERRUPTED
    ensures forall t: string, u: string :: STUCK_VERIFY + t + "; " + u != INTERRUPTED
  {
    assert BAD_STATE[1] != INTERRUPTED[1];
    forall t: string
      ensures UNUSABLE + t != INTERRUPTED && UNDONE_APPLY + t != INTERRUPTED && UNDONE_VERIFY + t != INTERRUPTED
    {
      Distinct(UNUSABLE, t);
      Distinct(UNDONE_APPLY, t);
      Distinct(UNDONE_VERIFY, t);
    }
    forall t: string, u: string
      ensures STUCK_APPLY + t + "; " + u != INTERRUPTED && STUCK_VERIFY + t + "; " + u != INTERRUPTED {
      Distinct(STUCK_APPLY + t + "; ", u);
      Distinct(STUCK_VERIFY + t + "; ", u);
    }
  }

  /** A failed run speaks the reserved words only by repeating a playbook's own. */
  lemma OnlyEchoes(e: Engine, request: Request, p: Playbook, r: Receipt)
    requires Describes(e, request, p, r) && r.error == INTERRUPTED
    requires request.operation in {Execute, Rollback, Confirm}
    ensures Echoes(e.PathOf(request, p), p) || e.PathOf(request, p) in {RollbackFailed, ConfirmFailed}
  {
    CompositeTexts();
    hide INTERRUPTED, STUCK_APPLY, STUCK_VERIFY, UNDONE_APPLY, UNDONE_VERIFY, BAD_STATE, UNUSABLE;
  }

  lemma PendingOfExecution(steps: seq<Step>)
    requires ValidSuccessfulSteps(steps, ExecuteAction)
    ensures ConfirmationPending(steps) == steps[3].result.value.pending
  {
    assert ConfirmationPending(steps) == ConfirmationPending(steps[1..]);
    assert ConfirmationPending(steps[1..]) == ConfirmationPending(steps[2..]);
    assert ConfirmationPending(steps[2..]) == ConfirmationPending(steps[3..]);
  }

  /** Of every run, the Controller says "unknown" exactly when the Helper did, and once
      more when a playbook that changed nothing fails in the reserved words. */
  lemma UnknownMatchesRun(e: Engine, request: Request, p: Playbook, r: Receipt, saved: bool, command: CommandKind)
    requires Describes(e, request, p, r)
    requires command != OtherCommand && request.operation == Expected(command)
    ensures var path := e.PathOf(request, p);
            Unknown(e, command, MetaOf(request), Forwarded(Reply(r, saved)))
            <==> Outstanding(path) || (saved && Echoes(path, p))
  {
    hide INTERRUPTED, UNSAVED_SUCCESS, UNSAVED_FAILURE, STUCK_APPLY, STUCK_VERIFY, UNDONE_APPLY, UNDONE_VERIFY,
      BAD_STATE, UNUSABLE;
    ReservedTexts(r, saved);
    if r.error == INTERRUPTED { OnlyEchoes(e, request, p, r); }
  }

  /** It says "succeeded" exactly for a complete run whose safety deadline is in order. */
  lemma SuccessMatchesRun(e: Engine, request: Request, p: Playbook, r: Receipt, saved: bool, command: CommandKind,
      now: int)
    requires Describes(e, request, p, r)
    requires command != OtherCommand && request.operation == Expected(command)
    ensures Proven(e, command, MetaOf(request), Forwarded(Reply(r, saved)), now)
            <==> Complete(e.PathOf(request, p)) && DeadlineInOrder(request, p, saved, now)
  {
    hide INTERRUPTED, UNSAVED_SUCCESS, UNSAVED_FAILURE, STUCK_APPLY, STUCK_VERIFY, UNDONE_APPLY, UNDONE_VERIFY,
      BAD_STATE, UNUSABLE, ConfirmationPending;
    ReservedTexts(r, saved);
    if ValidSuccessfulSteps(r.steps, command) && command == ExecuteAction { PendingOfExecution(r.steps); }
  }

  /** A verdict of "failed" is the proof that the execution left the host as it was, for
      runs whose safety deadline, if any, is in order. */
  lemma FailedVerdictMeansUnchanged<T>(e: Engine, request: Request, p: Playbook, r: Receipt, saved: bool, now: int,
      h: Host<T>)
    requires Describes(e, request, p, r) && request.operation == Execute
    requires HonoursContract(p, h) && DeadlineInOrder(request, p, saved, now)
    requires var s := Forwarded(Reply(r, saved));
             !Proven(e, ExecuteAction, MetaOf(request), s, now) && !Unknown(e, ExecuteAction, MetaOf(request), s)
    ensures Left(e.PathOf(request, p), h) == h.before
  {
    hide Unknown, Proven;
    UnknownMatchesRun(e, request, p, r, saved, ExecuteAction);
    SuccessMatchesRun(e, request, p, r, saved, ExecuteAction, now);
    hide *;
    FailureMeansUnchanged(e, request, p, r, h);
  }

  /** Which rollback state the Controller stores after an execution: the sealed state,
      exactly where the run left one and did not succeed outside its safety window. */
  lemma StateKeptIff(e: Engine, request: Request, p: Playbook, r: Receipt, saved: bool, now: int)
    requires Describes(e, request, p, r) && request.operation == Execute
    ensures var path := e.PathOf(request, p);
            Kept(e, ExecuteAction, MetaOf(request), Forwarded(Reply(r, saved)), now) ==
            if KeepsState(path) && (Complete(path) ==> DeadlineInOrder(request, p, saved, now))
            then Boxed(e.Seal(request.action, request.kind, request.params, p.apply.state)) else Nothing
  {
    hide Proven, UnknownWithState, DeadlineInOrder;
    hide INTERRUPTED, UNSAVED_SUCCESS, UNSAVED_FAILURE, STUCK_APPLY, STUCK_VERIFY, UNDONE_APPLY, UNDONE_VERIFY,
      BAD_STATE, UNUSABLE;
    SuccessMatchesRun(e, request, p, r, saved, ExecuteAction, now);
    WithStateMatchesRun(e, request, p, r, saved);
  }

  /** Whatever is stored, the engine opens it for a later rollback of the same action. */
  lemma KeptStateOpens(e: Engine, request: Request, p: Playbook, r: Receipt, saved: bool, now: int, actor: string)
    requires Describes(e, request, p, r) && request.operation == Execute
    ensures var kept := Kept(e, ExecuteAction, MetaOf(request), Forwarded(Reply(r, saved)), now);
            kept != Nothing ==>
              e.Open(Request(request.action, actor, request.kind, Rollback, request.params, kept)) ==
                  Some(p.apply.state)
  {
    hide Kept, DeadlineInOrder;
    StateKeptIff(e, request, p, r, saved, now);
    if KeepsState(e.PathOf(request, p)) {
      e.SealedOpens(request.action, actor, request.kind, Rollback, request.params, p.apply.state);
    }
  }

  lemma WithStateMatchesRun(e: Engine, request: Request, p: Playbook, r: Receipt, saved: bool)
    requires Describes(e, request, p, r) && request.operation == Execute
    ensures UnknownWithState(e, ExecuteAction, MetaOf(request), Forwarded(Reply(r, saved)))
            <==> KeepsState(e.PathOf(request, p)) && !r.success
  {
    hide INTERRUPTED, UNSAVED_SUCCESS, UNSAVED_FAILURE, STUCK_APPLY, STUCK_VERIFY, UNDONE_APPLY, UNDONE_VERIFY,
      BAD_STATE, UNUSABLE;
    ReservedTexts(r, saved);
    if r.error == INTERRUPTED { OnlyEchoes(e, request, p, r); }
  }

  /** So a success that arrives outside its safety window is filed as failed and its state
      is dropped, although the change is on the host: only the Helper's own timer undoes it. */
  lemma LateSuccessLosesState<T>(e: Engine, request: Request, p: Playbook, r: Receipt, saved: bool, now: int,
      h: Host<T>)
    requires Describes(e, request, p, r) && request.operation == Execute
    requires e.PathOf(request, p) == Executed && !DeadlineInOrder(request, p, saved, now)
    ensures var s := Forwarded(Reply(r, saved));
            && !Proven(e, ExecuteAction, MetaOf(request), s, now) && !Unknown(e, ExecuteAction, MetaOf(request), s)
            && Kept(e, ExecuteAction, MetaOf(request), s, now) == Nothing
            && Left(e.PathOf(request, p), h) == h.applied
  {
    hide Proven, Unknown, Kept, DeadlineInOrder;
    SuccessMatchesRun(e, request, p, r, saved, ExecuteAction, now);
    UnknownMatchesRun(e, request, p, r, saved, ExecuteAction);
    StateKeptIff(e, request, p, r, saved, now);
  }

  /** The exception is real: a precheck that fails in the reserved words, before anything
      was touched, is filed as an unknown outcome. */
  lemma ReservedWordsMislead(e: Engine, request: Request, p: Playbook, r: Receipt)
    requires Describes(e, request, p, r) && request.operation == Execute && e.Admitted(request, p)
    requires p.precheck == Broken(INTERRUPTED)
    ensures !r.success && !r.indeterminate && |r.steps| == 1
    ensures Unknown(e, ExecuteAction, MetaOf(request), Forwarded(Reply(r, true)))
  {
  }
}
