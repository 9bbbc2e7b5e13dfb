/**
 The Helper's action engine. It drives an untrusted playbook through its phases and
 writes a receipt. A playbook may do anything at each phase; the receipt must say what
 that left on the host.
 */
module Engine {
  import opened Prelude

  const MAX_STATE: nat := 512 * 1024

  datatype ActionType = PackageUpgrade | SshHardening | IpBan | FilePermission | ProcessSuspend

  datatype Operation = Precheck | Preview | Apply | Verify | Rollback | Execute | Confirm | Other

  // ---------------------------------------------------------------------------
  // Sealed rollback state
  // ---------------------------------------------------------------------------

  /** A keyed digest: equal exactly when key and message are. */
  datatype Mac = Hmac(key: nat, message: string) | Forged(tag: nat)

  datatype Box = Box(version: nat, action: string, kind: string, params: string, payload: string, mac: Mac)

  /** What a request or a receipt carries in its state field; `Foreign` is any other
      text, `isObject` saying whether it is a nonempty JSON object. */
  datatype Wire = Nothing | Foreign(text: string, isObject: bool) | Boxed(box: Box)

  const NUL: char := '\0'

  function TypeName(t: ActionType): string {
    match t
    case PackageUpgrade => "package_security_upgrade"
    case SshHardening => "ssh_password_hardening"
    case IpBan => "temporary_ip_ban"
    case FilePermission => "file_permission_repair"
    case ProcessSuspend => "temporary_process_suspend"
  }

  /** The bytes under the MAC: five fields, four separators. */
  function MacMessage(version: nat, action: string, kind: string, params: string, payload: string): string {
    Decimal(version) + [NUL] + (action + [NUL] + (kind + [NUL] + (params + [NUL] + payload)))
  }

  lemma FirstSeparator(a: string, x: string)
    requires NUL !in a
    ensures (a + [NUL] + x)[|a|] == NUL
    ensures forall i :: 0 <= i < |a| ==> (a + [NUL] + x)[i] != NUL
  {
    forall i | 0 <= i < |a| ensures (a + [NUL] + x)[i] != NUL {
      assert (a + [NUL] + x)[i] == a[i] && a[i] in a;
    }
  }

  lemma {:induction false} SplitAtSeparator(a: string, x: string, b: string, y: string)
    requires NUL !in a && NUL !in b && a + [NUL] + x == b + [NUL] + y
    ensures a == b && x == y
  {
    var s, t := a + [NUL] + x, b + [NUL] + y;
    FirstSeparator(a, x);
    FirstSeparator(b, y);
    assert |a| == |b|;
    assert s[..|a|] == a && t[..|b|] == b;
    assert s[|a| + 1..] == x && t[|b| + 1..] == y;
  }

  lemma {:induction false} DecimalHasNoSeparator(n: nat)
    ensures NUL !in Decimal(n)
  {
    if n >= 10 { DecimalHasNoSeparator(n / 10); }
  }

  lemma TypeNameHasNoSeparator(t: ActionType)
    ensures NUL !in TypeName(t)
  {
  }

  /** The MAC message determines every field but the version's digits. */
  lemma MacMessageInjective(v: nat, a: string, k: string, p: string, s: string, v': nat, a': string, k': string,
      p': string, s': string)
    requires NUL !in a && NUL !in k && NUL !in p && NUL !in a' && NUL !in k' && NUL !in p'
    requires MacMessage(v, a, k, p, s) == MacMessage(v', a', k', p', s')
    ensures a == a' && k == k' && p == p' && s == s'
  {
    DecimalHasNoSeparator(v);
    DecimalHasNoSeparator(v');
    SplitAtSeparator(Decimal(v), a + [NUL] + (k + [NUL] + (p + [NUL] + s)), Decimal(v'),
        a' + [NUL] + (k' + [NUL] + (p' + [NUL] + s')));
    SplitAtSeparator(a, k + [NUL] + (p + [NUL] + s), a', k' + [NUL] + (p' + [NUL] + s'));
    SplitAtSeparator(k, p + [NUL] + s, k', p' + [NUL] + s');
    SplitAtSeparator(p, s, p', s');
  }

  // ---------------------------------------------------------------------------
  // Requests, playbooks, receipts
  // ---------------------------------------------------------------------------

  datatype Request = Request(action: string, actor: string, kind: ActionType, operation: Operation, params: string,
      state: Wire)

  /** A phase's result; `pending` is its confirmationPending detail, when it is a boolean. */
  datatype Detail = Detail(pending: Option<bool>)

  /** How one phase of the playbook ends. */
  datatype Phase = Fine(detail: Detail) | Broken(error: string)

  datatype ApplyPhase = ApplyPhase(error: Option<string>, detail: Detail, state: string, confirmBy: Option<int>)

  const OK: Phase := Fine(Detail(None))

  /** Everything the playbook may choose in one run. */
  datatype Playbook = Playbook(
    registered: bool, validate: Option<string>, precheck: Phase, preview: Phase,
    apply: ApplyPhase, verify: Phase, rollback: Phase, confirm: Option<Phase>)

  datatype Step = Step(operation: Operation, success: bool, result: Option<Detail>)

  /** The digest of a sealed state determines it. */
  datatype Digest = NoDigest | DigestOf(wire: Wire)

  datatype Receipt = Receipt(
    action: string, kind: ActionType, operation: Operation, params: string,
    success: bool, indeterminate: bool, steps: seq<Step>,
    state: Wire, digest: Digest, confirmBy: Option<int>, error: string)

  /** What a run did to the host, phase by phase. */
  datatype Path =
    | Refused                      // no phase that could mutate was reached
    | PrecheckFailed | PreviewFailed
    | ApplyRefused                 // Apply failed before its mutation boundary
    | ApplyUnusable                // Apply crossed it and left nothing to roll back with
    | ApplyUndone | ApplyStuck     // Apply failed; its rollback worked, or did not
    | VerifyUndone | VerifyStuck
    | Executed
    | RollbackDone | RollbackFailed
    | ConfirmDone | ConfirmFailed
    | Inspected(ok: bool)          // precheck, preview or verify alone

  /** The change may still be on the host although the run did not complete it. */
  predicate Outstanding(path: Path) {
    path in {ApplyUnusable, ApplyStuck, VerifyStuck, RollbackFailed, ConfirmFailed}
  }

  predicate Complete(path: Path) { path in {Executed, RollbackDone, ConfirmDone} || path == Inspected(true) }

  datatype Engine = Engine(key: nat, validJson: string -> bool, digest: string -> string, validAction: string -> bool) {

    predicate ValidState(s: string) { s != "" && validJson(s) && s != "null" }

    predicate Usable(s: string) { ValidState(s) && |s| <= MAX_STATE }

    function Seal(action: string, kind: ActionType, params: string, payload: string): Box {
      Box(1, action, TypeName(kind), digest(params), payload,
          Hmac(key, MacMessage(1, action, TypeName(kind), digest(params), payload)))
    }

    function Open(request: Request): Option<string> {
      if !request.state.Boxed? then None
      else
        var b := request.state.box;
        if b.version != 1 || !validJson(b.payload) || |b.payload| > MAX_STATE then None
        else if b.action != request.action || b.kind != TypeName(request.kind)
            || b.params != digest(request.params) then None
        else if b.mac != Hmac(key, MacMessage(b.version, b.action, b.kind, b.params, b.payload)) then None
        else Some(b.payload)
    }

    /** A sealed state opens again for its own action, and yields its payload. */
    lemma SealedOpens(action: string, actor: string, kind: ActionType, operation: Operation, params: string,
        payload: string)
      requires Usable(payload)
      ensures Open(Request(action, actor, kind, operation, params, Boxed(Seal(action, kind, params, payload)))) ==
        Some(payload)
    {
    }

    /** A state that opens under a MAC this engine made is the very state it sealed: it
        cannot be moved to another action, type or parameter set, nor altered. */
    lemma OpensOnlyForItsAction(request: Request, action: string, kind: ActionType, params: string, payload: string)
      requires Open(request).Some? && request.state.box.mac == Seal(action, kind, params, payload).mac
      requires NUL !in request.action && NUL !in action && NUL !in digest(params) && NUL !in digest(request.params)
      ensures request.action == action && TypeName(request.kind) == TypeName(kind)
      ensures digest(request.params) == digest(params) && Open(request).value == payload
    {
      TypeNameHasNoSeparator(kind);
      TypeNameHasNoSeparator(request.kind);
      var b := request.state.box;
      MacMessageInjective(b.version, b.action, b.kind, b.params, b.payload, 1, action, TypeName(kind), digest(params),
          payload);
    }

    /** Only what this engine sealed opens: for this action, type and parameters, within
        the bound, and unaltered. */
    lemma OpensExactlyWhatWasSealed(request: Request, payload: string)
      ensures Open(request) == Some(payload) <==>
        && request.state == Boxed(Seal(request.action, request.kind, request.params, payload))
        && validJson(payload) && |payload| <= MAX_STATE
    {
    }

    // -------------------------------------------------------------------------
    // What a run does
    // -------------------------------------------------------------------------

    predicate StateOperation(operation: Operation) { operation in {Verify, Rollback, Confirm} }

    predicate Screened(request: Request, p: Playbook) {
      && validAction(request.action) && request.actor != "" && |request.actor| <= 128
      && request.params != "" && validJson(request.params)
      && p.registered && p.validate == None
      && (if StateOperation(request.operation) then Open(request).Some? && ValidState(Open(request).value)
          else request.state == Nothing)
    }

    predicate Admitted(request: Request, p: Playbook) {
      Screened(request, p) && (request.operation == Confirm ==> p.confirm.Some?) && request.operation != Other
    }

    function ExecutePath(p: Playbook): Path {
      if p.precheck.Broken? then PrecheckFailed
      else if p.preview.Broken? then PreviewFailed
      else if p.apply.error == None && Usable(p.apply.state) then
        if p.verify.Fine? then Executed else if p.rollback.Fine? then VerifyUndone else VerifyStuck
      else if p.apply.error != None && p.apply.state == "" then ApplyRefused
      else if !Usable(p.apply.state) then ApplyUnusable
      else if p.rollback.Fine? then ApplyUndone else ApplyStuck
    }

    function PathOf(request: Request, p: Playbook): Path {
      if !Admitted(request, p) then Refused
      else
        match request.operation
        case Execute => ExecutePath(p)
        case Rollback => if p.rollback.Fine? then RollbackDone else RollbackFailed
        case Confirm => if p.confirm.value.Fine? then ConfirmDone else ConfirmFailed
        case Precheck => Inspected(p.precheck.Fine?)
        case Preview => Inspected(p.preview.Fine?)
        case Verify => Inspected(p.verify.Fine?)
        case Apply => ExecutePath(p.(precheck := OK, preview := OK, verify := OK))
        case Other => Refused
    }
  }

  function StepOf(operation: Operation, phase: Phase): Step {
    Step(operation, phase.Fine?, if phase.Fine? then Some(phase.detail) else None)
  }

  /** The phase that an operation without effect on the host runs. */
  function InspectionOf(operation: Operation, p: Playbook): Phase {
    if operation == Precheck then p.precheck else if operation == Preview then p.preview else p.verify
  }

  /** The audit trail each path leaves. */
  function Trail(path: Path, operation: Operation, p: Playbook): seq<Step> {
    var start := if operation == Execute then [StepOf(Precheck, p.precheck), StepOf(Preview, p.preview)] else [];
    var applied := start + [Step(Apply, true, Some(p.apply.detail))];
    var broken := start + [Step(Apply, false, None)];
    match path
    case Refused => []
    case PrecheckFailed => [StepOf(Precheck, p.precheck)]
    case PreviewFailed => start
    case ApplyRefused => broken
    case ApplyUnusable => broken
    case ApplyUndone => broken + [StepOf(Rollback, p.rollback)]
    case ApplyStuck => broken + [StepOf(Rollback, p.rollback)]
    case VerifyUndone => applied + [StepOf(Verify, p.verify), StepOf(Rollback, p.rollback)]
    case VerifyStuck => applied + [StepOf(Verify, p.verify), StepOf(Rollback, p.rollback)]
    case Executed => if operation == Execute then applied + [StepOf(Verify, p.verify)] else applied
    case RollbackDone => [StepOf(Rollback, p.rollback)]
    case RollbackFailed => [StepOf(Rollback, p.rollback)]
    case ConfirmDone => if p.confirm.Some? then [StepOf(Confirm, p.confirm.value)] else []
    case ConfirmFailed => if p.confirm.Some? then [StepOf(Confirm, p.confirm.value)] else []
    case Inspected(_) => [StepOf(operation, InspectionOf(operation, p))]
  }

  function Said(phase: Phase): string { if phase.Broken? then phase.error else "" }

  /** The text of a failed Apply, as its step records it. */
  function ApplyError(e: Engine, p: Playbook): string {
    if p.apply.error == None then BAD_STATE
    else if p.apply.state != "" && !e.Usable(p.apply.state) then UNUSABLE + p.apply.error.value
    else p.apply.error.value
  }

  /** What the receipt says went wrong. */
  function ErrorText(e: Engine, path: Path, operation: Operation, p: Playbook): string {
    var applyError := ApplyError(e, p);
    match path
    case PrecheckFailed => Said(p.precheck)
    case PreviewFailed => Said(p.preview)
    case ApplyRefused => applyError
    case ApplyUnusable => applyError
    case ApplyUndone => UNDONE_APPLY + applyError
    case ApplyStuck => STUCK_APPLY + applyError + "; " + Said(p.rollback)
    case VerifyUndone => UNDONE_VERIFY + Said(p.verify)
    case VerifyStuck => STUCK_VERIFY + Said(p.verify) + "; " + Said(p.rollback)
    case RollbackFailed => Said(p.rollback)
    case ConfirmFailed => if p.confirm.Some? then Said(p.confirm.value) else ""
    case Inspected(_) => Said(InspectionOf(operation, p))
    case _ => ""
  }

  /** The rollback state survives exactly where it may still be needed. */
  predicate KeepsState(path: Path) { path in {Executed, ApplyStuck, VerifyStuck} }

  /** The receipt is an honest account of the path. */
  predicate Describes(e: Engine, request: Request, p: Playbook, r: Receipt) {
    var path := e.PathOf(request, p);
    && r.action == request.action && r.kind == request.kind && r.operation == request.operation
    && r.params == e.digest(request.params)
    && r.success == Complete(path) && r.indeterminate == Outstanding(path)
    && r.steps == Trail(path, request.operation, p)
    && (if KeepsState(path) then
          && r.state == Boxed(e.Seal(request.action, request.kind, request.params, p.apply.state))
          && r.digest == DigestOf(r.state) && r.confirmBy == p.apply.confirmBy
        else r.state == Nothing && r.digest == NoDigest && r.confirmBy == None)
    && (if path == Refused then r.error != "" && r.error != INTERRUPTED
        else r.error == ErrorText(e, path, request.operation, p))
  }

  /** The receipt as it stands before any phase has run. */
  function Blank(e: Engine, request: Request): Receipt {
    Receipt(request.action, request.kind, request.operation, e.digest(request.params),
            false, false, [], Nothing, NoDigest, None, "")
  }

  // Texts are written in pieces: the verifier looks into a literal character by character,
  // and only so far.

  const INTERRUPTED: string :=
    "privileged execution was " + "interrupted after entering the "
    + "helper; remote state is unknown " + "and requires manual verification"

  lemma Distinct(prefix: string, rest: string)
    requires prefix != "" && prefix[0] != 'p'
    ensures prefix + rest != INTERRUPTED
  {
    assert (prefix + rest)[0] == prefix[0];
  }

  const UNDONE_APPLY: string := "apply failed and the change was " + "rolled back: "
  const STUCK_APPLY: string := "apply failed; automatic " + "rollback also failed: "
  const UNUSABLE: string :=
    "apply may have changed the host " + "but returned unusable rollback " + "state: "
  const BAD_STATE: string := "playbook returned invalid or " + "oversized rollback state"
  const UNDONE_VERIFY: string := "verification failed and the " + "change was rolled back: "
  const STUCK_VERIFY: string := "verification failed; automatic " + "rollback also failed: "

  /** One phase: append its step and remember its error. */
  method RunResult(operation: Operation, phase: Phase, receipt: Receipt) returns (ok: bool, r: Receipt)
    ensures ok == phase.Fine?
    ensures r == receipt.(steps := receipt.steps + [StepOf(operation, phase)],
                          error := if phase.Broken? then phase.error else receipt.error)
  {
    ok := phase.Fine?;
    r := receipt;
    if phase.Broken? { r := r.(error := phase.error); }
    r := r.(steps := r.steps + [Step(operation, ok, if phase.Fine? then Some(phase.detail) else None)]);
  }

  /** The Apply phase. `state` is the material an automatic rollback may use. */
  method RunApply(e: Engine, request: Request, p: Playbook, receipt: Receipt)
    returns (ok: bool, state: string, r: Receipt)
    requires !receipt.indeterminate && receipt.state == Nothing && receipt.digest == NoDigest
      && receipt.confirmBy == None
    ensures ok == (p.apply.error == None && e.Usable(p.apply.state))
    ensures state == if e.Usable(p.apply.state) then p.apply.state else ""
    ensures r.(steps := [], state := Nothing, digest := NoDigest, confirmBy := None, error := "",
      indeterminate := false)
         == receipt.(steps := [], error := "")
    ensures r.steps == receipt.steps + [Step(Apply, ok, if ok then Some(p.apply.detail) else None)]
    ensures r.indeterminate == (!e.Usable(p.apply.state) && (p.apply.error == None || p.apply.state != ""))
    ensures if e.Usable(p.apply.state) then
              r.state == Boxed(e.Seal(request.action, request.kind, request.params, p.apply.state))
              && r.digest == DigestOf(r.state) && r.confirmBy == p.apply.confirmBy
            else r.state == Nothing && r.digest == NoDigest && r.confirmBy == None
    ensures r.error == if ok then receipt.error else ApplyError(e, p)
  {
    r := receipt;
    state := "";
    var error := p.apply.error;
    var stateValid := e.ValidState(p.apply.state) && |p.apply.state| <= MAX_STATE;
    if error == None && !stateValid {
      r := r.(indeterminate := true);
      error := Some(BAD_STATE);
    } else if error != None && |p.apply.state| > 0 && !stateValid {
      r := r.(indeterminate := true);
      error := Some(UNUSABLE + error.value);
    }
    ok := error == None;
    if !ok { r := r.(error := error.value); }
    if stateValid {
      var box := Boxed(e.Seal(request.action, request.kind, request.params, p.apply.state));
      r := r.(state := box, digest := DigestOf(box), confirmBy := p.apply.confirmBy);
      state := p.apply.state;
    }
    r := r.(steps := r.steps + [Step(Apply, ok, if ok then Some(p.apply.detail) else None)]);
  }

  /** After a failed Apply: undo it when it left something to undo it with. */
  method RecoverApplyFailure(e: Engine, p: Playbook, state: string, receipt: Receipt) returns (r: Receipt)
    ensures !e.ValidState(state) ==> r == receipt
    ensures e.ValidState(state) && p.rollback.Fine? ==>
      r == receipt.(steps := receipt.steps + [StepOf(Rollback, p.rollback)], error := UNDONE_APPLY + receipt.error,
                    state := Nothing, digest := NoDigest, confirmBy := None)
    ensures e.ValidState(state) && p.rollback.Broken? ==>
      r == receipt.(steps := receipt.steps + [StepOf(Rollback, p.rollback)], indeterminate := true,
                    error := STUCK_APPLY + receipt.error + "; " + p.rollback.error)
  {
    r := receipt;
    var applyError := r.error;
    if !e.ValidState(state) { return; }
    var undone;
    undone, r := RunResult(Rollback, p.rollback, r);
    if undone {
      r := r.(error := UNDONE_APPLY + applyError, state := Nothing, digest := NoDigest, confirmBy := None);
      return;
    }
    r := r.(indeterminate := true, error := STUCK_APPLY + applyError + "; " + r.error);
  }

  method RunApplyAlone(e: Engine, request: Request, p: Playbook, receipt: Receipt) returns (r: Receipt)
    requires request.operation == Apply && e.Admitted(request, p)
    requires receipt == Blank(e, request)
    ensures Describes(e, request, p, r)
  {
    hide INTERRUPTED, STUCK_APPLY, STUCK_VERIFY, UNDONE_APPLY, UNDONE_VERIFY, BAD_STATE, UNUSABLE;
    var ok, state;
    ok, state, r := RunApply(e, request, p, receipt);
    r := r.(success := ok);
    if !ok { r := RecoverApplyFailure(e, p, state, r); }
  }

  /** The full lifecycle: look, preview, apply, verify, and undo what did not verify. */
  method RunExecute(e: Engine, request: Request, p: Playbook, receipt: Receipt) returns (r: Receipt)
    requires request.operation == Execute && e.Admitted(request, p)
    requires receipt == Blank(e, request)
    ensures Describes(e, request, p, r)
  {
    hide INTERRUPTED, STUCK_APPLY, STUCK_VERIFY, UNDONE_APPLY, UNDONE_VERIFY, BAD_STATE, UNUSABLE;
    var ok;
    ok, r := RunResult(Precheck, p.precheck, receipt);
    if !ok { return; }
    ok, r := RunResult(Preview, p.preview, r);
    if !ok { return; }
    var state;
    ok, state, r := RunApply(e, request, p, r);
    if !ok {
      r := RecoverApplyFailure(e, p, state, r);
      return;
    }
    ok, r := RunResult(Verify, p.verify, r);
    if ok {
      r := r.(success := true);
      return;
    }
    var verifyError := r.error;
    ok, r := RunResult(Rollback, p.rollback, r);
    if ok {
      r := r.(error := UNDONE_VERIFY + verifyError, state := Nothing, digest := NoDigest, confirmBy := None);
    } else {
      r := r.(indeterminate := true, error := STUCK_VERIFY + verifyError + "; " + r.error);
    }
  }

  /** The checks before any phase: who asks, for what, and with which state. */
  method Screen(e: Engine, request: Request, p: Playbook) returns (error: Option<string>, state: string)
    ensures error == None <==> e.Screened(request, p)
    ensures error == None && e.StateOperation(request.operation) ==>
      && e.Open(request) == Some(state)
      && request.state == Boxed(e.Seal(request.action, request.kind, request.params, state))
    ensures error.Some? ==> error.value != "" && error.value != INTERRUPTED
  {
    state := "";
    if !e.validAction(request.action) || request.actor == "" || |request.actor| > 128 {
      return Some("invalid action request"), state;
    }
    if request.params == "" || !e.validJson(request.params) {
      return Some("invalid action request: parameters must be valid JSON"), state;
    }
    if !p.registered { return Some("unsupported action type"), state; }
    if p.validate.Some? {
      Distinct("invalid action request: ", p.validate.value);
      return Some("invalid action request: " + p.validate.value), state;
    }
    var stateOperation := request.operation in {Verify, Rollback, Confirm};
    if !stateOperation && request.state != Nothing {
      return Some("invalid action request: rollback state is not accepted for this operation"), state;
    }
    if stateOperation {
      var payload := e.Open(request);
      if payload == None { return Some("rollback state is invalid or unsigned"), state; }
      state := payload.value;
      if !e.ValidState(state) { return Some("rollback state is required"), state; }
    }
    return None, state;
  }

  method Run(e: Engine, request: Request, p: Playbook) returns (r: Receipt)
    ensures Describes(e, request, p, r)
  {
    hide STUCK_APPLY, STUCK_VERIFY, UNDONE_APPLY, UNDONE_VERIFY, BAD_STATE, UNUSABLE, TypeName;
    r := Blank(e, request);
    var error, state := Screen(e, request, p);
    if error.Some? {
      r := r.(error := error.value);
      return;
    }
    match request.operation {
      case Precheck =>
        var ok;
        ok, r := RunResult(Precheck, p.precheck, r);
        r := r.(success := ok);
      case Preview =>
        var ok;
        ok, r := RunResult(Preview, p.preview, r);
        r := r.(success := ok);
      case Verify =>
        var ok;
        ok, r := RunResult(Verify, p.verify, r);
        r := r.(success := ok);
      case Rollback =>
        var ok;
        ok, r := RunResult(Rollback, p.rollback, r);
        r := r.(success := ok, indeterminate := !ok);
      case Confirm =>
        if p.confirm == None {
          r := r.(error := "unsupported action operation");
          return;
        }
        var ok;
        ok, r := RunResult(Confirm, p.confirm.value, r);
        r := r.(success := ok, indeterminate := !ok);
      case Apply =>
        r := RunApplyAlone(e, request, p, r);
      case Execute =>
        r := RunExecute(e, request, p, r);
      case Other =>
        r := r.(error := "unsupported action operation");
    }
  }

  // ---------------------------------------------------------------------------
  // What the Helper answers, and what a phase leaves on the host
  // ---------------------------------------------------------------------------

  datatype Response = Response(ok: bool, rollback: Wire, audit: Option<Receipt>, error: string)

  const UNSAVED_SUCCESS: string := "action succeeded but durable " + "receipt persistence failed"
  const UNSAVED_FAILURE: string :=
    "action did not reach a verified " + "state and durable receipt " + "persistence also failed: "

  /** The answer to one request whose receipt was, or was not, written durably. */
  function Reply(r: Receipt, saved: bool): (response: Response) {
    Response(r.success && saved, r.state, Some(r),
             if saved then r.error else if r.success then UNSAVED_SUCCESS else UNSAVED_FAILURE + r.error)
  }

  const INTERRUPTED_RESPONSE: Response := Response(false, Nothing, None, INTERRUPTED)

  /** The host before the run, after Apply returned, and after Rollback returned. */
  datatype Host<T> = Host(before: T, applied: T, undone: T)

  /** What every playbook promises the engine: an Apply that fails without state changed
      nothing, and a Rollback that succeeds restored what was there before. */
  predicate HonoursContract<T(==)>(p: Playbook, h: Host<T>) {
    && (p.apply.error.Some? && p.apply.state == "" ==> h.applied == h.before)
    && (p.rollback.Fine? ==> h.undone == h.before)
  }

  /** The host when an execution has taken the path. */
  function Left<T>(path: Path, h: Host<T>): T {
    match path
    case ApplyRefused => h.applied
    case ApplyUnusable => h.applied
    case Executed => h.applied
    case ApplyUndone => h.undone
    case ApplyStuck => h.undone
    case VerifyUndone => h.undone
    case VerifyStuck => h.undone
    case _ => h.before
  }

  /** A receipt that reports neither success nor an unknown outcome is the proof that the
      execution left the host as it found it. */
  lemma FailureMeansUnchanged<T>(e: Engine, request: Request, p: Playbook, r: Receipt, h: Host<T>)
    requires Describes(e, request, p, r) && request.operation == Execute
    requires HonoursContract(p, h)
    requires !r.success && !r.indeterminate
    ensures Left(e.PathOf(request, p), h) == h.before
    ensures r.state == Nothing
  {
  }
}
