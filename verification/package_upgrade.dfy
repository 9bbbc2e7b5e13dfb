/**
 Upgrading packages under a guarded APT transaction, and rolling it back. APT may stop
 half way through a plan; other administrators may change packages while nobody holds
 the lock.
 */
module PackageUpgrade {
  import opened Prelude
  import opened PackagePlan

  /** What Apply hands to Rollback. `Boundary` is the marker for "APT was entered and
      nothing is known", which no Rollback accepts. */
  datatype State = Empty | Boundary | Recorded(versions: Inventory, applied: Inventory, noOp: bool)

  datatype GuardResult = Missing | Unreadable | Rejected | Permitted(plan: Plan)

  /** The plan names packages by the versions that are really installed. */
  predicate Truthful(plan: Plan, installed: Inventory) {
    forall name | name in plan :: plan[name].from == if name in installed then installed[name] else "-"
  }

  /** The inventory after APT executed some packages of its plan. */
  function Executed(installed: Inventory, plan: Plan, done: set<Package>): Inventory
    requires done <= plan.Keys
  {
    map name | name in installed.Keys + done :: if name in done then plan[name].to else installed[name]
  }

  function Froms(plan: Plan): Inventory { map name | name in plan :: plan[name].from }

  function Tos(plan: Plan): Inventory { map name | name in plan :: plan[name].to }

  function Inverse(t: Transition): Transition { Transition(t.to, t.from, ">") }

  /** The downgrades Rollback asks for: every recorded package not at its original. */
  function Downgrades(versions: Inventory, applied: Inventory, current: Inventory): Plan
    requires versions.Keys <= applied.Keys && versions.Keys <= current.Keys
  {
    map name | name in versions && current[name] != versions[name] :: Transition(applied[name], versions[name], ">")
  }

  ghost predicate PartlyApplied(installed: Inventory, base: Inventory, versions: Inventory, applied: Inventory) {
    && versions.Keys == applied.Keys && versions.Keys <= installed.Keys && installed.Keys == base.Keys
    && (forall name | name in versions ::
          base[name] == versions[name] && installed[name] in {versions[name], applied[name]})
    && (forall name | name in base && name !in versions :: installed[name] == base[name])
  }

  function Requested(installed: Inventory, packages: set<Package>): Inventory
    requires packages <= installed.Keys
  {
    map name | name in packages :: installed[name]
  }

  /** A request for installed packages on a readable inventory, and a plan for it that
      starts from the installed versions, as APT can make one. */
  predicate Possible(installed: Inventory, packages: set<Package>, offer: Plan) {
    && packages <= installed.Keys && ValidSpec(ApplySpec(installed, Requested(installed, packages)))
    && Truthful(offer, installed) && ValidTransitions(offer) && |offer| <= MAX_ENTRIES
  }

  /** A plan that upgrades packages which are installed as it says. */
  predicate Upgrades(plan: Plan, locked: Inventory) {
    forall name | name in plan ::
      && name in locked && locked[name] == plan[name].from
      && plan[name].from != plan[name].to && plan[name].direction == "<"
  }

  lemma AllowedUpgrades(installed: Inventory, authorized: Inventory, plan: Plan, locked: Inventory)
    requires Allowed(ApplySpec(installed, authorized), plan) && Truthful(plan, locked)
    ensures Upgrades(plan, locked)
  {
  }

  lemma ExecutedPart(plan: Plan, locked: Inventory, done: set<Package>)
    requires Upgrades(plan, locked) && done <= plan.Keys
    ensures PartlyApplied(Executed(locked, plan, done), locked, Froms(plan), Tos(plan))
    ensures Executed(locked, plan, done).Keys == locked.Keys
  {
    assert Executed(locked, plan, done).Keys == locked.Keys;
  }

  /** What an allowed upgrade leaves can be read, and is small enough to roll back. */
  lemma PossibleUndo(installed: Inventory, packages: set<Package>, offer: Plan)
    requires Possible(installed, packages, offer)
    ensures |Froms(offer)| <= MAX_ENTRIES
    ensures Allowed(ApplySpec(installed, Requested(installed, packages)), offer) ==>
      ValidVersions(Executed(installed, offer, offer.Keys))
  {
    hide CanonicalPackage, Version;
    assert Froms(offer).Keys == offer.Keys;
    SubsetSize(Froms(offer).Keys, offer.Keys);
    var spec := ApplySpec(installed, Requested(installed, packages));
    if Allowed(spec, offer) {
      AllowedUpgrades(installed, Requested(installed, packages), offer, installed);
      UpgradesReadBack(offer, installed, offer.Keys);
    }
  }

  lemma EmptyIsAllowed(spec: Spec, installed: Inventory)
    ensures Allowed(spec, map[]) && Truthful(map[], installed)
  {
  }

  lemma ValidRollback(t: Plan)
    requires ValidSpec(RollbackSpec(t))
    ensures 1 <= |t| <= MAX_ENTRIES && ValidTransitions(t)
  {
  }

  lemma PossibleReads(installed: Inventory, packages: set<Package>, offer: Plan)
    requires Possible(installed, packages, offer)
    ensures ValidVersions(installed)
  {
  }

  /** An inventory that reads still reads after an upgrade. */
  lemma UpgradesReadBack(plan: Plan, locked: Inventory, done: set<Package>)
    requires Upgrades(plan, locked) && ValidTransitions(plan) && done <= plan.Keys
    ensures ValidVersions(locked) ==> ValidVersions(Executed(locked, plan, done))
    ensures done == plan.Keys ==> forall name | name in plan ::
      name in Executed(locked, plan, done) && Executed(locked, plan, done)[name] == plan[name].to
  {
    hide CanonicalPackage, Version;
    ExecutedPart(plan, locked, done);
  }

  /** Whatever part of an allowed plan APT executed, the downgrades are exactly the
      inverses of that part, and executing them restores the whole inventory. */
  lemma DowngradesUndo(plan: Plan, locked: Inventory, done: set<Package>)
    requires Upgrades(plan, locked) && done <= plan.Keys
    ensures var now := Executed(locked, plan, done);
            && plan.Keys <= now.Keys
            && var back := Downgrades(Froms(plan), Tos(plan), now);
               && back.Keys == done && (forall name | name in done :: back[name] == Inverse(plan[name]))
               && Truthful(back, now) && Executed(now, back, done) == locked
  {
    ExecutedPart(plan, locked, done);
    var now := Executed(locked, plan, done);
    var back := Downgrades(Froms(plan), Tos(plan), now);
    forall name ensures name in back <==> name in done {}
    assert Executed(now, back, done).Keys == locked.Keys;
  }

  /** The rollback guard lets APT execute recorded downgrades and nothing else, so every
      inventory it can produce still is one that Rollback recognises. */
  lemma DowngradesStayInside(base: Inventory, versions: Inventory, applied: Inventory, now: Inventory, plan: Plan,
      done: set<Package>)
    requires PartlyApplied(now, base, versions, applied)
    requires Allowed(RollbackSpec(Downgrades(versions, applied, now)), plan) && done <= plan.Keys
    ensures PartlyApplied(Executed(now, plan, done), base, versions, applied)
    ensures (forall name | name in versions :: Executed(now, plan, done)[name] == versions[name]) ==>
      Executed(now, plan, done) == base
  {
    var after := Executed(now, plan, done);
    assert forall name | name in done :: name in versions && plan[name].to == versions[name];
    assert after.Keys == now.Keys;
  }

  lemma DashIsNoVersion()
    ensures !Version("-")
  {
  }

  /** Within the guard's bound, the downgrades are a transaction that the guard allows. */
  lemma DowngradesAllowed(base: Inventory, state: State, now: Inventory)
    requires Decodable(state) && |state.versions| <= MAX_ENTRIES
      && PartlyApplied(now, base, state.versions, state.applied)
    ensures var back := Downgrades(state.versions, state.applied, now);
            (|back| >= 1 ==> ValidSpec(RollbackSpec(back))) && Allowed(RollbackSpec(back), back) && Truthful(back, now)
  {
    DashIsNoVersion();
    hide CanonicalPackage, Version;
    var back := Downgrades(state.versions, state.applied, now);
    SubsetSize(back.Keys, state.versions.Keys);
  }

  /** Executing them all leaves an inventory that reads back, with every version restored. */
  lemma DowngradesReadBack(base: Inventory, state: State, now: Inventory)
    requires Decodable(state) && ValidVersions(now) && PartlyApplied(now, base, state.versions, state.applied)
    ensures var back := Downgrades(state.versions, state.applied, now);
            && ValidVersions(Executed(now, back, back.Keys))
            && forall name | name in state.versions :: Executed(now, back, back.Keys)[name] == state.versions[name]
  {
    hide CanonicalPackage, Version;
    var back := Downgrades(state.versions, state.applied, now);
    assert Executed(now, back, back.Keys).Keys == now.Keys;
  }

  predicate Decodable(state: State) {
    && state.Recorded? && ValidVersions(state.versions) && ValidVersions(state.applied)
    && state.versions.Keys == state.applied.Keys
  }

  lemma PlanDecodes(plan: Plan)
    requires 1 <= |plan| <= MAX_ENTRIES && ValidTransitions(plan)
    ensures Decodable(Recorded(Froms(plan), Tos(plan), false))
  {
    assert Froms(plan).Keys == plan.Keys && Tos(plan).Keys == plan.Keys;
  }

  /** What Rollback asks of a state before it does anything. */
  method Decodes(state: State) returns (ok: bool)
    ensures ok <==> Decodable(state)
  {
    hide ValidVersions;
    if !state.Recorded? { return false; }
    var versions := ValidVersionMap(state.versions);
    var applied := ValidVersionMap(state.applied);
    if !versions || !applied || |state.versions| != |state.applied| { return false; }
    if exists name | name in state.versions :: name !in state.applied { return false; }
    SameSizeSubset(state.versions.Keys, state.applied.Keys);
    return true;
  }

  class Host {
    /** APT never mutates before the hook ran, nor after the hook refused. */
    const orderly: bool
    /** Every call succeeds, and APT carries out the plan it makes of a request. */
    const smooth: bool
    /** The encoding of a state keeps within the bound on rollback states. */
    const fits: State -> bool

    var installed: Inventory

    constructor (orderly: bool, smooth: bool, fits: State -> bool, installed: Inventory)
      ensures this.orderly == orderly && this.smooth == smooth && this.fits == fits && this.installed == installed
    {
      this.orderly, this.smooth, this.fits, this.installed := orderly, smooth, fits, installed;
    }

    /** Read the whole inventory; a package in any odd state makes this fail. */
    method Observe() returns (v: Option<Inventory>)
      ensures v.Some? ==> v.value == installed && ValidVersions(installed)
      ensures smooth && ValidVersions(installed) ==> v.Some?
    {
      var readable: bool := *;
      var valid := ValidVersionMap(installed);
      if (readable || smooth) && valid { return Some(installed); }
      return None;
    }

    /** Look up the requested packages one by one. */
    method ObserveRequested(packages: set<Package>) returns (v: Option<Inventory>)
      ensures v.Some? ==> packages <= installed.Keys && v.value == Requested(installed, packages)
      ensures smooth && packages <= installed.Keys ==> v.Some?
    {
      var readable: bool := *;
      if (readable || smooth) && packages <= installed.Keys { return Some(Requested(installed, packages)); }
      return None;
    }

    /** The hook, while APT holds the lock: judge the plan and leave a durable result. */
    method Guard(spec: Spec, plan: Option<Plan>) returns (result: GuardResult, agreed: bool)
      ensures agreed ==>
        plan.Some? && Allowed(spec, plan.value) && 1 <= |plan.value| <= MAX_ENTRIES && result == Permitted(plan.value)
      ensures !agreed ==> !result.Permitted? && (smooth ==> result.Rejected?)
      ensures smooth && plan.Some? && Allowed(spec, plan.value) && 1 <= |plan.value| <= MAX_ENTRIES ==> agreed
    {
      var written: bool, partial: bool := *, *;
      if !written && !smooth { return if partial then Unreadable else Missing, false; }
      if plan.None? || !(1 <= |plan.value| <= MAX_ENTRIES) { return Rejected, false; }
      var allowed := ValidateLockedPlan(spec, plan.value);
      if !allowed { return Rejected, false; }
      return Permitted(plan.value), true;
    }

    /** One APT run; `offer` is the plan that APT makes of the request when nothing goes
        wrong. Unless `quiet`, other administrators act before APT gets the lock. */
    method RunApt(spec: Spec, offer: Plan, quiet: bool)
      returns (failed: bool, result: GuardResult, ghost locked: Inventory, ghost plan: Plan, ghost done: set<Package>)
      modifies this
      ensures quiet ==> locked == old(installed)
      ensures result.Permitted? ==> result.plan == plan && 1 <= |plan| <= MAX_ENTRIES && ValidTransitions(plan)
      ensures orderly || result.Permitted? || (result.Rejected? && failed) ==>
        Allowed(spec, plan) && Truthful(plan, locked) && done <= plan.Keys && installed == Executed(locked, plan, done)
      ensures result.Rejected? && failed ==> installed == locked
      ensures (smooth && quiet && offer != map[] && Truthful(offer, old(installed)) && ValidTransitions(offer)
         && |offer| <= MAX_ENTRIES) ==>
        if Allowed(spec, offer) then !failed && result == Permitted(offer) && done == offer.Keys
        else failed && result.Rejected?
      ensures smooth && quiet && offer == map[] ==> !failed && result.Missing? && installed == old(installed)
    {
      hide CanonicalPackage, Version, ValidVersions, ValidTransitions, Allowed, Truthful;
      if !quiet { installed := *; }
      locked, plan, done := installed, map[], {};
      EmptyIsAllowed(spec, locked);
      assert Executed(locked, map[], {}) == locked;
      var deviates: bool, hookRan: bool := *, *;
      failed := *;
      if !orderly && !smooth && deviates {
        installed := *;
        result := Missing;
        if hookRan { result, failed := Rejected, false; }
        return;
      }
      if !hookRan && !smooth { return failed, Missing, locked, plan, done; }
      if smooth && offer == map[] { return false, Missing, locked, plan, done; }
      var streamed: Option<Plan> := *;
      if smooth { streamed, failed := Some(offer), false; }
      if streamed.Some? && !Truthful(streamed.value, installed) { streamed := None; }
      var agreed;
      result, agreed := Guard(spec, streamed);
      if !agreed { return true, result, locked, plan, done; }
      plan := streamed.value;
      var some: set<Package> := *;
      if smooth { some := streamed.value.Keys; }
      done := some * plan.Keys;
      var now := Executed(installed, streamed.value, some * streamed.value.Keys);
      installed := now;
      var readable: bool := *;
      var valid := ValidTransitionMap(streamed.value);
      if (!readable && !smooth) || !valid { result := Unreadable; }
    }

    /** Upgrade. An error without state promises that nothing changed; every state but
        the boundary marker says how to get back to what APT found under its lock. */
    method Apply(packages: set<Package>, offer: Plan, quiet: bool)
      returns (ok: bool, state: State, ghost locked: Inventory)
      modifies this
      ensures quiet ==> locked == old(installed)
      ensures ok ==> Decodable(state)
      ensures state.Empty? ==> installed == locked
      ensures state.Recorded? && !state.noOp ==>
        Decodable(state) && PartlyApplied(installed, locked, state.versions, state.applied)
      ensures ok && !state.noOp ==>
        forall name | name in state.versions :: name in installed && installed[name] == state.applied[name]
      ensures state.Recorded? && state.noOp ==> ok && (quiet ==> installed == locked)
      ensures smooth && quiet && Possible(old(installed), packages, offer) ==>
        var spec := ApplySpec(old(installed), Requested(old(installed), packages));
        var recorded := Recorded(Froms(offer), Tos(offer), false);
        if offer == map[] then ok && state.noOp && installed == old(installed)
        else
          && (ok <==> Allowed(spec, offer) && fits(recorded))
          && (ok ==> state == recorded && installed == Executed(old(installed), offer, offer.Keys))
          && (Allowed(spec, offer) && !ok ==> state.Boundary?)
          && (!Allowed(spec, offer) ==> state.Empty? && installed == old(installed))
    {
      hide ValidVersions, ValidTransitions, ValidSpec, Allowed, Upgrades, PartlyApplied;
      if Possible(installed, packages, offer) { PossibleReads(installed, packages, offer); }
      locked := installed;
      var requested := ObserveRequested(packages);
      if requested.None? { return false, Empty, locked; }
      if !quiet { installed := *; }
      locked := installed;
      var baseline := Observe();
      if baseline.None? { return false, Empty, locked; }
      if exists name | name in requested.value ::
          !(name in baseline.value && baseline.value[name] == requested.value[name]) {
        return false, Empty, locked;
      }
      var spec := ApplySpec(baseline.value, requested.value);
      var prepared: bool := *;
      var valid := ValidateSpec(spec);
      if (!prepared && !smooth) || !valid { return false, Empty, locked; }
      var failed, result;
      ghost var plan, done;
      failed, result, locked, plan, done := RunApt(spec, offer, quiet);
      if result.Missing? && !failed {
        ok, state := ProveNoOp(baseline.value, requested.value);
        return;
      }
      if result.Missing? || result.Unreadable? { return false, Boundary, locked; }
      if result.Rejected? {
        if !failed { return false, Boundary, locked; }
        return false, Empty, locked;
      }
      AllowedUpgrades(baseline.value, requested.value, plan, locked);
      ExecutedPart(plan, locked, done);
      PlanDecodes(plan);
      if quiet { UpgradesReadBack(plan, locked, done); }
      ok, state := CheckPlan(failed, result.plan);
    }

    method CheckPlan(failed: bool, plan: Plan) returns (ok: bool, state: State)
      requires Decodable(Recorded(Froms(plan), Tos(plan), false))
      ensures state == Boundary || state == Recorded(Froms(plan), Tos(plan), false)
      ensures ok ==> state.Recorded? && !failed
      ensures (smooth && !failed && ValidVersions(installed)
         && forall name | name in plan :: name in installed && installed[name] == plan[name].to) ==>
        (ok <==> fits(Recorded(Froms(plan), Tos(plan), false)))
      ensures state.Boundary? <==> !fits(Recorded(Froms(plan), Tos(plan), false))
      ensures ok ==> forall name | name in plan ::
        name in installed && installed[name] == plan[name].to
    {
      hide ValidVersions;
      state := Recorded(Froms(plan), Tos(plan), false);
      if !fits(state) { return false, Boundary; }
      var current := Observe();
      if current.None? { return false, state; }
      var left := plan.Keys;
      while left != {}
        invariant left <= plan.Keys
        invariant forall name | name in plan && name !in left ::
          name in installed && (!failed ==> installed[name] == plan[name].to)
        decreases left
      {
        var name :| name in left;
        left := left - {name};
        if name !in current.value || current.value[name] !in {plan[name].from, plan[name].to} { return false, state; }
        if !failed && current.value[name] != plan[name].to { return false, state; }
      }
      return !failed, state;
    }

    /** APT succeeded and its hook left nothing: only an identical inventory is a no-op. */
    method ProveNoOp(baseline: Inventory, requested: Inventory) returns (ok: bool, state: State)
      requires ValidSpec(ApplySpec(baseline, requested))
      ensures ok ==> installed == baseline && state == Recorded(requested, requested, true) && Decodable(state)
      ensures !ok ==> state == Boundary
      ensures smooth && installed == baseline && ValidVersions(installed) ==> ok
    {
      hide CanonicalPackage, Version;
      var current := Observe();
      if current.None? || |current.value| != |baseline| { return false, Boundary; }
      var left := baseline.Keys;
      while left != {}
        invariant left <= baseline.Keys
        invariant forall name | name in baseline && name !in left ::
          name in installed && installed[name] == baseline[name]
        decreases left
      {
        var name :| name in left;
        left := left - {name};
        if name !in current.value || current.value[name] != baseline[name] { return false, Boundary; }
      }
      SameSizeSubset(baseline.Keys, installed.Keys);
      return true, Recorded(requested, requested, true);
    }

    /** Downgrade what the transaction upgraded. Success means that every recorded
        package is back; when nobody else interferes, that the whole inventory is. */
    method Rollback(state: State, quiet: bool, ghost base: Inventory) returns (ok: bool)
      modifies this
      ensures ok ==> Decodable(state)
      ensures !Decodable(state) || state.noOp ==> installed == old(installed)
      ensures Decodable(state) && state.noOp ==> ok
      ensures Decodable(state) && !state.noOp && state.versions.Keys <= old(installed).Keys ==>
        var back := Downgrades(state.versions, state.applied, old(installed));
        back != map[] && !ValidSpec(RollbackSpec(back)) ==> !ok && installed == old(installed)
      ensures ok && !state.noOp ==>
        forall name | name in state.versions :: name in installed && installed[name] == state.versions[name]
      ensures (Decodable(state) && !state.noOp && quiet
         && PartlyApplied(old(installed), base, state.versions, state.applied)) ==>
        && (ok ==> installed == base)
        && (orderly ==> PartlyApplied(installed, base, state.versions, state.applied))
      ensures smooth && quiet && Decodable(state) && |state.versions| <= MAX_ENTRIES && ValidVersions(old(installed))
              && PartlyApplied(old(installed), base, state.versions, state.applied) ==>
        ok
    {
      hide ValidVersions, ValidTransitions, Allowed, Truthful, ValidSpec;
      var decodes := Decodes(state);
      if !decodes { return false; }
      if state.noOp { return true; }
      var versions, applied := state.versions, state.applied;
      var current := Observe();
      if current.None? { return false; }
      ghost var before := installed;
      if exists name | name in versions ::
          !(name in current.value && current.value[name] in {versions[name], applied[name]}) {
        return false;
      }
      var transitions := Downgrades(versions, applied, current.value);
      if |transitions| == 0 {
        assert transitions == map[];
        assert forall name | name in versions :: name !in transitions;
        return true;
      }
      if PartlyApplied(before, base, versions, applied) && |versions| <= MAX_ENTRIES {
        DowngradesAllowed(base, state, before);
        DowngradesReadBack(base, state, before);
      }
      var prepared: bool := *;
      var valid := ValidateSpec(RollbackSpec(transitions));
      if (!prepared && !smooth) || !valid { return false; }
      ValidRollback(transitions);
      ghost var locked, plan, done;
      var failed, result;
      failed, result, locked, plan, done := RunApt(RollbackSpec(transitions), transitions, quiet);
      if quiet && PartlyApplied(before, base, versions, applied) && (orderly || result.Permitted?) {
        DowngradesStayInside(base, versions, applied, before, plan, done);
      }
      if !result.Permitted? { return false; }
      var restored := AllAt(versions);
      return restored && !failed;
    }

    /** Every package is at the given version. */
    method AllAt(versions: Inventory) returns (ok: bool)
      ensures ok ==> forall name | name in versions :: name in installed && installed[name] == versions[name]
      ensures smooth && ValidVersions(installed) && versions.Keys <= installed.Keys ==>
        (ok <==> forall name | name in versions :: installed[name] == versions[name])
    {
      hide ValidVersions;
      var current := Observe();
      if current.None? { return false; }
      return forall name | name in versions :: name in current.value && current.value[name] == versions[name];
    }

    /** Upgrade, then roll back as often as it takes: with an orderly APT and nobody
        else at work, success restores the inventory as it was before the upgrade. */
    method ApplyThenRollBack(packages: set<Package>, offer: Plan, attempts: nat) returns (restored: bool)
      requires orderly
      modifies this
      ensures restored ==> installed == old(installed)
      ensures smooth && attempts > 0 && Possible(old(installed), packages, offer) ==>
        (restored <==>
          || offer == map[] || fits(Recorded(Froms(offer), Tos(offer), false))
          || !Allowed(ApplySpec(old(installed), Requested(old(installed), packages)), offer))
    {
      hide ValidVersions, PartlyApplied, Possible, ValidTransitions, Allowed, Executed;
      ghost var base := installed;
      ghost var sure := smooth && Possible(base, packages, offer);
      if sure { PossibleUndo(base, packages, offer); }
      ghost var locked;
      var ok, state;
      ok, state, locked := Apply(packages, offer, true);
      if state.Empty? { return true; }
      if state.Boundary? { return false; }
      for i := 0 to attempts
        invariant state.noOp ==> installed == base
        invariant !state.noOp ==> PartlyApplied(installed, base, state.versions, state.applied)
        invariant sure ==> i == 0 && (!state.noOp ==> |state.versions| <= MAX_ENTRIES && ValidVersions(installed))
      {
        restored := Rollback(state, true, base);
        if restored { return; }
      }
      return false;
    }
  }

  lemma {:induction false} SameSizeSubset(a: set<Package>, b: set<Package>)
    requires a <= b && |a| == |b|
    ensures a == b
    decreases a
  {
    if a != {} {
      var x :| x in a;
      SameSizeSubset(a - {x}, b - {x});
    }
  }
}
