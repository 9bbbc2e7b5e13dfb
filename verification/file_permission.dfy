/**
 Repairing the mode and owner of one file. The path may be pointed at another inode at
 any moment, and every chown or chmod may fail, with or without having taken effect; the
 opened inode must come back, or the state must say how to get it back.
 */
module FilePermission {
  import opened Prelude

  /** Device, inode and object generation: what tells one file from its replacement. */
  type Ident = nat

  datatype Owner = Owner(uid: int, gid: int)

  datatype Meta = Meta(mode: nat, owner: Owner, directory: bool, special: bool)

  datatype State = State(
    file: Ident, mode: nat, owner: Owner, appliedMode: nat, appliedOwner: Owner, complete: bool)

  /** Every mixture that an interrupted change between two tuples can leave. */
  predicate Between(m: Meta, a: Meta, b: Meta) {
    && (m.mode == a.mode || m.mode == b.mode) && (m.owner == a.owner || m.owner == b.owner)
    && m.directory == a.directory && m.special == a.special
  }

  function Original(s: State, m: Meta): Meta { m.(mode := s.mode, owner := s.owner) }

  function Applied(s: State, m: Meta): Meta { m.(mode := s.appliedMode, owner := s.appliedOwner) }

  /** The tuples from which Rollback agrees to start. */
  predicate Recognized(s: State, m: Meta) {
    var ownerKnown := m.owner == s.owner || m.owner == s.appliedOwner;
    if s.complete then
      (m.mode == s.mode && m.owner == s.owner) || (m.mode == s.appliedMode && m.owner == s.appliedOwner)
    else (m.mode == s.mode || m.mode == s.appliedMode) && ownerKnown
  }

  /** Until the change is known to be complete, Rollback recognizes exactly the mixtures. */
  lemma PartialStateRecognizesMixtures(s: State, m: Meta)
    requires !s.complete
    ensures Recognized(s, m) <==> Between(m, Original(s, m), Applied(s, m))
  {
  }

  /** A complete state does not recognize every mixture that its own failed rollback can
      leave; it does exactly when not both mode and owner were changed. */
  lemma CompleteStateRecognizesMixturesIff(s: State, applied: Meta)
    requires s.complete && applied == Applied(s, applied)
    ensures (forall m | Between(m, applied, Original(s, applied)) :: Recognized(s, m))
            <==> s.mode == s.appliedMode || s.owner == s.appliedOwner
  {
    if s.mode != s.appliedMode && s.owner != s.appliedOwner {
      var m := applied.(owner := s.owner);
      assert Between(m, applied, Original(s, applied)) && !Recognized(s, m);
    }
  }

  class FileSystem {
    /** Nobody renames anything, and every call succeeds, but for scheduled faults. */
    const smooth: bool

    /** Which of the next changes of a mode or an owner fail; later ones succeed. */
    var faults: seq<bool>
    /** What the path was last seen to lead to, if nothing was changed since. */
    ghost var checked: Option<(Ident, Meta)>
    var path: Option<Ident>
    var meta: map<Ident, Meta>

    /** Nothing but one inode's mode and owner differs. */
    twostate predicate Only(file: Ident)
      reads this
    {
      && meta.Keys == old(meta).Keys
      && forall i | i in meta && i != file :: meta[i] == old(meta)[i]
    }

    constructor (path: Option<Ident>, meta: map<Ident, Meta>, smooth: bool)
      ensures this.path == path && this.meta == meta && this.smooth == smooth && faults == []
    {
      this.path, this.meta, this.smooth, faults, checked := path, meta, smooth, [], None;
    }

    /** One more change was tried. */
    method Spend() returns (ok: bool)
      modifies `faults
      ensures faults == if old(faults) == [] then [] else old(faults)[1..]
      ensures smooth ==> (ok <==> old(faults) == [] || !old(faults)[0])
    {
      ok := *;
      if smooth { ok := faults == [] || !faults[0]; }
      if faults != [] { faults := faults[1..]; }
    }

    /** Somebody renames something. */
    method Elsewhere()
      modifies `path
      ensures smooth ==> path == old(path)
    {
      if !smooth { path := *; }
    }

    method Open() returns (file: Option<Ident>)
      modifies `path
      ensures file.Some? ==> file == path && file.value in meta
      ensures smooth ==> path == old(path) && (file.None? ==> path.None? || path.value !in meta)
    {
      Elsewhere();
      var opens: bool := *;
      if (smooth || opens) && path.Some? && path.value in meta { return path; }
      return None;
    }

    method Stat(file: Ident) returns (m: Option<Meta>)
      requires file in meta
      ensures m.Some? ==> m.value == meta[file] && !m.value.special
      ensures smooth && m.None? ==> meta[file].special
    {
      var works: bool := *;
      if (!smooth && !works) || meta[file].special { return None; }
      return Some(meta[file]);
    }

    /** A change fails exactly when its turn has come, and then has no effect. */
    twostate predicate Tried(ok: bool)
      reads this
    {
      && faults == (if old(faults) == [] then [] else old(faults)[1..])
      && (smooth ==> (ok <==> old(faults) == [] || !old(faults)[0]) && (!ok ==> meta == old(meta)))
    }

    method Chown(file: Ident, owner: Owner) returns (ok: bool)
      requires file in meta
      modifies `meta, `faults
      ensures meta == old(meta) || meta == old(meta)[file := old(meta)[file].(owner := owner)]
      ensures ok ==> meta == old(meta)[file := old(meta)[file].(owner := owner)]
      ensures Tried(ok)
    {
      ok := Spend();
      var takesEffect: bool := *;
      if ok || (takesEffect && !smooth) { meta := meta[file := meta[file].(owner := owner)]; }
    }

    method Chmod(file: Ident, mode: nat) returns (ok: bool)
      requires file in meta
      modifies `meta, `faults
      ensures meta == old(meta) || meta == old(meta)[file := old(meta)[file].(mode := mode)]
      ensures ok ==> meta == old(meta)[file := old(meta)[file].(mode := mode)]
      ensures Tried(ok)
    {
      ok := Spend();
      var takesEffect: bool := *;
      if ok || (takesEffect && !smooth) { meta := meta[file := meta[file].(mode := mode)]; }
    }

    method VerifyExact(file: Ident, expected: Meta) returns (ok: bool)
      requires file in meta
      ensures ok ==> meta[file] == expected
      ensures smooth && meta[file] == expected && !expected.special ==> ok
    {
      var observed := Stat(file);
      return observed == Some(expected);
    }

    /** Does the path still lead to this inode, with this mode and owner? */
    method VerifyPath(file: Ident, expected: Meta) returns (ok: bool)
      requires file in meta
      modifies `path, `checked
      ensures ok ==> path == Some(file) && meta[file] == expected && checked == Some((file, expected))
      ensures smooth ==> path == old(path) && (path == Some(file) && meta[file] == expected && !expected.special ==> ok)
    {
      var reopened := Open();
      if reopened != Some(file) { return false; }
      ok := VerifyExact(file, expected);
      if ok { checked := Some((file, expected)); }
    }

    /** Owner first, then mode, then look. */
    method Mutate(file: Ident, expected: Meta, target: Meta) returns (ok: bool)
      requires file in meta && target == expected.(mode := target.mode, owner := target.owner)
      requires checked == Some((file, expected))
      modifies `meta, `faults, `checked
      ensures Only(file) && (old(faults) == [] ==> faults == [])
      ensures ok ==> old(meta)[file] == expected && meta[file] == target
      ensures smooth && old(faults) == [] && old(meta)[file] == expected && !expected.special ==> ok
      ensures (smooth && old(meta)[file] == expected && !expected.special && expected.owner != target.owner
         && |old(faults)| > 0 && old(faults)[0]) ==>
        !ok && meta == old(meta) && faults == old(faults)[1..]
      ensures (smooth && old(meta)[file] == expected && !expected.special && expected.owner != target.owner
         && expected.mode != target.mode && |old(faults)| > 1 && !old(faults)[0] && old(faults)[1]) ==>
        !ok && meta[file] == expected.(owner := target.owner) && faults == old(faults)[2..]
      ensures old(meta)[file] != expected ==> meta == old(meta)
      ensures checked == None && OwnerFirst(file, target)
      ensures Between(meta[file], old(meta)[file],
        target.(directory := old(meta)[file].directory, special := old(meta)[file].special))
    {
      checked := None;
      ok := VerifyExact(file, expected);
      if !ok { return; }
      if expected.owner != target.owner {
        ok := Chown(file, target.owner);
        if !ok { return; }
      }
      if expected.mode != target.mode {
        ok := Chmod(file, target.mode);
        if !ok { return; }
      }
      ok := VerifyExact(file, target);
    }

    /** The mode is only changed once the owner is the wanted one. */
    twostate predicate OwnerFirst(file: Ident, target: Meta)
      reads this
    {
      && file in old(meta) && file in meta
      && (meta[file].mode != old(meta)[file].mode ==> meta[file].owner == target.owner)
    }

    method SetAndVerify(file: Ident, target: Meta) returns (ok: bool)
      requires file in meta
      modifies `meta, `faults
      ensures Only(file) && (old(faults) == [] ==> faults == [])
      ensures smooth && old(faults) == [] && !old(meta)[file].special ==>
        (ok <==> target == old(meta)[file].(mode := target.mode, owner := target.owner))
      ensures smooth && old(faults) != [] && old(faults)[0] ==> meta == old(meta)
      ensures ok ==> meta[file] == target
      ensures OwnerFirst(file, target)
      ensures Between(meta[file], old(meta)[file],
        target.(directory := old(meta)[file].directory, special := old(meta)[file].special))
    {
      var observed := Stat(file);
      if observed.None? || observed.value.directory != target.directory { return false; }
      if observed.value.owner != target.owner {
        ok := Chown(file, target.owner);
        if !ok { return; }
      }
      if observed.value.mode != target.mode {
        ok := Chmod(file, target.mode);
        if !ok { return; }
      }
      ok := VerifyExact(file, target);
    }

    /** Go back to `target`, but only from the exact tuple the caller left. */
    method RestoreExact(file: Ident, expected: Meta, target: Meta) returns (ok: bool)
      requires file in meta && target == expected.(mode := target.mode, owner := target.owner)
      modifies `meta, `faults
      ensures Only(file) && (old(faults) == [] ==> faults == [])
      ensures ok ==> old(meta)[file] == expected && meta[file] == target
      ensures smooth && old(faults) == [] && !expected.special ==> (ok <==> old(meta)[file] == expected)
      ensures OwnerFirst(file, target)
      ensures Between(meta[file], old(meta)[file],
        target.(directory := old(meta)[file].directory, special := old(meta)[file].special))
    {
      ok := VerifyExact(file, expected);
      if ok { ok := SetAndVerify(file, target); }
    }

    /** Go back to `target` from any mixture of `first` and `second`. */
    method RestoreRecognized(file: Ident, first: Meta, second: Meta, target: Meta) returns (ok: bool)
      requires file in meta
      modifies `meta, `faults
      ensures Only(file) && (old(faults) == [] ==> faults == [])
      ensures smooth && old(faults) == [] && !old(meta)[file].special ==>
        (ok <==> Between(old(meta)[file], first.(directory := target.directory, special := target.special), second)
                 && target == old(meta)[file].(mode := target.mode, owner := target.owner))
      ensures smooth && old(faults) != [] && old(faults)[0] ==> meta == old(meta)
      ensures ok ==> meta[file] == target
      ensures ok ==>
        old(meta)[file].mode in {first.mode, second.mode} && old(meta)[file].owner in {first.owner, second.owner}
      ensures OwnerFirst(file, target)
      ensures Between(meta[file], old(meta)[file],
        target.(directory := old(meta)[file].directory, special := old(meta)[file].special))
    {
      var observed := Stat(file);
      if observed.None? || observed.value.directory != target.directory { return false; }
      var m := observed.value;
      if (m.mode != first.mode && m.mode != second.mode) || (m.owner != first.owner && m.owner != second.owner) {
        return false;
      }
      ok := SetAndVerify(file, target);
    }

    /** Change mode and owner. An error without state means that no inode differs; an
        error with state leaves a tuple that Rollback recognizes. */
    method Apply(mode: nat, uid: Option<int>, gid: Option<int>, allowed: bool) returns (ok: bool, state: Option<State>)
      modifies this
      ensures (smooth && old(faults) == [] && allowed && old(path).Some? && old(path).value in old(meta)
         && !old(meta)[old(path).value].special) ==>
        ok && path == old(path) && faults == [] && state.Some? && state.value.file == old(path).value
      ensures !allowed ==> !ok && state.None?
      ensures meta.Keys == old(meta).Keys
      ensures state.None? ==> !ok && meta == old(meta)
      ensures state.Some? ==>
        && var s := state.value;
        && s.file in old(meta) && Only(s.file) && s.complete == ok
        && s.mode == old(meta)[s.file].mode && s.owner == old(meta)[s.file].owner
        && s.appliedMode == mode
        && s.appliedOwner.uid == (if uid.Some? then uid.value else s.owner.uid)
        && s.appliedOwner.gid == (if gid.Some? then gid.value else s.owner.gid)
        && Recognized(s, meta[s.file])
        && Original(s, meta[s.file]) == old(meta)[s.file]
        && (ok ==> meta[s.file] == Applied(s, old(meta)[s.file]) && checked == Some((s.file, meta[s.file])))
      ensures (smooth && old(faults) in {[true], [false, true]} && allowed && old(path).Some?
         && old(path).value in old(meta) && !old(meta)[old(path).value].special && uid.Some?
         && old(meta)[old(path).value].mode != mode && old(meta)[old(path).value].owner.uid != uid.value) ==>
        !ok && state.None?
    {
      ok, state := false, None;
      var node := Open();
      if node.None? { return; }
      var file := node.value;
      var info := Stat(file);
      if info.None? { return; }
      var original := info.value;
      if !allowed { return; }
      var owner := Owner(if uid.Some? then uid.value else original.owner.uid,
          if gid.Some? then gid.value else original.owner.gid);
      var s := State(file, original.mode, original.owner, mode, owner, false);
      var target := original.(mode := mode, owner := owner);
      var same := VerifyPath(file, original);
      if !same { return; }
      var mutated := Mutate(file, original, target);
      if !mutated {
        var restored := RestoreRecognized(file, original, target, original);
        if restored { assert meta == old(meta); return; }
        return false, Some(s);
      }
      same := VerifyPath(file, target);
      if !same {
        var restored := RestoreExact(file, target, original);
        if restored { assert meta == old(meta); return; }
        return false, Some(s);
      }
      return true, Some(s.(complete := true));
    }

    /** Restore the recorded tuple. Success restores exactly that inode and touches no
        other; failure leaves a mixture of what was there and what was recorded. */
    method Rollback(s: State) returns (ok: bool)
      modifies this
      ensures Only(s.file) && (old(faults) == [] ==> faults == []) && (smooth ==> path == old(path))
      ensures ok ==>
        && s.file in meta && path == Some(s.file) && checked == Some((s.file, meta[s.file]))
        && meta[s.file] == Original(s, old(meta)[s.file]) && Recognized(s, old(meta)[s.file])
      ensures s.file in meta ==> Between(meta[s.file], old(meta)[s.file], Original(s, old(meta)[s.file]))
      ensures s.file in meta && !Recognized(s, old(meta)[s.file]) ==> meta[s.file] == old(meta)[s.file]
      ensures s.file in meta && Recognized(s, old(meta)[s.file]) && !s.complete ==> Recognized(s, meta[s.file])
      ensures (smooth && old(faults) == [] && old(path) == Some(s.file) && s.file in meta
         && Recognized(s, old(meta)[s.file]) && !old(meta)[s.file].special) ==> ok
      ensures (s.file in meta && Recognized(s, old(meta)[s.file])
         && (s.mode == s.appliedMode || s.owner == s.appliedOwner)) ==>
        Recognized(s, meta[s.file])
      ensures (smooth && old(faults) == [false, true, true] && old(path) == Some(s.file) && s.file in meta
         && !old(meta)[s.file].special && old(meta)[s.file] == Applied(s, old(meta)[s.file])
         && s.mode != s.appliedMode && s.owner != s.appliedOwner) ==>
        !ok && meta[s.file] == old(meta)[s.file].(owner := s.owner)
    {
      var node := Open();
      if node != Some(s.file) { return false; }
      var file := s.file;
      var info := Stat(file);
      if info.None? { return false; }
      var guard := info.value;
      if !Recognized(s, guard) { return false; }
      var original := guard.(mode := s.mode, owner := s.owner);
      var same := VerifyPath(file, guard);
      if !same { return false; }
      var mutated := Mutate(file, guard, original);
      if !mutated {
        var _ := RestoreRecognized(file, guard, original, guard);
        return false;
      }
      same := VerifyPath(file, original);
      if !same {
        var _ := RestoreExact(file, original, guard);
        return false;
      }
      return true;
    }

    /** Change, then undo as often as it takes: whenever the undo reports success, every
        inode is as it was before. */
    method ApplyThenRollBack(mode: nat, uid: Option<int>, gid: Option<int>, allowed: bool, attempts: nat)
      returns (restored: bool)
      modifies this
      ensures restored ==> meta == old(meta)
      ensures (smooth && old(faults) == [] && attempts > 0 && allowed && old(path).Some?
         && old(path).value in old(meta) && !old(meta)[old(path).value].special) ==>
        restored
    {
      var ok, state := Apply(mode, uid, gid, allowed);
      if state.None? { return true; }
      var s := state.value;
      for i := 0 to attempts
        invariant Only(s.file) && s.file in meta && Original(s, meta[s.file]) == old(meta)[s.file]
        invariant (smooth && old(faults) == [] && allowed && old(path).Some? && old(path).value in old(meta)
           && !old(meta)[old(path).value].special) ==>
          i == 0 && faults == [] && path == Some(s.file) && Recognized(s, meta[s.file])
      {
        restored := Rollback(s);
        if restored { assert meta == old(meta); return; }
      }
      return false;
    }
  }

  /** A complete change and a rollback that cannot finish: its chmod fails, and so does the
      chown back. The file then has its original owner and the applied mode, and a rollback
      in which no call fails refuses it, like any later one. */
  method FailedRollbackStrands(file: Ident, m: Meta, mode: nat, owner: Owner)
    returns (fs: FileSystem, s: State)
    requires !m.special && mode != m.mode && owner != m.owner
    ensures s == State(file, m.mode, m.owner, mode, owner, true)
    ensures fs.smooth && fs.faults == [] && fs.path == Some(file)
    ensures fs.meta == map[file := m.(mode := mode)] && !Recognized(s, fs.meta[file])
  {
    fs := new FileSystem(Some(file), map[file := m], true);
    var ok, state := fs.Apply(mode, Some(owner.uid), Some(owner.gid), true);
    s := state.value;
    assert fs.meta[file] == m.(mode := mode, owner := owner);
    fs.faults := [false, true, true];
    var undone := fs.Rollback(s);
    assert !undone && fs.meta[file] == m.(mode := mode);
    fs.faults := [];
    var again := fs.Rollback(s);
    assert !again;
    assert fs.meta == map[file := m.(mode := mode)];
  }
}
