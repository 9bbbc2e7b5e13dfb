/**
 The Helper's replay cache: one file per attempt, written as "started" before the engine
 may run and replaced by the final response afterwards. A crash or a power loss may
 strike between any two durable steps, and full caches evict their oldest final files.
 */
module ReceiptCache {
  import opened Prelude
  import opened Engine

  type Attempt = string

  const MAX_FILE: nat := 4 * 1024 * 1024

  /** What an attempt asks for. The digest stored with a record determines it. */
  datatype Ask = Ask(action: string, kind: ActionType, operation: Operation, params: string, state: Wire)

  /** `Partial` is a file created but not yet, or not completely, written. The serial of a
      record tells which run of its attempt it is about. */
  datatype File =
    | Partial(size: nat)
    | Record(ask: Ask, final: bool, response: Response, size: nat, time: int, serial: nat)

  type Dir = map<Attempt, File>

  /** One run of an attempt. */
  datatype Token = Token(attempt: Attempt, serial: nat)

  /** The response that a run produced. */
  datatype Answer = Answer(token: Token, ask: Ask, response: Response)

  /** The runs that were started, those whose final record was evicted, the answers given,
      and the next unused serial. */
  datatype Log = Log(ran: set<Token>, evicted: set<Token>, answers: set<Answer>, next: nat) {
    function Evict(gone: set<Token>): Log { this.(evicted := evicted + gone) }

    function Ran(t: Token): Log { this.(ran := ran + {t}) }

    function Answered(answer: Answer): Log { this.(answers := answers + {answer}) }

    function Numbered(): Log { this.(next := next + 1) }
  }

  /** Cache directory (the last element is live, earlier ones may return after a power
      loss), and the history of runs and evictions. */
  datatype World = World(dirs: seq<Dir>, log: Log) {
    function Live(): Dir
      requires dirs != []
    {
      dirs[|dirs| - 1]
    }
  }

  const CACHE_REFUSAL: Response := Response(false, Nothing, None, "receipt cache validation failed")
  const INTENT_REFUSAL: Response := Response(false, Nothing, None, "failed to persist action " + "execution intent")

  function AskOf(r: Request): Ask { Ask(r.action, r.kind, r.operation, r.params, r.state) }

  predicate Cacheable(operation: Operation) { operation in {Execute, Rollback, Confirm} }

  ghost predicate Genuine(e: Engine, a: Answer) {
    exists actor: string, p: Playbook, r: Receipt ::
      && Describes(e, Request(a.ask.action, actor, a.ask.kind, a.ask.operation, a.ask.params, a.ask.state), p, r)
      && a.response == Reply(r, true)
  }

  predicate Recorded(d: Dir, a: Attempt) { a in d && d[a].Record? }

  /** The directory still has the record of this run. */
  predicate Holds(d: Dir, t: Token) { Recorded(d, t.attempt) && d[t.attempt].serial == t.serial }

  /** Each run is still on record, or its own record was evicted; and each record is what
      its run left. */
  ghost predicate Accounted(log: Log, d: Dir) {
    && (forall t | t in log.ran :: t.serial < log.next && (t in log.evicted || Holds(d, t)))
    && (forall a | Recorded(d, a) ::
          && d[a].serial < log.next
          && if d[a].final then Answer(Token(a, d[a].serial), d[a].ask, d[a].response) in log.answers
             else d[a].response == INTERRUPTED_RESPONSE)
  }

  ghost predicate AnswerOf(log: Log, t: Token) { exists a | a in log.answers :: a.token == t }

  ghost predicate Good(e: Engine, w: World) {
    && w.dirs != []
    && (forall d | d in w.dirs :: Accounted(w.log, d))
    && (forall a | a in w.log.answers :: Genuine(e, a) && a.token in w.log.ran)
    && (forall t | t in w.log.evicted :: AnswerOf(w.log, t))
  }

  // ---------------------------------------------------------------------------
  // Sizes
  // ---------------------------------------------------------------------------

  ghost function Bytes(d: Dir, names: set<Attempt>): nat
    requires names <= d.Keys
    decreases names
  {
    if names == {} then 0
    else
      var n :| n in names;
      d[n].size + Bytes(d, names - {n})
  }

  lemma BytesOfNone(d: Dir)
    ensures Bytes(d, {}) == 0
  {
  }

  lemma {:induction false} BytesWithout(d: Dir, names: set<Attempt>, n: Attempt)
    requires n in names && names <= d.Keys
    ensures Bytes(d, names) == d[n].size + Bytes(d, names - {n})
    decreases names
  {
    var m :| m in names && Bytes(d, names) == d[m].size + Bytes(d, names - {m});
    if m != n {
      BytesWithout(d, names - {m}, n);
      BytesWithout(d, names - {n}, m);
      assert names - {m} - {n} == names - {n} - {m};
    }
  }

  lemma {:induction false} BytesFrame(d: Dir, d': Dir, names: set<Attempt>)
    requires names <= d.Keys && names <= d'.Keys && forall n | n in names :: d[n] == d'[n]
    ensures Bytes(d, names) == Bytes(d', names)
    decreases names
  {
    if names != {} {
      var n :| n in names;
      BytesWithout(d, names, n);
      BytesWithout(d', names, n);
      BytesFrame(d, d', names - {n});
    }
  }

  predicate Sound(d: Dir) { forall a | a in d :: !Damaged(d[a]) }

  predicate Damaged(f: File) { f.Partial? || f.size > MAX_FILE }

  predicate Removable(d: Dir, skip: set<Attempt>, a: Attempt) { a in d && a !in skip && d[a].Record? && d[a].final }

  predicate OldestOf(d: Dir, names: set<Attempt>, a: Attempt) {
    && a in names && names <= d.Keys && d[a].Record?
    && forall b | b in names && d[b].Record? :: d[a].time <= d[b].time
  }

  lemma {:induction false} OldestExists(d: Dir, names: set<Attempt>)
    requires names != {} && names <= d.Keys && forall a | a in names :: d[a].Record?
    ensures exists a :: OldestOf(d, names, a)
    decreases names
  {
    var a :| a in names;
    if names == {a} {
      assert OldestOf(d, names, a);
    } else {
      OldestExists(d, names - {a});
      var b :| OldestOf(d, names - {a}, b);
      assert names == (names - {a}) + {a};
      assert OldestOf(d, names, if d[a].time < d[b].time then a else b);
    }
  }

  datatype Limits = Limits(items: nat, bytes: nat) {
    /** The directory without `skip`, plus a file of `required` bytes if `add`. */
    ghost predicate Fits(d: Dir, skip: set<Attempt>, required: nat, add: bool) {
      && |d.Keys - skip| + (if add then 1 else 0) <= items
      && Bytes(d, d.Keys - skip) + (if add then required else 0) <= bytes
    }
  }

  datatype Capacity = Room | DamagedFile | Full | IoError

  ghost function Minus(d: Dir, removed: seq<Attempt>): Dir { map a | a in d && a !in removed :: d[a] }

  /** `removed` is the shortest oldest-first run of final records whose removal makes the
      rest fit, or a prefix of it. */
  ghost predicate Trimmed(l: Limits, d: Dir, skip: set<Attempt>, required: nat, add: bool, removed: seq<Attempt>) {
    && (forall i | 0 <= i < |removed| :: Removable(d, skip, removed[i]))
    && (forall i | 0 <= i < |removed| :: removed[i] !in removed[..i])
    && (forall i, b | 0 <= i < |removed| && Removable(d, skip, b) && b !in removed[..i] ::
          d[removed[i]].time <= d[b].time)
    && (forall i | 0 <= i < |removed| :: !l.Fits(Minus(d, removed[..i]), skip, required, add))
  }

  function TokenOf(d: Dir, a: Attempt): Token
    requires Recorded(d, a)
  {
    Token(a, d[a].serial)
  }

  function Tokens(d: Dir, removed: seq<Attempt>): set<Token> {
    set a | a in removed && Recorded(d, a) :: TokenOf(d, a)
  }

  /** A directory state in which every run's record is still there, or its loss is known as
      an eviction, may follow the live one. */
  lemma Evicted(e: Engine, w: World, a: Attempt)
    requires Good(e, w) && Removable(w.Live(), {}, a)
    ensures Good(e, World(w.dirs + [w.Live() - {a}], w.log.Evict({TokenOf(w.Live(), a)})))
  {
    hide INTERRUPTED_RESPONSE, Genuine;
    var d, t := w.Live(), TokenOf(w.Live(), a);
    var w' := World(w.dirs + [d - {a}], w.log.Evict({t}));
    assert d in w.dirs && Accounted(w.log, d);
    assert AnswerOf(w.log, t) by { assert Answer(t, d[a].ask, d[a].response) in w.log.answers; }
    forall u | u in w'.log.evicted ensures AnswerOf(w'.log, u) {
      assert AnswerOf(w.log, u);
    }
    forall d' | d' in w'.dirs ensures Accounted(w'.log, d') {
      if d' in w.dirs { assert Accounted(w.log, d'); } else { EvictedAccounts(w.log, d, a); }
    }
  }

  lemma EvictedAccounts(log: Log, d: Dir, a: Attempt)
    requires Accounted(log, d) && Recorded(d, a)
    ensures Accounted(log.Evict({TokenOf(d, a)}), d - {a})
  {
    hide INTERRUPTED_RESPONSE;
    forall t | t in log.ran ensures t == TokenOf(d, a) || t in log.evicted || Holds(d - {a}, t) {}
  }

  /** A directory sync leaves only the live state. */
  lemma Synced(e: Engine, w: World)
    requires Good(e, w)
    ensures Good(e, w.(dirs := [w.Live()]))
  {
    assert w.Live() in w.dirs;
    assert Accounted(w.log, w.Live());
  }

  lemma {:induction false} BytesAfter(d: Dir, skip: set<Attempt>, a: Attempt)
    requires a in d && a !in skip
    ensures Bytes(d, d.Keys - skip) == d[a].size + Bytes(d - {a}, (d - {a}).Keys - skip)
    ensures |d.Keys - skip| == 1 + |(d - {a}).Keys - skip|
  {
    var names := d.Keys - skip;
    BytesWithout(d, names, a);
    assert (d - {a}).Keys - skip == names - {a};
    BytesFrame(d, d - {a}, names - {a});
  }

  lemma NothingTrimmed(l: Limits, d: Dir, skip: set<Attempt>, required: nat, add: bool)
    ensures Trimmed(l, d, skip, required, add, []) && Minus(d, []) == d
  {
  }

  /** Removing the oldest one while the rest does not fit keeps the run shortest. */
  lemma {:induction false} TrimMore(l: Limits, d: Dir, skip: set<Attempt>, required: nat, add: bool,
      removed: seq<Attempt>, a: Attempt)
    requires Trimmed(l, d, skip, required, add, removed) && !l.Fits(Minus(d, removed), skip, required, add)
    requires Removable(Minus(d, removed), skip, a)
    requires forall b | Removable(Minus(d, removed), skip, b) :: d[a].time <= d[b].time
    ensures Trimmed(l, d, skip, required, add, removed + [a])
    ensures Minus(d, removed + [a]) == Minus(d, removed) - {a}
  {
    hide Bytes, Limits.Fits;
    var more := removed + [a];
    var cur := Minus(d, removed);
    assert removed[..|removed|] == removed;
    forall i | 0 <= i < |more|
      ensures Removable(d, skip, more[i]) && more[i] !in more[..i] && !l.Fits(Minus(d, more[..i]), skip, required, add)
      ensures forall b | Removable(d, skip, b) && b !in more[..i] :: d[more[i]].time <= d[b].time
    {
      assert more[..i] == removed[..i];
      if i == |removed| {
        assert forall b | Removable(d, skip, b) && b !in removed :: Removable(cur, skip, b);
      }
    }
  }

  /** What is left when every final record is evicted. */
  function Unfinished(d: Dir): Dir { map a | a in d && !(d[a].Record? && d[a].final) :: d[a] }

  lemma {:induction false} BytesGrow(d: Dir, d': Dir, names: set<Attempt>, more: set<Attempt>)
    requires names <= more && names <= d.Keys && more <= d'.Keys && forall n | n in names :: d[n] == d'[n]
    ensures Bytes(d, names) <= Bytes(d', more) && |names| <= |more|
    decreases more
  {
    if more != {} {
      var n :| n in more;
      BytesWithout(d', more, n);
      if n in names {
        BytesWithout(d, names, n);
        BytesGrow(d, d', names - {n}, more - {n});
      } else {
        BytesGrow(d, d', names, more - {n});
      }
    }
  }

  /** Beside `attempt` there are only files that were there before. */
  predicate OnlyAdds(d: Dir, d': Dir, attempt: Attempt) {
    forall a | a in d' && a != attempt :: a in d && d'[a] == d[a]
  }

  /** The room that the unfinished files leave for a record of `attempt` does not depend on
      that record, nor on final ones. */
  lemma RoomBeside(l: Limits, d: Dir, d': Dir, attempt: Attempt, required: nat)
    requires attempt !in d && KeepsUnfinished(d, d') && OnlyAdds(d, d', attempt)
    ensures l.Fits(Unfinished(d), {attempt}, required, true) <==> l.Fits(Unfinished(d'), {attempt}, required, true)
  {
    hide Bytes;
    var u, u' := Unfinished(d), Unfinished(d');
    forall a | a != attempt ensures (a in u <==> a in u') && (a in u ==> u[a] == u'[a]) {}
    var names := u.Keys - {attempt};
    assert names == u'.Keys - {attempt};
    BytesFrame(u, u', names);
  }

  lemma SoundBeside(d: Dir, d': Dir, attempt: Attempt)
    requires Sound(d) && OnlyAdds(d, d', attempt)
    ensures Sound(d' - {attempt})
  {
  }

  lemma DamageBeside(d: Dir, attempt: Attempt)
    ensures (exists a :: a in d && a !in {attempt} && Damaged(d[a])) ==> !Sound(d) && !Sound(d - {attempt})
  {
    if a :| a in d && a !in {attempt} && Damaged(d[a]) {
      assert (d - {attempt})[a] == d[a];
    }
  }

  /** Whether room can be made is decided by the unfinished files alone. */
  lemma RoomIff(l: Limits, d: Dir, after: Dir, skip: set<Attempt>, required: nat, add: bool)
    requires after.Keys <= d.Keys && (forall a | a in after :: after[a] == d[a]) && KeepsUnfinished(d, after)
    ensures l.Fits(after, skip, required, add) ==> l.Fits(Unfinished(d), skip, required, add)
    ensures !l.Fits(after, skip, required, add) && (forall a :: !Removable(after, skip, a)) ==>
      !l.Fits(Unfinished(d), skip, required, add)
  {
    var u := Unfinished(d);
    BytesGrow(u, after, u.Keys - skip, after.Keys - skip);
    if forall a :: !Removable(after, skip, a) {
      forall a | a in after.Keys - skip ensures a in u { assert !Removable(after, skip, a); }
      BytesGrow(after, u, after.Keys - skip, u.Keys - skip);
    }
  }

  predicate Started(d: Dir, a: Attempt, ask: Ask) {
    Recorded(d, a) && d[a].ask == ask && !d[a].final && d[a].response == INTERRUPTED_RESPONSE
  }

  /** Whatever is not a final record stays as it is. */
  predicate KeepsUnfinished(d: Dir, d': Dir) {
    forall a | a in d && !(d[a].Record? && d[a].final) :: a in d' && d'[a] == d[a]
  }

  lemma TrimmedKeeps(l: Limits, d: Dir, skip: set<Attempt>, required: nat, add: bool, removed: seq<Attempt>)
    requires Trimmed(l, d, skip, required, add, removed)
    ensures KeepsUnfinished(d, Minus(d, removed)) && forall a | a in skip :: a !in removed
  {
    hide Limits.Fits;
  }

  lemma MinusIsPart(d: Dir, removed: seq<Attempt>)
    ensures Minus(d, removed).Keys <= d.Keys && forall a | a in Minus(d, removed) :: Minus(d, removed)[a] == d[a]
  {
  }

  lemma TokensMore(d: Dir, removed: seq<Attempt>, a: Attempt)
    requires Recorded(d, a)
    ensures Tokens(d, removed + [a]) == Tokens(d, removed) + {TokenOf(d, a)} && Tokens(d, []) == {}
  {
    assert forall b :: b in removed + [a] <==> b in removed || b == a;
  }

  lemma LiveAccounted(e: Engine, w: World)
    requires Good(e, w)
    ensures Accounted(w.log, w.Live())
  {
    assert w.Live() in w.dirs;
  }

  /** An attempt without a record has had the record of each of its runs evicted. */
  lemma NothingOwed(log: Log, d: Dir, a: Attempt)
    requires Accounted(log, d) && !Recorded(d, a)
    ensures forall t | t in log.ran && t.attempt == a :: t in log.evicted
  {
  }

  lemma Adding(log: Log, d: Dir, a: Attempt, f: File)
    requires Accounted(log, d) && a !in d
    requires f.Record? ==> !f.final && f.response == INTERRUPTED_RESPONSE && f.serial < log.next
    ensures Accounted(log, d[a := f])
  {
    hide INTERRUPTED_RESPONSE;
    forall t | t in log.ran && Holds(d, t) ensures Holds(d[a := f], t) {}
  }

  lemma Finishing(log: Log, d: Dir, a: Attempt, f: File)
    requires Accounted(log, d) && Recorded(d, a)
    requires f.Record? && f.final && f.serial == d[a].serial && Answer(TokenOf(d, a), f.ask, f.response) in log.answers
    ensures Accounted(log, d[a := f])
  {
    hide INTERRUPTED_RESPONSE;
    forall t | t in log.ran && Holds(d, t) ensures Holds(d[a := f], t) {}
  }

  lemma NumberingIsGood(e: Engine, w: World)
    requires Good(e, w)
    ensures Good(e, w.(log := w.log.Numbered()))
  {
    hide INTERRUPTED_RESPONSE, Genuine;
    var w' := w.(log := w.log.Numbered());
    forall d | d in w'.dirs ensures Accounted(w'.log, d) { assert Accounted(w.log, d); }
    forall t | t in w'.log.evicted ensures AnswerOf(w'.log, t) { assert AnswerOf(w.log, t); }
  }

  /** A run is accounted for while the record it was started under is there. */
  lemma RunningIsGood(e: Engine, w: World, t: Token)
    requires Good(e, w) && w.dirs == [w.Live()] && Holds(w.Live(), t)
    ensures Good(e, w.(log := w.log.Ran(t)))
  {
    hide INTERRUPTED_RESPONSE, Genuine;
    var w' := w.(log := w.log.Ran(t));
    assert Accounted(w.log, w.Live());
    assert forall d | d in w'.dirs :: d == w.Live();
    forall u | u in w'.log.evicted ensures AnswerOf(w'.log, u) { assert AnswerOf(w.log, u); }
  }

  lemma AnsweringIsGood(e: Engine, w: World, a: Answer)
    requires Good(e, w) && Genuine(e, a) && a.token in w.log.ran
    ensures Good(e, w.(log := w.log.Answered(a)))
  {
    hide INTERRUPTED_RESPONSE, Genuine;
    var w' := w.(log := w.log.Answered(a));
    forall d | d in w'.dirs ensures Accounted(w'.log, d) { assert Accounted(w.log, d); }
    forall u | u in w'.log.evicted ensures AnswerOf(w'.log, u) { assert AnswerOf(w.log, u); }
  }

  ghost function RunsOf(tokens: set<Token>, a: Attempt): set<Token> { set t | t in tokens && t.attempt == a }

  /** An attempt was run at most once more than final records of it were evicted: each run
      is on record wherever it may survive, unless its own record was evicted. */
  lemma RunsBounded(e: Engine, w: World)
    requires Good(e, w)
    ensures forall a: Attempt :: |RunsOf(w.log.ran, a)| <= |RunsOf(w.log.evicted, a)| + 1
    ensures forall t, d | t in w.log.ran && t !in w.log.evicted && d in w.dirs :: Holds(d, t)
  {
    var d := w.Live();
    assert Accounted(w.log, d);
    forall a: Attempt ensures |RunsOf(w.log.ran, a)| <= |RunsOf(w.log.evicted, a)| + 1 {
      var more := RunsOf(w.log.evicted, a) + if Recorded(d, a) then {TokenOf(d, a)} else {};
      SubsetSize(RunsOf(w.log.ran, a), more);
    }
    forall t, d | t in w.log.ran && t !in w.log.evicted && d in w.dirs ensures Holds(d, t) {
      assert Accounted(w.log, d);
    }
  }

  lemma AnswerIsGenuine(e: Engine, request: Request, p: Playbook, r: Receipt, a: Answer)
    requires Describes(e, request, p, r) && a.ask == AskOf(request) && a.response == Reply(r, true)
    ensures Genuine(e, a)
  {
    hide Describes, Reply;
    assert Describes(e, Request(request.action, request.actor, request.kind, request.operation, request.params,
        request.state), p, r);
  }

  /** The started record was created and nothing of it written. */
  predicate HalfWritten(w: World, attempt: Attempt) {
    w.dirs != [] && attempt in w.Live() && w.Live()[attempt] == Partial(0)
  }

  datatype Event =
    | Serve(attempt: Attempt, request: Request, p: Playbook)
    | CrashAt(step: nat)
    | PowerLossAt(step: nat, dir: nat)

  class Helper {
    const e: Engine
    const limits: Limits
    /** The length of a record once it is encoded. */
    const sizeOf: (Ask, bool, Response) -> nat
    /** Every file operation succeeds. */
    const smooth: bool

    /** The next started record is created but cannot be written. */
    var fault: bool
    var world: World
    var trail: seq<World>

    ghost predicate Valid()
      reads this
    {
      && Good(e, world) && world.dirs != [] && trail != [] && trail[|trail| - 1] == world
      && forall w | w in trail :: Good(e, w)
    }

    constructor (e: Engine, limits: Limits, sizeOf: (Ask, bool, Response) -> nat, smooth: bool)
      ensures Valid() && this.limits == limits && this.sizeOf == sizeOf && this.smooth == smooth
      ensures world == World([map[]], Log({}, {}, {}, 0)) && !fault
    {
      this.e, this.limits, this.sizeOf, this.smooth := e, limits, sizeOf, smooth;
      world, fault := World([map[]], Log({}, {}, {}, 0)), false;
      trail := [World([map[]], Log({}, {}, {}, 0))];
    }

    method Land(w: World)
      requires Valid() && Good(e, w)
      modifies `world, `trail
      ensures Valid() && world == w && trail == old(trail) + [w]
    {
      world, trail := w, trail + [w];
    }

    /** Count and measure the files other than `skip`; refuse a damaged one. */
    method Scan(d: Dir, skip: set<Attempt>) returns (result: Capacity, count: nat, total: nat, removable: set<Attempt>)
      ensures result in {Room, DamagedFile, IoError} && (smooth ==> result != IoError)
      ensures result == DamagedFile ==> exists a :: a in d && a !in skip && Damaged(d[a])
      ensures result == Room ==>
        && count == |d.Keys - skip| && total == Bytes(d, d.Keys - skip)
        && (forall a :: a in removable <==> Removable(d, skip, a))
        && (forall a | a in d && a !in skip :: !Damaged(d[a]))
    {
      hide Bytes;
      BytesOfNone(d);
      count, total, removable := 0, 0, {};
      var left := d.Keys - skip;
      ghost var seen: set<Attempt> := {};
      while left != {}
        invariant left + seen == d.Keys - skip && left !! seen
        invariant count == |seen| && total == Bytes(d, seen)
        invariant forall a :: a in removable <==> a in seen && Removable(d, skip, a)
        invariant forall a | a in seen :: !Damaged(d[a])
        decreases left
      {
        var a :| a in left;
        left := left - {a};
        var readable: bool := *;
        if !readable && !smooth { return IoError, count, total, removable; }
        if d[a].size > MAX_FILE || d[a].Partial? { return DamagedFile, count, total, removable; }
        BytesWithout(d, seen + {a}, a);
        assert seen + {a} - {a} == seen;
        seen := seen + {a};
        count, total := count + 1, total + d[a].size;
        if d[a].final { removable := removable + {a}; }
      }
      return Room, count, total, removable;
    }

    /** Make room: evict final records, oldest first, and no more than needed. */
    method EnsureCapacity(required: nat, skip: set<Attempt>, add: bool)
      returns (result: Capacity, ghost removed: seq<Attempt>)
      requires Valid()
      modifies `world, `trail
      ensures Valid() && old(trail) <= trail
      ensures world.Live() == Minus(old(world).Live(), removed)
      ensures Trimmed(limits, old(world).Live(), skip, required, add, removed)
      ensures world.log == old(world).log.Evict(Tokens(old(world).Live(), removed))
      ensures result == Room ==> limits.Fits(world.Live(), skip, required, add)
      ensures result == Room && removed != [] ==> world.dirs == [world.Live()]
      ensures smooth ==> result != IoError
      ensures result == DamagedFile ==>
        removed == [] && exists a :: a in old(world).Live() && a !in skip && Damaged(old(world).Live()[a])
      ensures result == Full ==>
        && !limits.Fits(world.Live(), skip, required, add)
        && forall a :: !Removable(world.Live(), skip, a)
      ensures result in {Room, Full} ==>
        forall a | a in old(world).Live() && a !in skip :: !Damaged(old(world).Live()[a])
      ensures result == Room ==> limits.Fits(Unfinished(old(world).Live()), skip, required, add)
      ensures result == Full ==> !limits.Fits(Unfinished(old(world).Live()), skip, required, add)
    {
      hide Bytes, Good, Accounted, Trimmed, Minus;
      var d := world.Live();
      removed := [];
      NothingTrimmed(limits, d, skip, required, add);
      RoomIff(limits, d, d, skip, required, add);
      assert Tokens(d, []) == {};
      var removable: set<Attempt>;
      var count: nat, total: nat;
      result, count, total, removable := Scan(d, skip);
      if result != Room { return; }
      if add { count, total := count + 1, total + required; }
      if count <= limits.items && total <= limits.bytes { return; }
      result, removed := EvictUntilFits(skip, required, add, count, total, removable);
      TrimmedKeeps(limits, d, skip, required, add, removed);
      MinusIsPart(d, removed);
      RoomIff(limits, d, world.Live(), skip, required, add);
      if result != Room { return; }
      var synced: bool := *;
      if !synced && !smooth { return IoError, removed; }
      Synced(e, world);
      Land(world.(dirs := [world.Live()]));
    }

    /** Unlink final records, oldest first, while the rest is over a bound. */
    method EvictUntilFits(skip: set<Attempt>, required: nat, add: bool, count0: nat, total0: nat,
        removable0: set<Attempt>)
      returns (result: Capacity, ghost removed: seq<Attempt>)
      requires Valid()
      requires count0 == |world.Live().Keys - skip| + if add then 1 else 0
      requires total0 == Bytes(world.Live(), world.Live().Keys - skip) + if add then required else 0
      requires forall a :: a in removable0 <==> Removable(world.Live(), skip, a)
      modifies `world, `trail
      ensures Valid() && old(trail) <= trail
      ensures world == World(world.dirs, old(world).log.Evict(Tokens(old(world).Live(), removed)))
      ensures world.Live() == Minus(old(world).Live(), removed)
      ensures Trimmed(limits, old(world).Live(), skip, required, add, removed)
      ensures result in {Room, Full, IoError} && (smooth ==> result != IoError)
      ensures result == Room ==> limits.Fits(world.Live(), skip, required, add)
      ensures result == Full ==>
        !limits.Fits(world.Live(), skip, required, add) && forall a :: !Removable(world.Live(), skip, a)
    {
      hide Bytes, Good, Accounted, Trimmed, Minus;
      var d := world.Live();
      var count, total, removable := count0, total0, removable0;
      removed := [];
      NothingTrimmed(limits, d, skip, required, add);
      while removable != {} && !(count <= limits.items && total <= limits.bytes)
        invariant Valid() && old(trail) <= trail
        invariant world.Live() == Minus(d, removed)
        invariant world == World(world.dirs, old(world).log.Evict(Tokens(d, removed)))
        invariant Trimmed(limits, d, skip, required, add, removed)
        invariant forall a :: a in removable <==> Removable(world.Live(), skip, a)
        invariant count == |world.Live().Keys - skip| + if add then 1 else 0
        invariant total == Bytes(world.Live(), world.Live().Keys - skip) + if add then required else 0
        decreases removable
      {
        var a, evicted := EvictOldest(d, skip, required, add, removed, removable);
        if !evicted { return IoError, removed; }
        TokensMore(d, removed, a);
        removable, removed := removable - {a}, removed + [a];
        count, total := count - 1, total - d[a].size;
      }
      result := if count <= limits.items && total <= limits.bytes then Room else Full;
    }

    /** Unlink the oldest of the removable records. */
    method EvictOldest(ghost d: Dir, skip: set<Attempt>, ghost required: nat, ghost add: bool,
        ghost removed: seq<Attempt>, removable: set<Attempt>)
      returns (a: Attempt, ok: bool)
      requires Valid() && world.Live() == Minus(d, removed) && Trimmed(limits, d, skip, required, add, removed)
      requires !limits.Fits(world.Live(), skip, required, add)
      requires removable != {} && forall b :: b in removable <==> Removable(world.Live(), skip, b)
      modifies `world, `trail
      ensures Valid() && old(trail) <= trail
      ensures !ok ==> world == old(world)
      ensures smooth ==> ok
      ensures ok ==>
        && a in removable && Recorded(d, a)
        && world == World(world.dirs, old(world).log.Evict({TokenOf(d, a)}))
        && world.Live() == Minus(d, removed + [a]) && Trimmed(limits, d, skip, required, add, removed + [a])
        && (forall b :: b in removable - {a} <==> Removable(world.Live(), skip, b))
        && |world.Live().Keys - skip| + 1 == |old(world).Live().Keys - skip|
        && Bytes(world.Live(), world.Live().Keys - skip) + d[a].size ==
            Bytes(old(world).Live(), old(world).Live().Keys - skip)
    {
      hide Bytes, Good, Accounted;
      assert removable <= world.Live().Keys;
      OldestExists(world.Live(), removable);
      a :| OldestOf(world.Live(), removable, a);
      ok := *;
      if smooth { ok := true; }
      if !ok { return; }
      TrimMore(limits, d, skip, required, add, removed, a);
      BytesAfter(world.Live(), skip, a);
      Evict(a);
    }

    /** Unlink one final record; the removal is not yet durable. */
    method Evict(a: Attempt)
      requires Valid() && Removable(world.Live(), {}, a)
      modifies `world, `trail
      ensures Valid() && old(trail) <= trail
      ensures var d := old(world).Live();
              world == World(old(world).dirs + [d - {a}], old(world).log.Evict({TokenOf(d, a)}))
    {
      Evicted(e, world, a);
      Land(World(world.dirs + [world.Live() - {a}], world.log.Evict({TokenOf(world.Live(), a)})));
    }

    // -------------------------------------------------------------------------
    // One request
    // -------------------------------------------------------------------------

    method Append(d: Dir)
      requires Valid() && Accounted(world.log, d)
      modifies `world, `trail
      ensures Valid() && old(trail) <= trail && world == old(world).(dirs := old(world).dirs + [d])
    {
      hide Accounted;
      Land(world.(dirs := world.dirs + [d]));
    }

    method SyncDirectory() returns (ok: bool)
      requires Valid()
      modifies `world, `trail
      ensures Valid() && old(trail) <= trail
      ensures world == if ok then old(world).(dirs := [old(world).Live()]) else old(world)
      ensures smooth ==> ok
    {
      hide Accounted, Good;
      ok := *;
      if smooth { ok := true; }
      if ok {
        Synced(e, world);
        Land(world.(dirs := [world.Live()]));
      }
    }

    /** Write the started record; the engine may only run once it is durable. When no call
        fails, all it takes is undamaged files and room beside the unfinished ones. */
    method Begin(attempt: Attempt, ask: Ask) returns (ok: bool)
      requires Valid() && attempt !in world.Live()
      modifies this
      ensures Valid() && old(trail) <= trail
      ensures world.log.ran == old(world).log.ran && world.log.answers == old(world).log.answers
      ensures old(world).log.evicted <= world.log.evicted
      ensures ok ==>
        && world.dirs == [world.Live()] && Started(world.Live(), attempt, ask)
        && TokenOf(world.Live(), attempt) !in world.log.ran && Sound(old(world).Live())
        && exists w | w in trail :: HalfWritten(w, attempt) && w.log.ran == old(world).log.ran
      ensures smooth && Sound(old(world).Live()) ==>
        (ok <==> limits.Fits(Unfinished(old(world).Live()), {attempt}, sizeOf(ask, false, INTERRUPTED_RESPONSE), true)
                 && !old(fault))
      ensures smooth && !ok ==> attempt !in world.Live()
      ensures KeepsUnfinished(old(world).Live(), world.Live())
      ensures ok ==> OnlyAdds(old(world).Live(), world.Live(), attempt)
    {
      hide Bytes, Good, Trimmed, Limits.Fits, Accounted, Unfinished, Damaged, INTERRUPTED_RESPONSE;
      var size := sizeOf(ask, false, INTERRUPTED_RESPONSE);
      ghost var d := world.Live();
      var room, removed := EnsureCapacity(size, {attempt}, true);
      TrimmedKeeps(limits, d, {attempt}, size, true, removed);
      DamageBeside(d, attempt);
      MinusIsPart(d, removed);
      if room != Room { return false; }
      ok := WriteStarted(attempt, ask, size);
    }

    /** Create the file, write it, sync it and its directory; remove it after a failure. */
    method WriteStarted(attempt: Attempt, ask: Ask, size: nat) returns (ok: bool)
      requires Valid() && attempt !in world.Live()
      modifies this
      ensures Valid() && old(trail) <= trail
      ensures world.log == old(world).log.Numbered() && (smooth ==> (ok <==> !old(fault)) && !fault)
      ensures smooth && !ok ==> world.Live() == old(world).Live()
      ensures ok ==>
        && world.dirs == [world.Live()] && Started(world.Live(), attempt, ask)
        && TokenOf(world.Live(), attempt) !in world.log.ran
        && exists w | w in trail :: HalfWritten(w, attempt) && w.log.ran == old(world).log.ran
      ensures forall a | a in old(world).Live() :: a in world.Live() && world.Live()[a] == old(world).Live()[a]
      ensures ok ==> OnlyAdds(old(world).Live(), world.Live(), attempt)
    {
      hide Good, Accounted, INTERRUPTED_RESPONSE;
      var time: int := *;
      var serial := Number();
      var before := world.Live();
      LiveAccounted(e, world);
      var created: bool := *;
      if !created && !smooth { return false; }
      Adding(world.log, before, attempt, Partial(0));
      Append(before[attempt := Partial(0)]);
      ghost var half := world;
      var written: bool := *;
      if smooth { written := !fault; }
      fault := false;
      if written {
        var started := Record(ask, false, INTERRUPTED_RESPONSE, size, time, serial);
        Adding(world.log, before, attempt, started);
        assert before[attempt := started] == world.Live()[attempt := started];
        Append(before[attempt := started]);
        ok := SyncDirectory();
        if ok {
          assert half in trail && HalfWritten(half, attempt);
          return;
        }
      }
      var removedAgain: bool := *;
      if removedAgain || smooth { Append(before); }
      return false;
    }

    /** Take an unused serial. */
    method Number() returns (serial: nat)
      requires Valid()
      modifies `world, `trail
      ensures Valid() && old(trail) <= trail && serial == old(world).log.next
      ensures world == old(world).(log := old(world).log.Numbered())
      ensures forall t | t in world.log.ran :: t.serial < serial
    {
      LiveAccounted(e, world);
      serial := world.log.next;
      NumberingIsGood(e, world);
      Land(world.(log := world.log.Numbered()));
    }

    /** Replace the started record by the final response. */
    method Save(attempt: Attempt, ask: Ask, response: Response) returns (ok: bool)
      requires Valid() && Started(world.Live(), attempt, ask)
      requires Answer(TokenOf(world.Live(), attempt), ask, response) in world.log.answers
      modifies `world, `trail
      ensures Valid() && world.log.ran == old(world).log.ran && world.log.answers == old(world).log.answers
      ensures old(world).log.evicted <= world.log.evicted
      ensures KeepsUnfinished(old(world).Live() - {attempt}, world.Live())
      ensures Recorded(world.Live(), attempt) && world.Live()[attempt].ask == ask
      ensures world.Live()[attempt].serial == old(world).Live()[attempt].serial
      ensures world.Live()[attempt].final ==> world.Live()[attempt].response == response
      ensures ok ==> world.Live()[attempt].final && world.dirs == [world.Live()]
      ensures smooth && Sound(old(world).Live() - {attempt}) ==>
        (ok <==> limits.Fits(Unfinished(old(world).Live()), {attempt}, sizeOf(ask, true, response), true))
    {
      hide Bytes, Good, Trimmed, Limits.Fits, Accounted, Unfinished, Damaged, INTERRUPTED_RESPONSE;
      var size := sizeOf(ask, true, response);
      var time: int := *;
      ghost var d := world.Live();
      var serial := world.Live()[attempt].serial;
      var room, removed := EnsureCapacity(size, {attempt}, true);
      TrimmedKeeps(limits, d, {attempt}, size, true, removed);
      assert attempt !in removed;
      DamageBeside(d, attempt);
      if room != Room { return false; }
      var renamed: bool := *;
      if !renamed && !smooth { return false; }
      var final := Record(ask, true, response, size, time, serial);
      LiveAccounted(e, world);
      Finishing(world.log, world.Live(), attempt, final);
      Append(world.Live()[attempt := final]);
      ok := SyncDirectory();
    }

    /** Run the engine for an attempt whose started record is durable. */
    method RunOnce(attempt: Attempt, request: Request, p: Playbook) returns (r: Receipt)
      requires Valid() && world.dirs == [world.Live()] && Started(world.Live(), attempt, AskOf(request))
      modifies `world, `trail
      ensures Valid() && Describes(e, request, p, r)
      ensures world.dirs == old(world).dirs
      ensures var t := TokenOf(old(world).Live(), attempt);
              world.log == old(world).log.Ran(t).Answered(Answer(t, AskOf(request), Reply(r, true)))
    {
      hide Describes, INTERRUPTED, Good, Accounted;
      var t := TokenOf(world.Live(), attempt);
      RunningIsGood(e, world, t);
      Land(world.(log := world.log.Ran(t)));
      r := Run(e, request, p);
      var answer := Answer(t, AskOf(request), Reply(r, true));
      AnswerIsGenuine(e, request, p, r, answer);
      AnsweringIsGood(e, world, answer);
      Land(world.(log := world.log.Answered(answer)));
    }

    /** Operations that change the host, or confirm a change, go through the cache; the others
        only run. */
    method Serve(attempt: Attempt, request: Request, p: Playbook) returns (response: Response, ran: bool)
      requires Valid()
      modifies this
      ensures Valid() && old(world).log.evicted <= world.log.evicted
      ensures request.operation !in {Execute, Rollback, Confirm} ==>
        && !ran && world == old(world) && exists r: Receipt :: Describes(e, request, p, r) && response == Reply(r, true)
      ensures request.operation in {Execute, Rollback, Confirm} ==>
        && (attempt in old(world).Live() ==> !ran && world == old(world))
        && (smooth && !old(fault) && attempt !in old(world).Live() && Sound(old(world).Live()) ==>
              (ran <==> limits.Fits(Unfinished(old(world).Live()), {attempt},
                                    sizeOf(AskOf(request), false, INTERRUPTED_RESPONSE), true)))
    {
      hide Describes, INTERRUPTED, Good, Accounted, Reply, Unfinished, Limits.Fits, Sound;
      if Cacheable(request.operation) {
        response, ran := Handle(attempt, request, p);
      } else {
        trail := [world];
        var r := Run(e, request, p);
        response, ran := Reply(r, true), false;
      }
    }

    /** One authenticated request, under the action lock. */
    method Handle(attempt: Attempt, request: Request, p: Playbook) returns (response: Response, ran: bool)
      requires Valid() && Cacheable(request.operation)
      modifies this
      ensures Valid()
      ensures old(world).log.evicted <= world.log.evicted
      ensures !ran ==> world.log.ran == old(world).log.ran
      ensures ran ==>
        && Recorded(world.Live(), attempt)
        && TokenOf(world.Live(), attempt) !in old(world).log.ran
        && world.log.ran == old(world).log.ran + {TokenOf(world.Live(), attempt)}
      ensures attempt in old(world).Live() ==>
        && !ran && world == old(world)
        && var f := old(world).Live()[attempt];
           && (response == CACHE_REFUSAL || (f.Record? && f.ask == AskOf(request) && response == f.response))
           && (smooth && !Damaged(f) && f.ask == AskOf(request) ==> response == f.response)
      ensures smooth && !ran && attempt !in old(world).Live() ==> attempt !in world.Live()
      ensures smooth && !old(fault) && attempt !in old(world).Live() && Sound(old(world).Live()) ==>
        (ran <==> limits.Fits(Unfinished(old(world).Live()), {attempt},
            sizeOf(AskOf(request), false, INTERRUPTED_RESPONSE), true))
      ensures (exists t | t in old(world).log.ran :: t.attempt == attempt && t !in old(world).log.evicted) ==> !ran
      ensures ran ==> Sound(old(world).Live())
      ensures !ran && attempt !in old(world).Live() ==> response in {CACHE_REFUSAL, INTENT_REFUSAL}
      ensures ran ==>
        && world.Live()[attempt].ask == AskOf(request)
        && exists r: Receipt, saved: bool ::
             && Describes(e, request, p, r) && response == Reply(r, saved)
             && (saved ==> world.Live()[attempt].final && world.Live()[attempt].response == response)
      ensures KeepsUnfinished(old(world).Live(), world.Live())
      ensures smooth && ran ==> exists r: Receipt ::
        && Describes(e, request, p, r)
        && var kept := limits.Fits(Unfinished(old(world).Live()), {attempt},
                                   sizeOf(AskOf(request), true, Reply(r, true)), true);
           response == Reply(r, kept) && (kept ==> world.Live()[attempt].final)
    {
      hide Describes, INTERRUPTED, Good, Accounted, Reply, Genuine, Unfinished, Limits.Fits, Sound;
      ran := false;
      trail := [world];
      var readable: bool := *;
      if !readable && !smooth { return CACHE_REFUSAL, ran; }
      if attempt in world.Live() {
        var f := world.Live()[attempt];
        if f.size > MAX_FILE || f.Partial? || f.ask != AskOf(request) { return CACHE_REFUSAL, ran; }
        return f.response, ran;
      }
      LiveAccounted(e, world);
      NothingOwed(world.log, world.Live(), attempt);
      var begun := Begin(attempt, AskOf(request));
      if !begun { return INTENT_REFUSAL, ran; }
      ran := true;
      ghost var d, d' := old(world).Live(), world.Live();
      var r := RunOnce(attempt, request, p);
      RoomBeside(limits, d, d', attempt, sizeOf(AskOf(request), true, Reply(r, true)));
      if Sound(d) { SoundBeside(d, d', attempt); }
      var saved := Save(attempt, AskOf(request), Reply(r, true));
      response := Reply(r, saved);
    }

    // -------------------------------------------------------------------------
    // Runs
    // -------------------------------------------------------------------------

    /** The process dies at any state since the current request began. */
    method Crash(k: nat)
      requires Valid() && k < |trail|
      modifies `world, `trail
      ensures Valid() && world == old(trail)[k]
    {
      hide Good;
      assert trail[k] in trail;
      Land(trail[k]);
    }

    /** The machine loses power there: any directory state not yet synced away survives. */
    method PowerLoss(k: nat, j: nat)
      requires Valid() && k < |trail| && j < |trail[k].dirs|
      modifies `world, `trail
      ensures Valid() && world == World([old(trail)[k].dirs[j]], old(trail)[k].log)
    {
      assert trail[k] in trail && trail[k].dirs[j] in trail[k].dirs;
      Land(World([trail[k].dirs[j]], trail[k].log));
    }

    /** The Helper only starts on a cache it can read and that fits its bounds. When no call
        fails, it starts exactly when no file is damaged and the unfinished ones fit. */
    method Restart() returns (up: bool)
      requires Valid()
      modifies `world, `trail
      ensures Valid() && world.log.ran == old(world).log.ran && old(world).log.evicted <= world.log.evicted
      ensures up ==> Sound(old(world).Live()) && limits.Fits(world.Live(), {}, 0, false)
      ensures smooth ==> (up <==> Sound(old(world).Live()) && limits.Fits(Unfinished(old(world).Live()), {}, 0, false))
      ensures KeepsUnfinished(old(world).Live(), world.Live())
    {
      hide Bytes, Good, Trimmed, Limits.Fits, Accounted, Unfinished, Damaged, INTERRUPTED_RESPONSE;
      trail := [world];
      ghost var d := world.Live();
      var room, removed := EnsureCapacity(0, {}, false);
      TrimmedKeeps(limits, d, {}, 0, false, removed);
      up := room == Room;
    }

    /** A run of the model in which one crash keeps the Helper down: it strikes after the
        started record was created and before it was written. */
    method CrashInBeginKeepsHelperDown(attempt: Attempt, ask: Ask) returns (up: bool)
      requires Valid() && smooth && !fault && attempt !in world.Live() && Sound(world.Live())
      requires limits.Fits(Unfinished(world.Live()), {attempt}, sizeOf(ask, false, INTERRUPTED_RESPONSE), true)
      modifies this
      ensures Valid() && !up && HalfWritten(world, attempt)
      ensures world.log.ran == old(world).log.ran
    {
      hide Good, Accounted, Unfinished, Limits.Fits, INTERRUPTED_RESPONSE;
      trail := [world];
      var begun := Begin(attempt, ask);
      assert begun;
      var k: nat :| k < |trail| && HalfWritten(trail[k], attempt) && trail[k].log.ran == world.log.ran;
      Crash(k);
      assert Damaged(world.Live()[attempt]);
      up := Restart();
    }

    /** Any sequence of requests, crashes, power losses and restarts: each run is still on
        record, wherever it may survive, unless its own final record was evicted; so an
        attempt has run at most once more than records of it were evicted. */
    method RunAll(steps: seq<Event>)
      requires Valid()
      modifies this
      ensures Valid()
      ensures forall a: Attempt :: |RunsOf(world.log.ran, a)| <= |RunsOf(world.log.evicted, a)| + 1
      ensures forall t, d | t in world.log.ran && t !in world.log.evicted && d in world.dirs :: Holds(d, t)
    {
      hide Good, Accounted;
      var up := true;
      for i := 0 to |steps|
        invariant Valid()
      {
        match steps[i] {
          case Serve(attempt, request, p) =>
            if up { var _, _ := Serve(attempt, request, p); }
          case CrashAt(k) =>
            if k < |trail| { Crash(k); up := Restart(); }
          case PowerLossAt(k, j) =>
            if k < |trail| && j < |trail[k].dirs| { PowerLoss(k, j); up := Restart(); }
        }
      }
      RunsBounded(e, world);
    }
  }
}
