/** Batches as concurrent transactions: every interleaving of locking, loading, checking, writing
    and committing. */
module SettingsRuns {
  import opened Outcomes
  import opened Settings

  /** What a transaction can wait for: a section's advisory lock, or the row of a key another
      transaction has written and not yet committed. */
  datatype Resource = SectionLock(section: Section) | RowLock(key: Key)

  /** Locking has taken the first `got` section locks of the batch; Writing has passed the check,
      performed the first `done` changes, and so locked the rows of the keys in `held`. */
  datatype Phase = Locking(got: nat) | Writing(done: nat, held: set<Key>)

  /** `locks` is the ascending list of sections to lock: empty when no rule is touched. */
  datatype Txn = Txn(changes: seq<Change>, locks: seq<Section>, phase: Phase)
  {
    /** What it holds until it ends. */
    predicate Holds(r: Resource) {
      match r
      case SectionLock(s) => s in (if phase.Locking? then Taken() else locks)
      case RowLock(k) => phase.Writing? && k in phase.held
    }

    function Taken(): seq<Section>
    {
      if phase.Locking? && phase.got <= |locks| then locks[..phase.got] else []
    }

    /** The changes it will leave when it commits. */
    function Effective(): seq<Change> {
      if phase.Writing? then Kept(changes, phase.held) else []
    }
  }

  function Kept(changes: seq<Change>, held: set<Key>): seq<Change> {
    if changes == [] then []
    else Kept(changes[..|changes| - 1], held) + if changes[|changes| - 1].key in held then [changes[|changes| - 1]] else []
  }

  /** Deleting a row that is not there: it locks nothing, waits for nobody and does nothing, even
      if another transaction has an uncommitted row of that key. */
  predicate Idle(reg: Registry, rows: Rows, c: Change) {
    Clears(reg, c) && c.key !in rows
  }

  /** The next thing a transaction needs, if its next step needs anything. */
  function Wants(reg: Registry, rows: Rows, t: Txn): Option<Resource> {
    match t.phase
    case Locking(got) => if got < |t.locks| then Some(SectionLock(t.locks[got])) else None
    case Writing(done, _) =>
      if done < |t.changes| && !Idle(reg, rows, t.changes[done]) then Some(RowLock(t.changes[done].key)) else None
  }

  /** The committed rows and the open transactions. */
  datatype State = State(rows: Rows, open: map<nat, Txn>)

  datatype Step =
    | Begin(id: nat, changes: seq<Change>, locks: seq<Section>)
    | Lock(id: nat)
    | LoadAndCheck(id: nat)
    | Write(id: nat)
    | Commit(id: nat)
    | Abort(id: nat)

  ghost predicate Free(s: State, id: nat, r: Resource) {
    forall other | other in s.open && other != id :: !s.open[other].Holds(r)
  }

  ghost predicate MayProceed(reg: Registry, s: State, id: nat)
    requires id in s.open
  {
    var wanted := Wants(reg, s.rows, s.open[id]); wanted.Some? ==> Free(s, id, wanted.value)
  }

  /** The transaction after its next change. */
  function Performed(reg: Registry, rows: Rows, t: Txn): Txn
    requires t.phase.Writing? && t.phase.done < |t.changes|
  {
    var c := t.changes[t.phase.done];
    t.(phase := Writing(t.phase.done + 1, if Idle(reg, rows, c) then t.phase.held else t.phase.held + {c.key}))
  }

  /** The locks a batch takes: the load set of its rules, ascending, or none without rules. */
  ghost predicate LocksFor(reg: Registry, changes: seq<Change>, locks: seq<Section>) {
    var touched := TouchedBy(reg, changes);
    && Ascending(locks)
    && SetOf(locks) == if exists r :: r in reg.rules && r.Touches(touched) then LoadSet(reg, touched) else {}
  }

  /** Which sections a batch locks: none if it touches no rule; otherwise its own, and the section and
      the read sections of every rule declared on one of them or reading one of them. */
  lemma LockedSections(reg: Registry, changes: seq<Change>, locks: seq<Section>, s: Section)
    requires LocksFor(reg, changes, locks)
    ensures var own := TouchedBy(reg, changes);
            var hit := set r | r in reg.rules && (r.section in own || exists x :: x in r.reads_ && x in own);
            s in locks <==> hit != {} && (s in own || exists r :: r in hit && (s == r.section || s in r.reads_))
  {
    var own := TouchedBy(reg, changes);
    var hit := set r | r in reg.rules && (r.section in own || exists x :: x in r.reads_ && x in own);
    assert forall r :: r in hit <==> r in reg.rules && r.Touches(own);
    assert s in locks <==> s in SetOf(locks);
    if exists r :: r in hit && (s == r.section || s in r.reads_) {
      var r :| r in hit && (s == r.section || s in r.reads_);
      assert s in r.Footprint();
    }
  }

  ghost predicate Enabled(reg: Registry, masterKey: nat, s: State, step: Step) {
    match step
    case Begin(id, changes, locks) => id !in s.open && Admissible(reg, changes) && LocksFor(reg, changes, locks)
    case Lock(id) =>
      id in s.open && s.open[id].phase.Locking? && s.open[id].phase.got < |s.open[id].locks| && MayProceed(reg, s, id)
    case LoadAndCheck(id) =>
      id in s.open && s.open[id].phase.Locking? && s.open[id].phase.got == |s.open[id].locks|
      && Passes(reg, masterKey, s.rows, s.open[id].changes)
    case Write(id) =>
      id in s.open && s.open[id].phase.Writing? && s.open[id].phase.done < |s.open[id].changes| && MayProceed(reg, s, id)
    case Commit(id) => id in s.open && s.open[id].phase.Writing? && s.open[id].phase.done == |s.open[id].changes|
    case Abort(id) => id in s.open
  }

  /** Writes become visible, and locks are released, at the commit. */
  ghost function After(reg: Registry, masterKey: nat, s: State, step: Step): State
    requires Enabled(reg, masterKey, s, step)
  {
    match step
    case Begin(id, changes, locks) => s.(open := s.open[id := Txn(changes, locks, Locking(0))])
    case Lock(id) => s.(open := s.open[id := s.open[id].(phase := Locking(s.open[id].phase.got + 1))])
    case LoadAndCheck(id) => s.(open := s.open[id := s.open[id].(phase := Writing(0, {}))])
    case Write(id) => s.(open := s.open[id := Performed(reg, s.rows, s.open[id])])
    case Commit(id) => State(WriteAll(reg, masterKey, s.rows, s.open[id].Effective()), s.open - {id})
    case Abort(id) => s.(open := s.open - {id})
  }

  ghost predicate IsRun(reg: Registry, masterKey: nat, run: seq<State>, steps: seq<Step>) {
    && |run| == |steps| + 1 && run[0].open == map[]
    && forall k | 0 <= k < |steps| ::
         Enabled(reg, masterKey, run[k], steps[k]) && run[k + 1] == After(reg, masterKey, run[k], steps[k])
  }

  /*********************** Rules ***********************/

  /** A rule's verdict depends on the keys of its own section and of those it reads. */
  ghost predicate Framed(reg: Registry, r: Rule) {
    forall v, w | (forall k | InSections(reg, k, r.Footprint()) :: Get(v, k) == Get(w, k)) :: r.check(v) == r.check(w)
  }

  ghost predicate RulesHold(reg: Registry, masterKey: nat, rows: Rows) {
    forall r | r in reg.rules :: r.check(Everything(reg, masterKey, rows))
  }

  lemma SameVerdict(reg: Registry, r: Rule, v: Values, w: Values)
    requires Framed(reg, r) && forall k | InSections(reg, k, r.Footprint()) :: Get(v, k) == Get(w, k)
    ensures r.check(v) == r.check(w)
  {
  }

  lemma GetEverything(reg: Registry, masterKey: nat, rows: Rows, k: Key)
    ensures Get(Everything(reg, masterKey, rows), k) == EffectiveAt(reg, masterKey, rows, k)
  {
  }

  /** The check that a batch passed, restated on the table it would leave. */
  ghost predicate WouldHold(reg: Registry, masterKey: nat, rows: Rows, changes: seq<Change>) {
    forall r | r in reg.rules && r.Touches(TouchedBy(reg, changes)) ::
      r.check(Everything(reg, masterKey, WriteAll(reg, masterKey, rows, changes)))
  }

  lemma FootprintLoaded(reg: Registry, r: Rule, touched: set<Section>, k: Key)
    requires r in reg.rules && r.Touches(touched) && InSections(reg, k, r.Footprint())
    ensures InSections(reg, k, LoadSet(reg, touched))
  {
  }

  lemma PassesMeansWouldHold(reg: Registry, masterKey: nat, rows: Rows, changes: seq<Change>)
    requires forall r | r in reg.rules :: Framed(reg, r)
    requires Known(reg, changes) && Passes(reg, masterKey, rows, changes)
    ensures WouldHold(reg, masterKey, rows, changes)
  {
    var touched := TouchedBy(reg, changes);
    var load := LoadSet(reg, touched);
    var merged := Merge(reg, Load(reg, masterKey, rows, load), changes);
    var after := WriteAll(reg, masterKey, rows, changes);
    forall r | r in reg.rules && r.Touches(touched) ensures r.check(Everything(reg, masterKey, after)) {
      forall k | InSections(reg, k, r.Footprint()) ensures Get(merged, k) == Get(Everything(reg, masterKey, after), k) {
        FootprintLoaded(reg, r, touched, k);
        MergeIsLoadAfterWrite(reg, masterKey, rows, load, changes, k);
        GetEverything(reg, masterKey, after, k);
      }
      SameVerdict(reg, r, merged, Everything(reg, masterKey, after));
    }
  }

  /** A key of a rule's footprint that a batch writes makes the batch touch the rule. */
  lemma WritingTouches(reg: Registry, r: Rule, changes: seq<Change>, c: Change)
    requires c in changes && InSections(reg, c.key, r.Footprint())
    ensures r.Touches(TouchedBy(reg, changes))
  {
    assert reg.specs[c.key].section.value in TouchedBy(reg, changes);
  }

  /** Rules a batch does not touch keep their verdict. */
  lemma UntouchedKeepsVerdict(reg: Registry, masterKey: nat, rows: Rows, changes: seq<Change>, r: Rule)
    requires Framed(reg, r) && Known(reg, changes) && !r.Touches(TouchedBy(reg, changes))
    ensures r.check(Everything(reg, masterKey, WriteAll(reg, masterKey, rows, changes)))
            == r.check(Everything(reg, masterKey, rows))
  {
    var after := WriteAll(reg, masterKey, rows, changes);
    forall k | InSections(reg, k, r.Footprint())
      ensures Get(Everything(reg, masterKey, after), k) == Get(Everything(reg, masterKey, rows), k)
    {
      if exists c :: c in changes && c.key == k {
        var c :| c in changes && c.key == k;
        WritingTouches(reg, r, changes, c);
      }
      WriteAllEffect(reg, masterKey, rows, rows, changes, k);
      GetEverything(reg, masterKey, after, k);
      GetEverything(reg, masterKey, rows, k);
    }
    SameVerdict(reg, r, Everything(reg, masterKey, after), Everything(reg, masterKey, rows));
  }

  /*********************** What every step keeps ***********************/

  /** The key's section is one some rule looks at, so every batch that writes it locks it. */
  ghost predicate Guarded(reg: Registry, k: Key) {
    k in reg.specs && reg.specs[k].section.Some? && exists r :: r in reg.rules && reg.specs[k].section.value in r.Footprint()
  }

  ghost predicate TxnOk(reg: Registry, t: Txn) {
    && Admissible(reg, t.changes) && LocksFor(reg, t.changes, t.locks)
    && (t.phase.Locking? ==> t.phase.got <= |t.locks|)
    && (t.phase.Writing? ==>
          && t.phase.done <= |t.changes|
          && forall k | k in t.phase.held :: exists i :: 0 <= i < t.phase.done && t.changes[i].key == k)
  }

  /** A performed change that locked nothing was a clear; while a guarded key stays locked by its
      section, its row stays absent. */
  ghost predicate SkipsOk(reg: Registry, rows: Rows, t: Txn) {
    t.phase.Writing? ==>
      forall i | 0 <= i < t.phase.done <= |t.changes| && t.changes[i].key !in t.phase.held ::
        Clears(reg, t.changes[i]) && (Guarded(reg, t.changes[i].key) ==> t.changes[i].key !in rows)
  }

  /** No resource has two holders. */
  ghost predicate Exclusive(s: State) {
    forall a, b, r | a in s.open && b in s.open && s.open[a].Holds(r) && s.open[b].Holds(r) :: a == b
  }

  ghost predicate Sound(reg: Registry, masterKey: nat, s: State) {
    && (forall id | id in s.open :: TxnOk(reg, s.open[id]))
    && Exclusive(s)
    && RulesHold(reg, masterKey, s.rows)
    && (forall id | id in s.open && s.open[id].phase.Writing? :: WouldHold(reg, masterKey, s.rows, s.open[id].changes))
    && (forall id | id in s.open :: SkipsOk(reg, s.rows, s.open[id]))
  }

  lemma AllLocksHeld(reg: Registry, t: Txn, r: Rule, sec: Section)
    requires TxnOk(reg, t) && t.phase.Writing?
    requires r in reg.rules && r.Touches(TouchedBy(reg, t.changes)) && sec in r.Footprint()
    ensures t.Holds(SectionLock(sec))
  {
    assert sec in LoadSet(reg, TouchedBy(reg, t.changes));
    assert sec in SetOf(t.locks);
  }

  lemma {:induction false} KeptIsPart(changes: seq<Change>, held: set<Key>)
    ensures forall c :: c in Kept(changes, held) <==> c in changes && c.key in held
  {
    if changes != [] {
      var init, last := changes[..|changes| - 1], changes[|changes| - 1];
      KeptIsPart(init, held);
      assert forall c :: c in changes <==> c in init || c == last;
    }
  }

  /** A change that took effect leaves what the whole batch would leave; one that did not leaves
      what was there. */
  lemma {:induction false} KeptEffect(reg: Registry, masterKey: nat, rows: Rows, changes: seq<Change>, held: set<Key>, k: Key)
    requires Known(reg, changes) && k in reg.specs
    ensures var left := EffectiveAt(reg, masterKey, WriteAll(reg, masterKey, rows, Kept(changes, held)), k);
            && (k !in held ==> left == EffectiveAt(reg, masterKey, rows, k))
            && (k in held ==> left == EffectiveAt(reg, masterKey, WriteAll(reg, masterKey, rows, changes), k))
  {
    if changes != [] {
      var init, last := changes[..|changes| - 1], changes[|changes| - 1];
      KeptEffect(reg, masterKey, rows, init, held, k);
      SetRowEffect(reg, masterKey, WriteAll(reg, masterKey, rows, init), last, k);
      var kept := Kept(init, held);
      if last.key !in held {
        assert Kept(changes, held) == kept;
      } else {
        assert Kept(changes, held) == kept + [last];
        assert (kept + [last])[..|kept + [last]| - 1] == kept;
        SetRowEffect(reg, masterKey, WriteAll(reg, masterKey, rows, kept), last, k);
      }
    }
  }

  lemma {:induction false} ClearedIsUnset(reg: Registry, masterKey: nat, rows: Rows, changes: seq<Change>, c: Change)
    requires Known(reg, changes) && Distinct(changes) && c in changes && Clears(reg, c)
    ensures EffectiveAt(reg, masterKey, WriteAll(reg, masterKey, rows, changes), c.key) == None
  {
    var init, last := changes[..|changes| - 1], changes[|changes| - 1];
    SetRowEffect(reg, masterKey, WriteAll(reg, masterKey, rows, init), last, c.key);
    if c != last {
      assert c in init;
      var i :| 0 <= i < |init| && init[i] == c;
      assert changes[i].key != last.key;
      ClearedIsUnset(reg, masterKey, rows, init, c);
    }
  }

  /** For guarded keys the changes that took effect leave what the whole batch would. */
  lemma CommitLeavesAll(reg: Registry, masterKey: nat, rows: Rows, t: Txn, k: Key)
    requires TxnOk(reg, t) && t.phase.Writing? && t.phase.done == |t.changes| && SkipsOk(reg, rows, t) && Guarded(reg, k)
    ensures EffectiveAt(reg, masterKey, WriteAll(reg, masterKey, rows, t.Effective()), k)
            == EffectiveAt(reg, masterKey, WriteAll(reg, masterKey, rows, t.changes), k)
  {
    KeptEffect(reg, masterKey, rows, t.changes, t.phase.held, k);
    WriteAllEffect(reg, masterKey, rows, rows, t.changes, k);
    if k !in t.phase.held && exists c :: c in t.changes && c.key == k {
      var c :| c in t.changes && c.key == k;
      var i :| 0 <= i < |t.changes| && t.changes[i] == c;
      ClearedIsUnset(reg, masterKey, rows, t.changes, c);
    }
  }

  lemma {:induction false} UnwrittenStays(reg: Registry, masterKey: nat, rows: Rows, changes: seq<Change>, k: Key)
    requires forall c | c in changes :: c.key != k
    ensures k in WriteAll(reg, masterKey, rows, changes) <==> k in rows
    ensures k in rows ==> WriteAll(reg, masterKey, rows, changes)[k] == rows[k]
  {
    if changes != [] {
      UnwrittenStays(reg, masterKey, rows, changes[..|changes| - 1], k);
      assert changes[|changes| - 1] in changes;
    }
  }

  lemma UnwrittenStaysAbsent(reg: Registry, masterKey: nat, rows: Rows, changes: seq<Change>, k: Key)
    requires k !in rows && forall c | c in changes :: c.key != k
    ensures k !in WriteAll(reg, masterKey, rows, changes)
  {
    UnwrittenStays(reg, masterKey, rows, changes, k);
  }

  /** A commit leaves every row it has not locked as it is, that of a skipped clear included, even if
      another transaction has stored it since. */
  lemma CommitKeepsOtherRows(reg: Registry, masterKey: nat, s: State, id: nat, k: Key)
    requires Enabled(reg, masterKey, s, Commit(id)) && k !in s.open[id].phase.held
    ensures var after := After(reg, masterKey, s, Commit(id)).rows;
            (k in after <==> k in s.rows) && (k in s.rows ==> after[k] == s.rows[k])
  {
    KeptIsPart(s.open[id].changes, s.open[id].phase.held);
    UnwrittenStays(reg, masterKey, s.rows, s.open[id].Effective(), k);
  }

  /** One batch's commit does not bring back a row whose clear another batch skipped. */
  lemma CommitKeepsSkips(reg: Registry, masterKey: nat, s: State, committed: nat, other: nat)
    requires (forall id | id in s.open :: TxnOk(reg, s.open[id])) && Exclusive(s)
    requires committed in s.open && other in s.open && committed != other && s.open[committed].phase.Writing?
    requires SkipsOk(reg, s.rows, s.open[other])
    ensures SkipsOk(reg, WriteAll(reg, masterKey, s.rows, s.open[committed].Effective()), s.open[other])
  {
    var t, u := s.open[other], s.open[committed];
    KeptIsPart(u.changes, u.phase.held);
    if t.phase.Writing? {
      forall i | 0 <= i < t.phase.done && t.changes[i].key !in t.phase.held && Guarded(reg, t.changes[i].key)
        ensures t.changes[i].key !in WriteAll(reg, masterKey, s.rows, u.Effective())
      {
        var k := t.changes[i].key;
        if exists c :: c in u.Effective() && c.key == k {
          var c :| c in u.Effective() && c.key == k;
          BothTouchGuard(reg, t, u, t.changes[i], c);
          var r :| r in reg.rules && r.Touches(TouchedBy(reg, t.changes)) && r.Touches(TouchedBy(reg, u.changes));
          SharedRuleSameTxn(reg, s, committed, other, r);
        }
        UnwrittenStaysAbsent(reg, masterKey, s.rows, u.Effective(), k);
      }
    }
  }

  lemma BothTouchGuard(reg: Registry, t: Txn, u: Txn, mine: Change, theirs: Change)
    requires mine in t.changes && theirs in u.changes && mine.key == theirs.key && Guarded(reg, mine.key)
    ensures exists r :: r in reg.rules && r.Touches(TouchedBy(reg, t.changes)) && r.Touches(TouchedBy(reg, u.changes))
  {
    var r :| r in reg.rules && reg.specs[mine.key].section.value in r.Footprint();
    WritingTouches(reg, r, t.changes, mine);
    WritingTouches(reg, r, u.changes, theirs);
  }

  /** Two checked batches that touch one rule are one batch: the lock on a shared section decides. */
  lemma SharedRuleSameTxn(reg: Registry, s: State, a: nat, b: nat, r: Rule)
    requires (forall id | id in s.open :: TxnOk(reg, s.open[id])) && Exclusive(s)
    requires a in s.open && b in s.open && s.open[a].phase.Writing? && s.open[b].phase.Writing?
    requires r in reg.rules && r.Touches(TouchedBy(reg, s.open[a].changes)) && r.Touches(TouchedBy(reg, s.open[b].changes))
    ensures a == b
  {
    AllLocksHeld(reg, s.open[a], r, r.section);
    AllLocksHeld(reg, s.open[b], r, r.section);
  }

  /** One batch's commit leaves the verdicts another checked batch relies on. */
  lemma CommitKeepsChecks(reg: Registry, masterKey: nat, s: State, committed: nat, other: nat)
    requires forall r | r in reg.rules :: Framed(reg, r)
    requires Sound(reg, masterKey, s) && committed in s.open && other in s.open && committed != other
    requires s.open[committed].phase.Writing? && s.open[other].phase.Writing?
    ensures WouldHold(reg, masterKey, WriteAll(reg, masterKey, s.rows, s.open[committed].Effective()), s.open[other].changes)
  {
    var theirs, mine := s.open[committed].Effective(), s.open[other].changes;
    KeptIsPart(s.open[committed].changes, s.open[committed].phase.held);
    var rows := WriteAll(reg, masterKey, s.rows, theirs);
    forall r | r in reg.rules && r.Touches(TouchedBy(reg, mine))
      ensures r.check(Everything(reg, masterKey, WriteAll(reg, masterKey, rows, mine)))
    {
      var before, after := WriteAll(reg, masterKey, s.rows, mine), WriteAll(reg, masterKey, rows, mine);
      forall k | InSections(reg, k, r.Footprint())
        ensures Get(Everything(reg, masterKey, after), k) == Get(Everything(reg, masterKey, before), k)
      {
        if exists c :: c in theirs && c.key == k {
          var c :| c in theirs && c.key == k;
          WritingTouches(reg, r, s.open[committed].changes, c);
          SharedRuleSameTxn(reg, s, committed, other, r);
        }
        WriteAllEffect(reg, masterKey, s.rows, rows, theirs, k);
        WriteAllEffect(reg, masterKey, s.rows, rows, mine, k);
        WriteAllEffect(reg, masterKey, rows, s.rows, mine, k);
        GetEverything(reg, masterKey, after, k);
        GetEverything(reg, masterKey, before, k);
      }
      SameVerdict(reg, r, Everything(reg, masterKey, after), Everything(reg, masterKey, before));
    }
  }

  lemma CommitKeepsRules(reg: Registry, masterKey: nat, s: State, id: nat)
    requires forall r | r in reg.rules :: Framed(reg, r)
    requires Sound(reg, masterKey, s) && id in s.open && s.open[id].phase.Writing? && s.open[id].phase.done == |s.open[id].changes|
    ensures RulesHold(reg, masterKey, WriteAll(reg, masterKey, s.rows, s.open[id].Effective()))
  {
    var t := s.open[id];
    var whole, left := WriteAll(reg, masterKey, s.rows, t.changes), WriteAll(reg, masterKey, s.rows, t.Effective());
    forall r | r in reg.rules
      ensures r.check(Everything(reg, masterKey, left))
    {
      if !r.Touches(TouchedBy(reg, t.changes)) {
        UntouchedKeepsVerdict(reg, masterKey, s.rows, t.changes, r);
      }
      forall k | InSections(reg, k, r.Footprint())
        ensures Get(Everything(reg, masterKey, left), k) == Get(Everything(reg, masterKey, whole), k)
      {
        CommitLeavesAll(reg, masterKey, s.rows, t, k);
        GetEverything(reg, masterKey, left, k);
        GetEverything(reg, masterKey, whole, k);
      }
      SameVerdict(reg, r, Everything(reg, masterKey, left), Everything(reg, masterKey, whole));
    }
  }

  /** Gaining a free resource, or letting go of everything, keeps resources exclusive. */
  lemma ExclusiveStep(reg: Registry, masterKey: nat, s: State, step: Step)
    requires (forall id | id in s.open :: TxnOk(reg, s.open[id])) && Exclusive(s) && Enabled(reg, masterKey, s, step)
    ensures Exclusive(After(reg, masterKey, s, step))
  {
    var t := After(reg, masterKey, s, step);
    forall id, r | id in t.open && t.open[id].Holds(r)
      ensures (id in s.open && s.open[id].Holds(r)) || (step.id == id && Free(s, id, r))
    {
      GainsOnlyFree(reg, masterKey, s, step, id, r);
    }
  }

  lemma GainsOnlyFree(reg: Registry, masterKey: nat, s: State, step: Step, id: nat, r: Resource)
    requires (forall i | i in s.open :: TxnOk(reg, s.open[i])) && Enabled(reg, masterKey, s, step)
    requires id in After(reg, masterKey, s, step).open && After(reg, masterKey, s, step).open[id].Holds(r)
    ensures (id in s.open && s.open[id].Holds(r)) || (step.id == id && Free(s, id, r))
  {
    if step.Lock? && step.id == id {
      var locks, got := s.open[id].locks, s.open[id].phase.got;
      assert locks[..got + 1] == locks[..got] + [locks[got]];
    } else if step.LoadAndCheck? && step.id == id {
      var locks := s.open[id].locks;
      assert locks[..|locks|] == locks;
    }
  }

  lemma CommitSound(reg: Registry, masterKey: nat, s: State, id: nat)
    requires forall r | r in reg.rules :: Framed(reg, r)
    requires Sound(reg, masterKey, s) && Enabled(reg, masterKey, s, Commit(id))
    ensures Sound(reg, masterKey, After(reg, masterKey, s, Commit(id)))
  {
    ExclusiveStep(reg, masterKey, s, Commit(id));
    CommitKeepsRules(reg, masterKey, s, id);
    var rows := WriteAll(reg, masterKey, s.rows, s.open[id].Effective());
    forall other | other in s.open && other != id
      ensures SkipsOk(reg, rows, s.open[other])
      ensures s.open[other].phase.Writing? ==> WouldHold(reg, masterKey, rows, s.open[other].changes)
    {
      CommitKeepsSkips(reg, masterKey, s, id, other);
      if s.open[other].phase.Writing? {
        CommitKeepsChecks(reg, masterKey, s, id, other);
      }
    }
  }

  /** One more change performed: locked, or skipped because there was nothing to clear. */
  lemma PerformedOk(reg: Registry, rows: Rows, t: Txn)
    requires TxnOk(reg, t) && SkipsOk(reg, rows, t) && t.phase.Writing? && t.phase.done < |t.changes|
    ensures TxnOk(reg, Performed(reg, rows, t)) && SkipsOk(reg, rows, Performed(reg, rows, t))
  {
  }

  lemma OneMovesSound(reg: Registry, masterKey: nat, s: State, id: nat, t: Txn)
    requires Sound(reg, masterKey, s) && TxnOk(reg, t) && SkipsOk(reg, s.rows, t)
    requires t.phase.Writing? ==> WouldHold(reg, masterKey, s.rows, t.changes)
    requires Exclusive(s.(open := s.open[id := t]))
    ensures Sound(reg, masterKey, s.(open := s.open[id := t]))
  {
  }

  lemma SoundStep(reg: Registry, masterKey: nat, s: State, step: Step)
    requires forall r | r in reg.rules :: Framed(reg, r)
    requires Sound(reg, masterKey, s) && Enabled(reg, masterKey, s, step)
    ensures Sound(reg, masterKey, After(reg, masterKey, s, step))
  {
    ExclusiveStep(reg, masterKey, s, step);
    match step
    case Commit(id) =>
      CommitSound(reg, masterKey, s, id);
    case Abort(id) =>
    case Begin(id, changes, locks) =>
      OneMovesSound(reg, masterKey, s, id, Txn(changes, locks, Locking(0)));
    case Lock(id) =>
      OneMovesSound(reg, masterKey, s, id, s.open[id].(phase := Locking(s.open[id].phase.got + 1)));
    case LoadAndCheck(id) =>
      PassesMeansWouldHold(reg, masterKey, s.rows, s.open[id].changes);
      OneMovesSound(reg, masterKey, s, id, s.open[id].(phase := Writing(0, {})));
    case Write(id) =>
      PerformedOk(reg, s.rows, s.open[id]);
      OneMovesSound(reg, masterKey, s, id, Performed(reg, s.rows, s.open[id]));
  }

  /** In every run, whatever the interleaving, every section rule holds on the effective values
      after every commit, if it held at the start. */
  lemma {:induction false} RulesSurviveEveryRun(reg: Registry, masterKey: nat, run: seq<State>, steps: seq<Step>, i: nat)
    requires forall r | r in reg.rules :: Framed(reg, r)
    requires IsRun(reg, masterKey, run, steps) && i < |run|
    requires RulesHold(reg, masterKey, run[0].rows)
    ensures Sound(reg, masterKey, run[i]) && RulesHold(reg, masterKey, run[i].rows)
  {
    if i > 0 {
      RulesSurviveEveryRun(reg, masterKey, run, steps, i - 1);
      SoundStep(reg, masterKey, run[i - 1], steps[i - 1]);
    }
  }

  /*********************** Deadlock ***********************/

  ghost predicate Waits(reg: Registry, s: State, a: nat, b: nat) {
    && a in s.open && b in s.open && a != b
    && Wants(reg, s.rows, s.open[a]).Some? && s.open[b].Holds(Wants(reg, s.rows, s.open[a]).value)
  }

  /** A closed circle of waiting: each of these transactions waits for its partner, who is one
      of them too. */
  ghost predicate Deadlock(reg: Registry, s: State, among: set<nat>, partner: nat -> nat) {
    among != {} && forall a {:trigger partner(a)} | a in among :: partner(a) in among && Waits(reg, s, a, partner(a))
  }

  /** The keys no section lock guards are listed in one agreed order. */
  ghost predicate InOrder(reg: Registry, changes: seq<Change>, rank: Key -> nat) {
    forall i, j | 0 <= i < j < |changes| && !Guarded(reg, changes[i].key) && !Guarded(reg, changes[j].key) ::
      rank(changes[i].key) < rank(changes[j].key)
  }

  ghost predicate Orderly(reg: Registry, s: State, rank: Key -> nat) {
    && (forall id | id in s.open :: TxnOk(reg, s.open[id]) && InOrder(reg, s.open[id].changes, rank))
    && Exclusive(s)
  }

  /** The order in which every transaction acquires what others may hold: section locks by name,
      then unguarded rows by rank. */
  predicate Below(r: Resource, t: Resource, rank: Key -> nat) {
    match (r, t)
    case (SectionLock(a), SectionLock(b)) => a < b
    case (SectionLock(_), RowLock(_)) => true
    case (RowLock(_), SectionLock(_)) => false
    case (RowLock(a), RowLock(b)) => rank(a) < rank(b)
  }

  /** Nobody waits for a row whose section is guarded: the section lock came first. */
  lemma GuardedRowIsFree(reg: Registry, s: State, a: nat, b: nat, k: Key)
    requires (forall id | id in s.open :: TxnOk(reg, s.open[id])) && Exclusive(s)
    requires Waits(reg, s, a, b) && Wants(reg, s.rows, s.open[a]) == Some(RowLock(k))
    ensures !Guarded(reg, k)
  {
    if Guarded(reg, k) {
      var t, u := s.open[a], s.open[b];
      var mine := t.changes[t.phase.done];
      assert mine in t.changes;
      var i :| 0 <= i < u.phase.done && u.changes[i].key == k;
      BothTouchGuard(reg, t, u, mine, u.changes[i]);
      var r :| r in reg.rules && r.Touches(TouchedBy(reg, t.changes)) && r.Touches(TouchedBy(reg, u.changes));
      SharedRuleSameTxn(reg, s, a, b, r);
    }
  }

  /** Following a wait leads strictly upwards. */
  lemma WaitClimbs(reg: Registry, s: State, a: nat, b: nat, c: nat, rank: Key -> nat)
    requires Orderly(reg, s, rank) && Waits(reg, s, a, b) && Waits(reg, s, b, c)
    ensures Below(Wants(reg, s.rows, s.open[a]).value, Wants(reg, s.rows, s.open[b]).value, rank)
  {
    var held, wanted, t := Wants(reg, s.rows, s.open[a]).value, Wants(reg, s.rows, s.open[b]).value, s.open[b];
    if wanted.RowLock? {
      GuardedRowIsFree(reg, s, b, c, wanted.key);
      if held.RowLock? {
        GuardedRowIsFree(reg, s, a, b, held.key);
        var i :| 0 <= i < t.phase.done && t.changes[i].key == held.key;
        assert t.changes[i].key == held.key && t.changes[t.phase.done].key == wanted.key;
      }
    }
  }

  /** Among finitely many waiting transactions one wants a resource none of the others' is above. */
  lemma {:induction false} Topmost(reg: Registry, s: State, among: set<nat>, rank: Key -> nat) returns (top: nat)
    requires among != {} && forall a | a in among :: a in s.open && Wants(reg, s.rows, s.open[a]).Some?
    ensures top in among
    ensures forall a | a in among :: !Below(Wants(reg, s.rows, s.open[top]).value, Wants(reg, s.rows, s.open[a]).value, rank)
    decreases |among|
  {
    var x :| x in among;
    var rest := among - {x};
    if rest == {} {
      top := x;
      assert among == {x};
    } else {
      var y := Topmost(reg, s, rest, rank);
      top := if Below(Wants(reg, s.rows, s.open[y]).value, Wants(reg, s.rows, s.open[x]).value, rank) then x else y;
    }
  }

  lemma AllWait(reg: Registry, s: State, among: set<nat>, partner: nat -> nat)
    requires Deadlock(reg, s, among, partner)
    ensures forall a | a in among :: a in s.open && Wants(reg, s.rows, s.open[a]).Some?
  {
    forall a | a in among
      ensures a in s.open && Wants(reg, s.rows, s.open[a]).Some?
    {
      assert Waits(reg, s, a, partner(a));
    }
  }

  lemma OrderlyHasNoDeadlock(reg: Registry, s: State, among: set<nat>, partner: nat -> nat, rank: Key -> nat)
    requires Orderly(reg, s, rank)
    ensures !Deadlock(reg, s, among, partner)
  {
    if Deadlock(reg, s, among, partner) {
      AllWait(reg, s, among, partner);
      var top := Topmost(reg, s, among, rank);
      var next := partner(top);
      assert Waits(reg, s, top, next) && Waits(reg, s, next, partner(next));
      WaitClimbs(reg, s, top, next, partner(next), rank);
    }
  }

  lemma {:induction false} OrderlyAlways(reg: Registry, masterKey: nat, run: seq<State>, steps: seq<Step>, i: nat, rank: Key -> nat)
    requires IsRun(reg, masterKey, run, steps) && i < |run|
    requires forall k | 0 <= k < |steps| && steps[k].Begin? :: InOrder(reg, steps[k].changes, rank)
    ensures Orderly(reg, run[i], rank)
  {
    if i > 0 {
      OrderlyAlways(reg, masterKey, run, steps, i - 1, rank);
      OrderlyStep(reg, masterKey, run[i - 1], steps[i - 1], rank);
    }
  }

  lemma OrderlyStep(reg: Registry, masterKey: nat, s: State, step: Step, rank: Key -> nat)
    requires Orderly(reg, s, rank) && Enabled(reg, masterKey, s, step)
    requires step.Begin? ==> InOrder(reg, step.changes, rank)
    ensures Orderly(reg, After(reg, masterKey, s, step), rank)
  {
    ExclusiveStep(reg, masterKey, s, step);
  }

  /** Batches that list their unguarded keys in one agreed order never deadlock, in any run. */
  lemma NoDeadlock(reg: Registry, masterKey: nat, run: seq<State>, steps: seq<Step>, i: nat,
                   among: set<nat>, partner: nat -> nat, rank: Key -> nat)
    requires IsRun(reg, masterKey, run, steps) && i < |run|
    requires forall k | 0 <= k < |steps| && steps[k].Begin? :: InOrder(reg, steps[k].changes, rank)
    ensures !Deadlock(reg, run[i], among, partner)
  {
    OrderlyAlways(reg, masterKey, run, steps, i, rank);
    OrderlyHasNoDeadlock(reg, run[i], among, partner, rank);
  }
}
