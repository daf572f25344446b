/** Exactly when batches that are applied at the same time can deadlock. */
module SettingsDeadlock {
  import opened Outcomes
  import opened Settings
  import opened SettingsRuns

  /** The batches, by transaction. */
  type Family = map<nat, seq<Change>>

  /*********************** What a batch locks ***********************/

  /** The sections a batch locks, and the row each of its changes locks, none for an idle one. */
  datatype Plan = Plan(sections: set<Section>, needs: seq<Option<Key>>)

  type Plans = map<nat, Plan>

  ghost function LockSet(reg: Registry, changes: seq<Change>): set<Section> {
    var touched := TouchedBy(reg, changes);
    if exists r :: r in reg.rules && r.Touches(touched) then LoadSet(reg, touched) else {}
  }

  function Needs(reg: Registry, rows: Rows, changes: seq<Change>): (needs: seq<Option<Key>>)
    ensures |needs| == |changes|
    ensures forall i | 0 <= i < |changes| :: needs[i] == if Idle(reg, rows, changes[i]) then None else Some(changes[i].key)
  {
    seq(|changes|, i requires 0 <= i < |changes| => if Idle(reg, rows, changes[i]) then None else Some(changes[i].key))
  }

  ghost predicate Able(reg: Registry, masterKey: nat, rows: Rows, changes: seq<Change>) {
    Admissible(reg, changes) && Passes(reg, masterKey, rows, changes)
  }

  ghost function PlanOf(reg: Registry, rows: Rows, changes: seq<Change>): Plan {
    Plan(LockSet(reg, changes), Needs(reg, rows, changes))
  }

  /** The sections are those a transaction of the batch takes. */
  lemma LockSetIsTaken(reg: Registry, changes: seq<Change>, locks: seq<Section>)
    requires LocksFor(reg, changes, locks)
    ensures forall s :: s in LockSet(reg, changes) <==> s in locks
  {
    assert forall s :: s in SetOf(locks) <==> s in locks;
  }

  /** The plans of the batches that pass validation and their rules. */
  ghost predicate ArePlans(reg: Registry, masterKey: nat, rows: Rows, family: Family, plans: Plans) {
    && (forall id :: id in plans <==> id in family && Able(reg, masterKey, rows, family[id]))
    && forall id | id in plans :: plans[id] == PlanOf(reg, rows, family[id])
  }

  /** The rows the first p changes lock. */
  function Locked(needs: seq<Option<Key>>, p: nat): set<Key> {
    set i | 0 <= i < |needs| && i < p && needs[i].Some? :: needs[i].value
  }

  /*********************** The condition ***********************/

  /** Some members can be cut so that no two share a section, or a row locked before the cut, and
      each one's next change needs a row that its partner has locked. */
  ghost predicate Stuck(plans: Plans, cuts: map<nat, nat>, partner: nat -> nat) {
    AllBlocked(plans, cuts, partner) && AllApart(plans, cuts)
  }

  ghost predicate AllBlocked(plans: Plans, cuts: map<nat, nat>, partner: nat -> nat) {
    && cuts != map[] && cuts.Keys <= plans.Keys
    && forall a {:trigger partner(a)} | a in cuts :: BlockedBy(plans, cuts, a, partner(a))
  }

  ghost predicate BlockedBy(plans: Plans, cuts: map<nat, nat>, a: nat, b: nat) {
    a in cuts && b in cuts && a in plans && b in plans && Blocked(plans[a].needs, cuts[a], plans[b].needs, cuts[b])
  }

  ghost predicate AllApart(plans: Plans, cuts: map<nat, nat>) {
    && cuts.Keys <= plans.Keys
    && (forall a | a in cuts :: cuts[a] <= |plans[a].needs|)
    && forall a, b | a in cuts && b in cuts && a != b :: Apart(plans[a], cuts[a], plans[b], cuts[b])
  }

  predicate Blocked(a: seq<Option<Key>>, p: nat, b: seq<Option<Key>>, q: nat) {
    p < |a| && a[p].Some? && a[p].value in Locked(b, q)
  }

  predicate Apart(a: Plan, p: nat, b: Plan, q: nat) {
    a.sections !! b.sections && Locked(a.needs, p) !! Locked(b.needs, q)
  }

  /*********************** Runs of a family ***********************/

  predicate FamilyStep(family: Family, step: Step) {
    && !step.Commit?
    && (step.Begin? ==> step.id in family && step.changes == family[step.id])
  }

  ghost predicate Reaches(reg: Registry, masterKey: nat, rows: Rows, family: Family, s: State, run: seq<State>, steps: seq<Step>) {
    && IsRun(reg, masterKey, run, steps) && run[0] == State(rows, map[]) && run[|steps|] == s
    && forall k | 0 <= k < |steps| :: FamilyStep(family, steps[k])
  }

  /** A state that some run of the batches reaches, none of them having committed. */
  ghost predicate Reachable(reg: Registry, masterKey: nat, rows: Rows, family: Family, s: State) {
    exists run, steps :: Reaches(reg, masterKey, rows, family, s, run, steps)
  }

  /** Some of them can come to wait for each other for ever. */
  ghost predicate CanDeadlock(reg: Registry, masterKey: nat, rows: Rows, family: Family) {
    exists s, among, partner :: Reachable(reg, masterKey, rows, family, s) && Deadlock(reg, s, among, partner)
  }

  /*********************** A deadlock is stuck ***********************/

  /** Section locks are taken upwards. */
  ghost predicate LocksUp(t: Txn) {
    t.phase.Locking? ==> Ascending(t.locks) && t.phase.got <= |t.locks|
  }

  ghost predicate AllLocksUp(s: State) {
    forall id | id in s.open :: LocksUp(s.open[id])
  }

  lemma LockClimbs(reg: Registry, s: State, a: nat, b: nat, c: nat)
    requires Waits(reg, s, a, b) && Waits(reg, s, b, c) && LocksUp(s.open[b])
    requires s.open[a].phase.Locking? && s.open[b].phase.Locking?
    ensures Below(Wants(reg, s.rows, s.open[a]).value, Wants(reg, s.rows, s.open[b]).value, k => 0)
  {
  }

  /** So not everyone in a deadlock waits for a section. */
  lemma SomeWrite(reg: Registry, s: State, among: set<nat>, partner: nat -> nat) returns (writer: nat)
    requires AllLocksUp(s) && Deadlock(reg, s, among, partner)
    ensures writer in among && writer in s.open && s.open[writer].phase.Writing?
  {
    AllWait(reg, s, among, partner);
    var top := Topmost(reg, s, among, k => 0);
    var next := partner(top);
    var after := partner(next);
    assert Waits(reg, s, top, next) && Waits(reg, s, next, after);
    if s.open[top].phase.Locking? && s.open[next].phase.Locking? {
      LockClimbs(reg, s, top, next, after);
    }
    writer := if s.open[top].phase.Writing? then top else next;
  }

  /** Who waits for a row waits for someone who is writing, too. */
  lemma WritersWait(reg: Registry, s: State, a: nat, b: nat)
    requires Waits(reg, s, a, b) && s.open[a].phase.Writing?
    ensures s.open[b].phase.Writing? && s.open[a].phase.done < |s.open[a].changes|
    ensures !Idle(reg, s.rows, s.open[a].changes[s.open[a].phase.done])
    ensures s.open[a].changes[s.open[a].phase.done].key in s.open[b].phase.held
  {
  }

  /** Two transactions that write share no section and no row. */
  lemma WritersShareNothing(reg: Registry, s: State, a: nat, b: nat)
    requires Exclusive(s) && a in s.open && b in s.open && a != b && s.open[a].phase.Writing? && s.open[b].phase.Writing?
    requires TxnOk(reg, s.open[a]) && TxnOk(reg, s.open[b])
    ensures LockSet(reg, s.open[a].changes) !! LockSet(reg, s.open[b].changes)
    ensures s.open[a].phase.held !! s.open[b].phase.held
  {
    var t, u := s.open[a], s.open[b];
    assert SetOf(t.locks) == LockSet(reg, t.changes) && SetOf(u.locks) == LockSet(reg, u.changes);
    assert forall x | x in SetOf(t.locks) :: t.Holds(SectionLock(x));
    assert forall x | x in SetOf(u.locks) :: u.Holds(SectionLock(x));
    assert forall k | k in t.phase.held :: t.Holds(RowLock(k));
    assert forall k | k in u.phase.held :: u.Holds(RowLock(k));
  }

  /** What every run of a family keeps. */
  ghost predicate FamilyOk(reg: Registry, masterKey: nat, rows: Rows, family: Family, s: State) {
    && s.rows == rows && Exclusive(s)
    && forall id | id in s.open :: id in family && s.open[id].changes == family[id] && MemberOk(reg, masterKey, rows, s.open[id])
  }

  ghost predicate MemberOk(reg: Registry, masterKey: nat, rows: Rows, t: Txn) {
    && TxnOk(reg, t)
    && (t.phase.Writing? ==>
          && Passes(reg, masterKey, rows, t.changes)
          && t.phase.held == Locked(Needs(reg, rows, t.changes), t.phase.done))
  }

  lemma LockedGrows(needs: seq<Option<Key>>, p: nat)
    requires p < |needs|
    ensures Locked(needs, p + 1) == if needs[p].Some? then Locked(needs, p) + {needs[p].value} else Locked(needs, p)
    ensures needs[p].Some? ==> needs[p].value in Locked(needs, p + 1)
  {
  }

  lemma PerformedMember(reg: Registry, masterKey: nat, rows: Rows, t: Txn)
    requires MemberOk(reg, masterKey, rows, t) && t.phase.Writing? && t.phase.done < |t.changes|
    ensures MemberOk(reg, masterKey, rows, Performed(reg, rows, t))
  {
    LockedGrows(Needs(reg, rows, t.changes), t.phase.done);
  }

  lemma FamilyKept(reg: Registry, masterKey: nat, rows: Rows, family: Family, s: State, step: Step)
    requires FamilyOk(reg, masterKey, rows, family, s) && Enabled(reg, masterKey, s, step) && FamilyStep(family, step)
    ensures FamilyOk(reg, masterKey, rows, family, After(reg, masterKey, s, step))
  {
    ExclusiveStep(reg, masterKey, s, step);
    if step.Write? {
      PerformedMember(reg, masterKey, rows, s.open[step.id]);
    }
  }

  lemma {:induction false} FamilyAlways(reg: Registry, masterKey: nat, rows: Rows, family: Family,
                                        run: seq<State>, steps: seq<Step>, i: nat)
    requires IsRun(reg, masterKey, run, steps) && run[0] == State(rows, map[]) && i < |run|
    requires forall k | 0 <= k < |steps| :: FamilyStep(family, steps[k])
    ensures FamilyOk(reg, masterKey, rows, family, run[i])
  {
    if i > 0 {
      FamilyAlways(reg, masterKey, rows, family, run, steps, i - 1);
      FamilyKept(reg, masterKey, rows, family, run[i - 1], steps[i - 1]);
    }
  }

  /** Where a writing member stands, in terms of its plan. */
  ghost predicate PlannedAt(reg: Registry, rows: Rows, plan: Plan, t: Txn) {
    && t.phase.Writing? && t.phase.done <= |t.changes|
    && plan.needs == Needs(reg, rows, t.changes) && t.phase.held == Locked(plan.needs, t.phase.done)
  }

  ghost predicate Positioned(reg: Registry, plans: Plans, s: State) {
    && AllLocksUp(s)
    && (forall a | a in s.open && s.open[a].phase.Writing? :: a in plans && PlannedAt(reg, s.rows, plans[a], s.open[a]))
    && (forall a, b | a in s.open && b in s.open && a != b && s.open[a].phase.Writing? && s.open[b].phase.Writing? ::
          plans[a].sections !! plans[b].sections && s.open[a].phase.held !! s.open[b].phase.held)
  }

  lemma WriterIsPlanned(reg: Registry, masterKey: nat, rows: Rows, family: Family, plans: Plans, s: State, a: nat)
    requires FamilyOk(reg, masterKey, rows, family, s) && ArePlans(reg, masterKey, rows, family, plans)
    requires a in s.open && s.open[a].phase.Writing?
    ensures a in plans && plans[a].sections == LockSet(reg, s.open[a].changes) && PlannedAt(reg, rows, plans[a], s.open[a])
  {
    assert MemberOk(reg, masterKey, rows, s.open[a]);
    assert Able(reg, masterKey, rows, family[a]);
  }

  lemma FamilyIsPositioned(reg: Registry, masterKey: nat, rows: Rows, family: Family, plans: Plans, s: State)
    requires FamilyOk(reg, masterKey, rows, family, s) && ArePlans(reg, masterKey, rows, family, plans)
    ensures Positioned(reg, plans, s)
  {
    forall a | a in s.open && s.open[a].phase.Writing?
      ensures a in plans && PlannedAt(reg, s.rows, plans[a], s.open[a])
    {
      WriterIsPlanned(reg, masterKey, rows, family, plans, s, a);
    }
    forall a, b | a in s.open && b in s.open && a != b && s.open[a].phase.Writing? && s.open[b].phase.Writing?
      ensures plans[a].sections !! plans[b].sections && s.open[a].phase.held !! s.open[b].phase.held
    {
      WriterIsPlanned(reg, masterKey, rows, family, plans, s, a);
      WriterIsPlanned(reg, masterKey, rows, family, plans, s, b);
      WritersShareNothing(reg, s, a, b);
    }
  }

  lemma WaitIsBlock(reg: Registry, s: State, a: nat, b: nat, pa: Plan, pb: Plan)
    requires Waits(reg, s, a, b) && s.open[a].phase.Writing? && s.open[b].phase.Writing?
    requires PlannedAt(reg, s.rows, pa, s.open[a]) && PlannedAt(reg, s.rows, pb, s.open[b])
    ensures Blocked(pa.needs, s.open[a].phase.done, pb.needs, s.open[b].phase.done)
  {
    WritersWait(reg, s, a, b);
  }

  lemma WriterBlocked(reg: Registry, plans: Plans, s: State, a: nat, b: nat)
    requires Positioned(reg, plans, s) && Waits(reg, s, a, b) && s.open[a].phase.Writing?
    ensures s.open[b].phase.Writing? && a in plans && b in plans
    ensures Blocked(plans[a].needs, s.open[a].phase.done, plans[b].needs, s.open[b].phase.done)
  {
    WritersWait(reg, s, a, b);
    WaitIsBlock(reg, s, a, b, plans[a], plans[b]);
  }

  /** Those who write, and where they stand. */
  ghost function Cuts(s: State, among: set<nat>): map<nat, nat> {
    map a | a in among && a in s.open && s.open[a].phase.Writing? :: s.open[a].phase.done
  }

  lemma WritersBlocked(reg: Registry, plans: Plans, s: State, among: set<nat>, partner: nat -> nat)
    requires Positioned(reg, plans, s) && Deadlock(reg, s, among, partner)
    ensures AllBlocked(plans, Cuts(s, among), partner)
  {
    var w := SomeWrite(reg, s, among, partner);
    assert w in Cuts(s, among);
    forall a {:trigger partner(a)} | a in Cuts(s, among)
      ensures BlockedBy(plans, Cuts(s, among), a, partner(a))
    {
      assert Waits(reg, s, a, partner(a));
      WriterBlocked(reg, plans, s, a, partner(a));
    }
  }

  lemma WritersApart(reg: Registry, plans: Plans, s: State, among: set<nat>)
    requires Positioned(reg, plans, s)
    ensures AllApart(plans, Cuts(s, among))
  {
  }

  /** The writers of a deadlock are in a stuck position. */
  lemma DeadlockIsStuck(reg: Registry, plans: Plans, s: State, among: set<nat>, partner: nat -> nat)
    requires Positioned(reg, plans, s) && Deadlock(reg, s, among, partner)
    ensures Stuck(plans, Cuts(s, among), partner)
  {
    WritersBlocked(reg, plans, s, among, partner);
    WritersApart(reg, plans, s, among);
  }

  /*********************** A stuck family deadlocks ***********************/

  lemma ReachStep(reg: Registry, masterKey: nat, rows: Rows, family: Family, s: State, step: Step)
    requires Reachable(reg, masterKey, rows, family, s) && Enabled(reg, masterKey, s, step) && FamilyStep(family, step)
    ensures Reachable(reg, masterKey, rows, family, After(reg, masterKey, s, step))
  {
    var run, steps :| Reaches(reg, masterKey, rows, family, s, run, steps);
    var t := After(reg, masterKey, s, step);
    assert Reaches(reg, masterKey, rows, family, t, run + [t], steps + [step]);
  }

  lemma SortedExists(sections: set<Section>) returns (sorted: seq<Section>)
    ensures Ascending(sorted) && SetOf(sorted) == sections
    decreases |sections|
  {
    if sections == {} {
      sorted := [];
    } else {
      var top := Greatest(sections);
      var rest := SortedExists(sections - {top});
      sorted := rest + [top];
      AppendSorted(rest, sections - {top}, top);
      assert SetOf(sorted) == sections;
    }
  }

  lemma AppendSorted(rest: seq<Section>, below: set<Section>, top: Section)
    requires Ascending(rest) && SetOf(rest) == below && forall s | s in below :: s < top
    ensures Ascending(rest + [top]) && SetOf(rest + [top]) == below + {top}
  {
    assert forall s | s in rest :: s in SetOf(rest);
    assert forall i | 0 <= i < |rest| :: rest[i] in rest;
    forall s
      ensures s in SetOf(rest + [top]) <==> s in below + {top}
    {
      assert s in rest + [top] <==> s in rest || s == top;
      assert s in rest <==> s in SetOf(rest);
    }
  }

  lemma Greatest(sections: set<Section>) returns (top: Section)
    requires sections != {}
    ensures top in sections && forall s | s in sections :: s <= top
    decreases |sections|
  {
    var x :| x in sections;
    var rest := sections - {x};
    if rest == {} {
      assert sections == {x};
      top := x;
    } else {
      var other := Greatest(rest);
      top := if other > x then other else x;
      assert forall s | s in sections :: s == x || s in rest;
    }
  }

  lemma LocksExist(reg: Registry, changes: seq<Change>) returns (locks: seq<Section>)
    ensures LocksFor(reg, changes, locks) && SetOf(locks) == LockSet(reg, changes)
  {
    locks := SortedExists(LockSet(reg, changes));
  }

  function With(s: State, id: nat, t: Txn): State {
    s.(open := s.open[id := t])
  }

  /** Nobody holds any of these. */
  ghost predicate Untaken(s: State, sections: set<Section>, keys: set<Key>) {
    forall other | other in s.open ::
      && (forall x | x in sections :: !s.open[other].Holds(SectionLock(x)))
      && (forall k | k in keys :: !s.open[other].Holds(RowLock(k)))
  }

  /** One more lock. */
  lemma LockIsFree(reg: Registry, masterKey: nat, s: State, id: nat, changes: seq<Change>, locks: seq<Section>, got: nat)
    requires id !in s.open && got < |locks| && Untaken(s, SetOf(locks), {})
    ensures var t := With(s, id, Txn(changes, locks, Locking(got)));
            && Enabled(reg, masterKey, t, Lock(id))
            && After(reg, masterKey, t, Lock(id)) == With(s, id, Txn(changes, locks, Locking(got + 1)))
  {
    var t := With(s, id, Txn(changes, locks, Locking(got)));
    assert locks[got] in SetOf(locks);
    assert Free(t, id, SectionLock(locks[got]));
    assert After(reg, masterKey, t, Lock(id)).open == s.open[id := Txn(changes, locks, Locking(got + 1))];
  }

  lemma {:induction false} ReachLocking(reg: Registry, masterKey: nat, rows: Rows, family: Family, s: State, id: nat,
                                        changes: seq<Change>, locks: seq<Section>, got: nat)
    requires Reachable(reg, masterKey, rows, family, s) && id !in s.open && id in family && family[id] == changes
    requires Admissible(reg, changes) && LocksFor(reg, changes, locks) && Untaken(s, SetOf(locks), {}) && got <= |locks|
    ensures Reachable(reg, masterKey, rows, family, With(s, id, Txn(changes, locks, Locking(got))))
    decreases got
  {
    if got == 0 {
      ReachStep(reg, masterKey, rows, family, s, Begin(id, changes, locks));
    } else {
      ReachLocking(reg, masterKey, rows, family, s, id, changes, locks, got - 1);
      LockIsFree(reg, masterKey, s, id, changes, locks, got - 1);
      ReachStep(reg, masterKey, rows, family, With(s, id, Txn(changes, locks, Locking(got - 1))), Lock(id));
    }
  }

  lemma CheckPasses(reg: Registry, masterKey: nat, s: State, id: nat, changes: seq<Change>, locks: seq<Section>)
    requires id !in s.open && Passes(reg, masterKey, s.rows, changes)
    ensures var t := With(s, id, Txn(changes, locks, Locking(|locks|)));
            && Enabled(reg, masterKey, t, LoadAndCheck(id))
            && After(reg, masterKey, t, LoadAndCheck(id)) == With(s, id, Txn(changes, locks, Writing(0, {})))
  {
    var t := With(s, id, Txn(changes, locks, Locking(|locks|)));
    assert After(reg, masterKey, t, LoadAndCheck(id)).open == s.open[id := Txn(changes, locks, Writing(0, {}))];
  }

  function Written(needs: seq<Option<Key>>, changes: seq<Change>, locks: seq<Section>, p: nat): Txn {
    Txn(changes, locks, Writing(p, Locked(needs, p)))
  }

  /** One more change. */
  lemma WriteIsFree(reg: Registry, masterKey: nat, s: State, id: nat, changes: seq<Change>, locks: seq<Section>, p: nat)
    requires id !in s.open && p < |changes| && Untaken(s, {}, Locked(Needs(reg, s.rows, changes), p + 1))
    ensures var needs := Needs(reg, s.rows, changes);
            var t := With(s, id, Written(needs, changes, locks, p));
            && Enabled(reg, masterKey, t, Write(id))
            && After(reg, masterKey, t, Write(id)) == With(s, id, Written(needs, changes, locks, p + 1))
  {
    var needs := Needs(reg, s.rows, changes);
    var x := Written(needs, changes, locks, p);
    var t := With(s, id, x);
    LockedGrows(needs, p);
    if needs[p].Some? {
      assert Free(t, id, RowLock(changes[p].key));
    }
    assert Performed(reg, s.rows, x) == Written(needs, changes, locks, p + 1);
    assert After(reg, masterKey, t, Write(id)).open == s.open[id := Written(needs, changes, locks, p + 1)];
  }

  lemma {:induction false} ReachWriting(reg: Registry, masterKey: nat, rows: Rows, family: Family, s: State, id: nat,
                                        changes: seq<Change>, locks: seq<Section>, p: nat)
    requires Reachable(reg, masterKey, rows, family, With(s, id, Written(Needs(reg, rows, changes), changes, locks, 0)))
    requires s.rows == rows && id !in s.open && p <= |changes| && Untaken(s, {}, Locked(Needs(reg, rows, changes), p))
    ensures Reachable(reg, masterKey, rows, family, With(s, id, Written(Needs(reg, rows, changes), changes, locks, p)))
    decreases p
  {
    var needs := Needs(reg, rows, changes);
    if p > 0 {
      LockedGrows(needs, p - 1);
      ReachWriting(reg, masterKey, rows, family, s, id, changes, locks, p - 1);
      WriteIsFree(reg, masterKey, s, id, changes, locks, p - 1);
      ReachStep(reg, masterKey, rows, family, With(s, id, Written(needs, changes, locks, p - 1)), Write(id));
    }
  }

  lemma ReachChecked(reg: Registry, masterKey: nat, rows: Rows, family: Family, s: State, id: nat,
                     changes: seq<Change>, locks: seq<Section>)
    requires Reachable(reg, masterKey, rows, family, s) && s.rows == rows && id !in s.open && id in family && family[id] == changes
    requires Able(reg, masterKey, rows, changes) && LocksFor(reg, changes, locks) && Untaken(s, SetOf(locks), {})
    ensures Reachable(reg, masterKey, rows, family, With(s, id, Written(Needs(reg, rows, changes), changes, locks, 0)))
  {
    ReachLocking(reg, masterKey, rows, family, s, id, changes, locks, |locks|);
    CheckPasses(reg, masterKey, s, id, changes, locks);
    ReachStep(reg, masterKey, rows, family, With(s, id, Txn(changes, locks, Locking(|locks|))), LoadAndCheck(id));
    assert Locked(Needs(reg, rows, changes), 0) == {};
  }

  /** A member that has performed the first p changes of its batch. */
  ghost predicate InPlan(reg: Registry, rows: Rows, plan: Plan, p: nat, t: Txn) {
    && SetOf(t.locks) == plan.sections && t.phase == Writing(p, Locked(plan.needs, p))
    && plan.needs == Needs(reg, rows, t.changes) && Distinct(t.changes)
  }

  /** These members, and no others, stand at their cuts. */
  ghost predicate Standing(reg: Registry, plans: Plans, cuts: map<nat, nat>, members: set<nat>, s: State)
    requires members <= cuts.Keys <= plans.Keys
  {
    s.open.Keys == members && forall a | a in members :: InPlan(reg, s.rows, plans[a], cuts[a], s.open[a])
  }

  lemma InPlanHolds(reg: Registry, rows: Rows, plan: Plan, p: nat, t: Txn)
    requires InPlan(reg, rows, plan, p, t)
    ensures forall x :: t.Holds(SectionLock(x)) <==> x in plan.sections
    ensures forall k :: t.Holds(RowLock(k)) <==> k in Locked(plan.needs, p)
  {
    assert forall x :: x in t.locks <==> x in SetOf(t.locks);
  }

  lemma OtherApart(reg: Registry, rows: Rows, a: Plan, p: nat, b: Plan, q: nat, u: Txn)
    requires Apart(a, p, b, q) && InPlan(reg, rows, b, q, u)
    ensures forall x | x in a.sections :: !u.Holds(SectionLock(x))
    ensures forall k | k in Locked(a.needs, p) :: !u.Holds(RowLock(k))
  {
    InPlanHolds(reg, rows, b, q, u);
  }

  lemma OthersApart(reg: Registry, plans: Plans, cuts: map<nat, nat>, members: set<nat>, s: State, a: nat)
    requires AllApart(plans, cuts) && members <= cuts.Keys && Standing(reg, plans, cuts, members, s) && a in cuts && a !in members
    ensures Untaken(s, plans[a].sections, Locked(plans[a].needs, cuts[a]))
  {
    forall b | b in s.open
      ensures forall x | x in plans[a].sections :: !s.open[b].Holds(SectionLock(x))
      ensures forall k | k in Locked(plans[a].needs, cuts[a]) :: !s.open[b].Holds(RowLock(k))
    {
      OtherApart(reg, s.rows, plans[a], cuts[a], plans[b], cuts[b], s.open[b]);
    }
  }

  lemma MemberJoins(reg: Registry, masterKey: nat, rows: Rows, family: Family, plan: Plan, s: State, a: nat, p: nat)
    returns (t: Txn)
    requires a in family && Able(reg, masterKey, rows, family[a]) && plan == PlanOf(reg, rows, family[a]) && p <= |plan.needs|
    requires Reachable(reg, masterKey, rows, family, s) && s.rows == rows && a !in s.open
    requires Untaken(s, plan.sections, Locked(plan.needs, p))
    ensures Reachable(reg, masterKey, rows, family, With(s, a, t)) && InPlan(reg, rows, plan, p, t)
  {
    var changes := family[a];
    var locks := LocksExist(reg, changes);
    ReachChecked(reg, masterKey, rows, family, s, a, changes, locks);
    ReachWriting(reg, masterKey, rows, family, s, a, changes, locks, p);
    t := Written(Needs(reg, rows, changes), changes, locks, p);
  }

  lemma StandsToo(reg: Registry, plans: Plans, cuts: map<nat, nat>, rest: set<nat>, s: State, a: nat, t: Txn)
    requires rest <= cuts.Keys <= plans.Keys && Standing(reg, plans, cuts, rest, s) && a in cuts && a !in rest
    requires InPlan(reg, s.rows, plans[a], cuts[a], t)
    ensures Standing(reg, plans, cuts, rest + {a}, With(s, a, t))
  {
  }

  lemma NoneOpen(reg: Registry, masterKey: nat, rows: Rows, family: Family)
    ensures Reachable(reg, masterKey, rows, family, State(rows, map[]))
  {
    var s := State(rows, map[]);
    assert Reaches(reg, masterKey, rows, family, s, [s], []);
  }

  ghost predicate Cuttable(reg: Registry, masterKey: nat, rows: Rows, family: Family, plans: Plans, cuts: map<nat, nat>) {
    && AllApart(plans, cuts)
    && forall id | id in cuts :: id in family && Able(reg, masterKey, rows, family[id]) && plans[id] == PlanOf(reg, rows, family[id])
  }

  /** The family can get these members to their cuts. */
  ghost predicate Reached(reg: Registry, masterKey: nat, rows: Rows, family: Family, plans: Plans,
                          cuts: map<nat, nat>, members: set<nat>, s: State)
  {
    && members <= cuts.Keys <= plans.Keys && s.rows == rows
    && Reachable(reg, masterKey, rows, family, s) && Standing(reg, plans, cuts, members, s)
  }

  lemma OneMore(reg: Registry, masterKey: nat, rows: Rows, family: Family, plans: Plans,
                cuts: map<nat, nat>, rest: set<nat>, before: State, a: nat) returns (s: State)
    requires Cuttable(reg, masterKey, rows, family, plans, cuts) && Reached(reg, masterKey, rows, family, plans, cuts, rest, before)
    requires a in cuts && a !in rest
    ensures Reached(reg, masterKey, rows, family, plans, cuts, rest + {a}, s)
  {
    OthersApart(reg, plans, cuts, rest, before, a);
    var t := MemberJoins(reg, masterKey, rows, family, plans[a], before, a, cuts[a]);
    StandsToo(reg, plans, cuts, rest, before, a, t);
    s := With(before, a, t);
  }

  lemma StuckIsCuttable(reg: Registry, masterKey: nat, rows: Rows, family: Family, plans: Plans,
                        cuts: map<nat, nat>, partner: nat -> nat)
    requires ArePlans(reg, masterKey, rows, family, plans) && Stuck(plans, cuts, partner)
    ensures Cuttable(reg, masterKey, rows, family, plans, cuts)
  {
  }

  ghost predicate CanStand(reg: Registry, masterKey: nat, rows: Rows, family: Family, plans: Plans,
                           cuts: map<nat, nat>, members: set<nat>)
  {
    exists s :: Reached(reg, masterKey, rows, family, plans, cuts, members, s)
  }

  lemma OneMoreStands(reg: Registry, masterKey: nat, rows: Rows, family: Family, plans: Plans,
                      cuts: map<nat, nat>, members: set<nat>, a: nat)
    requires Cuttable(reg, masterKey, rows, family, plans, cuts) && a in members && a in cuts
    requires CanStand(reg, masterKey, rows, family, plans, cuts, members - {a})
    ensures CanStand(reg, masterKey, rows, family, plans, cuts, members)
  {
    var rest := members - {a};
    var before :| Reached(reg, masterKey, rows, family, plans, cuts, rest, before);
    var s := OneMore(reg, masterKey, rows, family, plans, cuts, rest, before, a);
    assert rest + {a} == members;
  }

  lemma NoneStands(reg: Registry, masterKey: nat, rows: Rows, family: Family, plans: Plans, cuts: map<nat, nat>)
    requires cuts.Keys <= plans.Keys
    ensures CanStand(reg, masterKey, rows, family, plans, cuts, {})
  {
    NoneOpen(reg, masterKey, rows, family);
    assert Reached(reg, masterKey, rows, family, plans, cuts, {}, State(rows, map[]));
  }

  /** All members that are cut can be brought to their cuts, one after another. */
  lemma {:induction false} ReachStanding(reg: Registry, masterKey: nat, rows: Rows, family: Family, plans: Plans,
                                         cuts: map<nat, nat>, members: set<nat>)
    requires Cuttable(reg, masterKey, rows, family, plans, cuts) && members <= cuts.Keys
    ensures CanStand(reg, masterKey, rows, family, plans, cuts, members)
    decreases |members|
  {
    if members == {} {
      NoneStands(reg, masterKey, rows, family, plans, cuts);
    } else {
      var a :| a in members;
      ReachStanding(reg, masterKey, rows, family, plans, cuts, members - {a});
      OneMoreStands(reg, masterKey, rows, family, plans, cuts, members, a);
    }
  }

  lemma StandingWaits(reg: Registry, rows: Rows, a: Plan, p: nat, b: Plan, q: nat, t: Txn, u: Txn)
    requires InPlan(reg, rows, a, p, t) && InPlan(reg, rows, b, q, u) && Blocked(a.needs, p, b.needs, q)
    ensures Wants(reg, rows, t).Some? && u.Holds(Wants(reg, rows, t).value) && !t.Holds(Wants(reg, rows, t).value)
  {
    InPlanHolds(reg, rows, b, q, u);
  }

  lemma StandsWaiting(reg: Registry, plans: Plans, cuts: map<nat, nat>, s: State, a: nat, b: nat)
    requires cuts.Keys <= plans.Keys && Standing(reg, plans, cuts, cuts.Keys, s) && BlockedBy(plans, cuts, a, b)
    ensures Waits(reg, s, a, b)
  {
    StandingWaits(reg, s.rows, plans[a], cuts[a], plans[b], cuts[b], s.open[a], s.open[b]);
  }

  lemma StandingDeadlocks(reg: Registry, plans: Plans, cuts: map<nat, nat>, partner: nat -> nat, s: State)
    requires AllBlocked(plans, cuts, partner) && Standing(reg, plans, cuts, cuts.Keys, s)
    ensures Deadlock(reg, s, cuts.Keys, partner)
  {
    forall a {:trigger partner(a)} | a in cuts
      ensures partner(a) in cuts && Waits(reg, s, a, partner(a))
    {
      assert BlockedBy(plans, cuts, a, partner(a));
      StandsWaiting(reg, plans, cuts, s, a, partner(a));
    }
  }

  /** Batches applied at the same time to given rows can deadlock if and only if they can be cut into
      a stuck position: a condition on what the batches lock, with no run in it. */
  lemma DeadlockIff(reg: Registry, masterKey: nat, rows: Rows, family: Family, plans: Plans)
    requires ArePlans(reg, masterKey, rows, family, plans)
    ensures CanDeadlock(reg, masterKey, rows, family) <==> exists cuts, partner :: Stuck(plans, cuts, partner)
  {
    if CanDeadlock(reg, masterKey, rows, family) {
      var s, among, partner :| Reachable(reg, masterKey, rows, family, s) && Deadlock(reg, s, among, partner);
      var run, steps :| Reaches(reg, masterKey, rows, family, s, run, steps);
      FamilyAlways(reg, masterKey, rows, family, run, steps, |steps|);
      FamilyIsPositioned(reg, masterKey, rows, family, plans, s);
      DeadlockIsStuck(reg, plans, s, among, partner);
    }
    if exists cuts, partner :: Stuck(plans, cuts, partner) {
      var cuts, partner :| Stuck(plans, cuts, partner);
      StuckIsCuttable(reg, masterKey, rows, family, plans, cuts, partner);
      ReachStanding(reg, masterKey, rows, family, plans, cuts, cuts.Keys);
      var s :| Reached(reg, masterKey, rows, family, plans, cuts, cuts.Keys, s);
      StandingDeadlocks(reg, plans, cuts, partner, s);
    }
  }

  /*********************** Two batches ***********************/

  /** The first row one batch locks that the other locks too. */
  function FirstShared(a: seq<Option<Key>>, b: seq<Option<Key>>): Option<Key> {
    if a == [] then None else if a[0].Some? && a[0] in b then a[0] else FirstShared(a[1..], b)
  }

  ghost predicate NoneTwice(needs: seq<Option<Key>>) {
    forall i, j | 0 <= i < j < |needs| && needs[i].Some? :: needs[i] != needs[j]
  }

  /** It stands at an index before which nothing is shared. */
  lemma {:induction false} FirstSharedAt(a: seq<Option<Key>>, b: seq<Option<Key>>) returns (i: nat)
    requires FirstShared(a, b).Some?
    ensures i < |a| && a[i] == FirstShared(a, b) && a[i] in b && forall j | 0 <= j < i && a[j].Some? :: a[j] !in b
  {
    if a[0].Some? && a[0] in b {
      i := 0;
    } else {
      var h := FirstSharedAt(a[1..], b);
      i := h + 1;
      forall j | 0 <= j < i && a[j].Some?
        ensures a[j] !in b
      {
        assert j > 0 ==> a[j] == a[1..][j - 1];
      }
    }
  }

  /** Any shared row has a first one at or before it. */
  lemma {:induction false} SharedHasFirst(a: seq<Option<Key>>, b: seq<Option<Key>>, p: nat)
    requires p < |a| && a[p].Some? && a[p] in b
    ensures FirstShared(a, b).Some?
  {
    if !(a[0].Some? && a[0] in b) {
      SharedHasFirst(a[1..], b, p - 1);
    }
  }

  lemma FirstSharedWithin(a: seq<Option<Key>>, b: seq<Option<Key>>, p: nat, k: Key)
    requires k in Locked(a, p) && Some(k) in b
    ensures FirstShared(a, b).Some? && FirstShared(a, b).value in Locked(a, p)
  {
    var i :| 0 <= i < |a| && i < p && a[i] == Some(k);
    SharedHasFirst(a, b, i);
    var h := FirstSharedAt(a, b);
  }

  /** Two batches that block each other start with different shared rows. */
  lemma DifferentFirsts(a: seq<Option<Key>>, p: nat, b: seq<Option<Key>>, q: nat)
    requires Blocked(a, p, b, q) && Blocked(b, q, a, p) && Locked(a, p) !! Locked(b, q)
    ensures FirstShared(a, b) != FirstShared(b, a)
  {
    assert a[p] in a && b[q] in b;
    FirstSharedWithin(a, b, p, b[q].value);
    FirstSharedWithin(b, a, q, a[p].value);
  }

  lemma SharingIsMutual(a: seq<Option<Key>>, b: seq<Option<Key>>)
    ensures FirstShared(a, b).Some? ==> FirstShared(b, a).Some?
  {
    if FirstShared(a, b).Some? {
      var i := FirstSharedAt(a, b);
      var h :| 0 <= h < |b| && b[h] == a[i];
      SharedHasFirst(b, a, h);
    }
  }

  /** The cuts at which both are stuck: one stops before the other's first shared row, and the other
      before the first row that one has locked by then. */
  lemma StuckCuts(a: seq<Option<Key>>, b: seq<Option<Key>>) returns (p: nat, q: nat)
    requires NoneTwice(a) && NoneTwice(b) && FirstShared(a, b) != FirstShared(b, a)
    ensures Blocked(a, p, b, q) && Blocked(b, q, a, p) && Locked(a, p) !! Locked(b, q)
  {
    SharingIsMutual(a, b);
    SharingIsMutual(b, a);
    var i := FirstSharedAt(a, b);
    var j := FirstSharedAt(b, a);
    p :| 0 <= p < |a| && a[p] == b[j];
    assert a[p] in b;
    assert i < p;
    var early := a[..p];
    var h :| 0 <= h < |b| && b[h] == a[i];
    assert early[i] == b[h];
    SharedHasFirst(b, early, h);
    q := FirstSharedAt(b, early);
    EarlyIsLocked(a, p);
    assert b[q] in a;
    assert j < q by {
      assert b[j] !in early;
    }
    assert b[j].value in Locked(b, q);
  }

  lemma EarlyIsLocked(a: seq<Option<Key>>, p: nat)
    requires p <= |a|
    ensures forall k :: k in Locked(a, p) <==> Some(k) in a[..p]
  {
    forall k
      ensures k in Locked(a, p) <==> Some(k) in a[..p]
    {
      if Some(k) in a[..p] {
        var i :| 0 <= i < p && a[..p][i] == Some(k);
        assert a[i] == Some(k);
      }
      if k in Locked(a, p) {
        var i :| 0 <= i < |a| && i < p && a[i] == Some(k);
        assert a[..p][i] == Some(k);
      }
    }
  }

  /** A batch never waits for itself. */
  lemma NeverItself(a: seq<Option<Key>>, p: nat)
    requires NoneTwice(a)
    ensures !Blocked(a, p, a, p)
  {
  }

  function Other(a: nat): nat {
    if a == 0 then 1 else 0
  }

  lemma TwoAreStuck(x: Plan, p: nat, y: Plan, q: nat)
    requires Blocked(x.needs, p, y.needs, q) && Blocked(y.needs, q, x.needs, p) && Apart(x, p, y, q)
    ensures Stuck(map[0 := x, 1 := y], map[0 := p, 1 := q], Other)
  {
    assert 0 in map[0 := p, 1 := q];
  }

  lemma TwoStuckIff(x: Plan, y: Plan)
    requires NoneTwice(x.needs) && NoneTwice(y.needs)
    ensures (exists cuts, partner :: Stuck(map[0 := x, 1 := y], cuts, partner))
            <==> x.sections !! y.sections && FirstShared(x.needs, y.needs) != FirstShared(y.needs, x.needs)
  {
    var plans: Plans := map[0 := x, 1 := y];
    if exists cuts, partner :: Stuck(plans, cuts, partner) {
      var cuts, partner :| Stuck(plans, cuts, partner);
      BothAreCut(plans, cuts, partner);
      DifferentFirsts(x.needs, cuts[0], y.needs, cuts[1]);
    }
    if x.sections !! y.sections && FirstShared(x.needs, y.needs) != FirstShared(y.needs, x.needs) {
      var p, q := StuckCuts(x.needs, y.needs);
      TwoAreStuck(x, p, y, q);
    }
  }

  /** With two members at most, whoever waits, waits for the other. */
  lemma BothAreCut(plans: Plans, cuts: map<nat, nat>, partner: nat -> nat)
    requires Stuck(plans, cuts, partner) && plans.Keys <= {0, 1}
    requires forall a | a in plans :: NoneTwice(plans[a].needs)
    ensures 0 in plans && 1 in plans && 0 in cuts && 1 in cuts && Apart(plans[0], cuts[0], plans[1], cuts[1])
    ensures Blocked(plans[0].needs, cuts[0], plans[1].needs, cuts[1]) && Blocked(plans[1].needs, cuts[1], plans[0].needs, cuts[0])
  {
    var a :| a in cuts;
    var b := partner(a);
    assert BlockedBy(plans, cuts, a, b);
    NeverItself(plans[a].needs, cuts[a]);
    assert BlockedBy(plans, cuts, b, partner(b));
    NeverItself(plans[b].needs, cuts[b]);
  }

  lemma NeedsNoneTwice(reg: Registry, rows: Rows, changes: seq<Change>)
    requires Distinct(changes)
    ensures NoneTwice(Needs(reg, rows, changes))
  {
  }

  /** Two batches can deadlock if and only if both pass their checks, they share no section lock, and
      the first row the one shares with the other is not the first the other shares with it. */
  lemma TwoBatchesDeadlockIff(reg: Registry, masterKey: nat, rows: Rows, a: seq<Change>, b: seq<Change>)
    ensures CanDeadlock(reg, masterKey, rows, map[0 := a, 1 := b])
            <==> && Able(reg, masterKey, rows, a) && Able(reg, masterKey, rows, b)
                 && LockSet(reg, a) !! LockSet(reg, b)
                 && FirstShared(Needs(reg, rows, a), Needs(reg, rows, b)) != FirstShared(Needs(reg, rows, b), Needs(reg, rows, a))
  {
    var family: Family := map[0 := a, 1 := b];
    var plans := PlansExist(reg, masterKey, rows, family);
    DeadlockIff(reg, masterKey, rows, family, plans);
    PlansOfTwo(reg, masterKey, rows, a, b, family, plans);
    if 0 in plans && 1 in plans {
      TwoStuckIff(plans[0], plans[1]);
    } else {
      OneIsNeverStuck(plans);
    }
  }

  lemma PlansOfTwo(reg: Registry, masterKey: nat, rows: Rows, a: seq<Change>, b: seq<Change>, family: Family, plans: Plans)
    requires family == map[0 := a, 1 := b] && ArePlans(reg, masterKey, rows, family, plans)
    ensures plans.Keys <= {0, 1}
    ensures 0 in plans <==> Able(reg, masterKey, rows, a)
    ensures 1 in plans <==> Able(reg, masterKey, rows, b)
    ensures 0 in plans ==> plans[0] == PlanOf(reg, rows, a)
    ensures 1 in plans ==> plans[1] == PlanOf(reg, rows, b)
    ensures 0 in plans && 1 in plans ==> plans == map[0 := plans[0], 1 := plans[1]]
  {
  }

  lemma PlansExist(reg: Registry, masterKey: nat, rows: Rows, family: Family) returns (plans: Plans)
    ensures ArePlans(reg, masterKey, rows, family, plans)
    ensures forall id | id in plans :: NoneTwice(plans[id].needs)
  {
    plans := map id | id in family && Able(reg, masterKey, rows, family[id]) :: PlanOf(reg, rows, family[id]);
    forall id | id in plans
      ensures NoneTwice(plans[id].needs)
    {
      NeedsNoneTwice(reg, rows, family[id]);
    }
  }

  lemma OneIsNeverStuck(plans: Plans)
    requires plans.Keys <= {0, 1} && !(0 in plans && 1 in plans)
    requires forall id | id in plans :: NoneTwice(plans[id].needs)
    ensures forall cuts, partner :: !Stuck(plans, cuts, partner)
  {
    forall cuts, partner | Stuck(plans, cuts, partner)
      ensures false
    {
      BothAreCut(plans, cuts, partner);
    }
  }

  /** A batch that only clears secrets that are not stored locks no row and is in no deadlock, in
      whatever order another batch writes the same keys. */
  lemma IdleClearsNeverDeadlock(reg: Registry, masterKey: nat, rows: Rows, a: seq<Change>, b: seq<Change>)
    requires forall c | c in a :: c.key in reg.specs && reg.specs[c.key].secret && c.value.decoded == Some("") && c.key !in rows
    ensures !CanDeadlock(reg, masterKey, rows, map[0 := a, 1 := b])
  {
    TwoBatchesDeadlockIff(reg, masterKey, rows, a, b);
    NothingShared(Needs(reg, rows, a), Needs(reg, rows, b));
  }

  lemma NothingShared(a: seq<Option<Key>>, b: seq<Option<Key>>)
    requires forall i | 0 <= i < |a| :: a[i].None?
    ensures FirstShared(a, b) == None == FirstShared(b, a)
  {
    SharingIsMutual(b, a);
    if FirstShared(a, b).Some? {
      var i := FirstSharedAt(a, b);
    }
  }

  /** Two rows listed in opposite orders by batches that share no section, neither of them a clear of
      a secret that is not stored. */
  lemma OppositeOrdersDeadlock(reg: Registry, masterKey: nat, rows: Rows, a: Change, b: Change)
    requires Able(reg, masterKey, rows, [a, b]) && Able(reg, masterKey, rows, [b, a]) && a.key != b.key
    requires a.key in reg.specs && (a.key in rows || !reg.specs[a.key].secret || a.value.decoded != Some(""))
    requires b.key in reg.specs && (b.key in rows || !reg.specs[b.key].secret || b.value.decoded != Some(""))
    requires LockSet(reg, [a, b]) !! LockSet(reg, [b, a])
    ensures CanDeadlock(reg, masterKey, rows, map[0 := [a, b], 1 := [b, a]])
  {
    TwoBatchesDeadlockIff(reg, masterKey, rows, [a, b], [b, a]);
    var x, y := Needs(reg, rows, [a, b]), Needs(reg, rows, [b, a]);
    assert x[0] == y[1] == Some(a.key) && y[0] == x[1] == Some(b.key);
    assert FirstShared(x, y) == x[0] && FirstShared(y, x) == y[0];
  }

  /*********************** Any run at all ***********************/

  lemma {:induction false} LawfulAlways(reg: Registry, masterKey: nat, run: seq<State>, steps: seq<Step>, i: nat)
    requires IsRun(reg, masterKey, run, steps) && i < |run|
    ensures Lawful(reg, run[i])
  {
    if i > 0 {
      LawfulAlways(reg, masterKey, run, steps, i - 1);
      LawfulStep(reg, masterKey, run[i - 1], steps[i - 1]);
    }
  }

  lemma LawfulStep(reg: Registry, masterKey: nat, s: State, step: Step)
    requires Lawful(reg, s) && Enabled(reg, masterKey, s, step)
    ensures Lawful(reg, After(reg, masterKey, s, step))
  {
    ExclusiveStep(reg, masterKey, s, step);
  }

  ghost predicate Lawful(reg: Registry, s: State) {
    (forall id | id in s.open :: TxnOk(reg, s.open[id])) && Exclusive(s)
  }

  lemma WriterWaitsForRow(reg: Registry, s: State, a: nat, b: nat)
    requires Lawful(reg, s) && Waits(reg, s, a, b) && s.open[a].phase.Writing?
    ensures WaitsForRow(reg, s, a, b)
  {
    WritersWait(reg, s, a, b);
    GuardedRowIsFree(reg, s, a, b, s.open[a].changes[s.open[a].phase.done].key);
  }

  lemma CircleOfWriters(reg: Registry, s: State, among: set<nat>, partner: nat -> nat)
    requires Lawful(reg, s) && Deadlock(reg, s, among, partner)
    ensures Cuts(s, among) != map[]
    ensures forall a {:trigger partner(a)} | a in Cuts(s, among) :: partner(a) in Cuts(s, among) && WaitsForRow(reg, s, a, partner(a))
  {
    var w := SomeWrite(reg, s, among, partner);
    assert w in Cuts(s, among);
    forall a {:trigger partner(a)} | a in Cuts(s, among)
      ensures partner(a) in Cuts(s, among) && WaitsForRow(reg, s, a, partner(a))
    {
      assert Waits(reg, s, a, partner(a));
      WriterWaitsForRow(reg, s, a, partner(a));
    }
  }

  /** What a deadlock is made of, in every run, whatever commits in between: a closed circle of
      writers that share no section and no row, each waiting for an unguarded row of the next. */
  lemma DeadlockAnatomy(reg: Registry, masterKey: nat, run: seq<State>, steps: seq<Step>, i: nat,
                        among: set<nat>, partner: nat -> nat)
    requires IsRun(reg, masterKey, run, steps) && i < |run| && Deadlock(reg, run[i], among, partner)
    ensures var s, writers := run[i], Cuts(run[i], among);
            && writers != map[]
            && (forall a {:trigger partner(a)} | a in writers :: partner(a) in writers && WaitsForRow(reg, s, a, partner(a)))
            && forall a, b | a in writers && b in writers && a != b ::
                 LockSet(reg, s.open[a].changes) !! LockSet(reg, s.open[b].changes) && s.open[a].phase.held !! s.open[b].phase.held
  {
    var s := run[i];
    LawfulAlways(reg, masterKey, run, steps, i);
    CircleOfWriters(reg, s, among, partner);
    forall a, b | a in Cuts(s, among) && b in Cuts(s, among) && a != b
      ensures LockSet(reg, s.open[a].changes) !! LockSet(reg, s.open[b].changes) && s.open[a].phase.held !! s.open[b].phase.held
    {
      WritersShareNothing(reg, s, a, b);
    }
  }

  ghost predicate WaitsForRow(reg: Registry, s: State, a: nat, b: nat) {
    && a in s.open && b in s.open && s.open[a].phase.Writing? && s.open[b].phase.Writing?
    && s.open[a].phase.done < |s.open[a].changes|
    && var k := s.open[a].changes[s.open[a].phase.done].key; k in s.open[b].phase.held && !Guarded(reg, k)
  }

  /*********************** Batches that commit first ***********************/

  /** Some run takes the one table to the other and leaves no transaction open. */
  ghost predicate Leads(reg: Registry, masterKey: nat, rows: Rows, after: Rows) {
    exists run, steps :: IsPath(reg, masterKey, State(rows, map[]), State(after, map[]), run, steps)
  }

  ghost predicate IsPath(reg: Registry, masterKey: nat, s: State, t: State, run: seq<State>, steps: seq<Step>) {
    IsRun(reg, masterKey, run, steps) && run[0] == s && run[|steps|] == t
  }

  lemma RunsJoin(reg: Registry, masterKey: nat, s: State, t: State, u: State,
                 run: seq<State>, steps: seq<Step>, run': seq<State>, steps': seq<Step>)
    requires IsPath(reg, masterKey, s, t, run, steps) && IsPath(reg, masterKey, t, u, run', steps')
    ensures IsPath(reg, masterKey, s, u, run + run'[1..], steps + steps')
  {
    var all, both := run + run'[1..], steps + steps';
    forall k | 0 <= k < |both|
      ensures Enabled(reg, masterKey, all[k], both[k]) && all[k + 1] == After(reg, masterKey, all[k], both[k])
    {
      if k >= |steps| {
        assert all[k] == run'[k - |steps|] && all[k + 1] == run'[k - |steps| + 1];
      }
    }
  }

  /** A clear that locked nothing would have changed nothing. */
  lemma {:induction false} SkippedChangeNothing(reg: Registry, masterKey: nat, rows: Rows, changes: seq<Change>, held: set<Key>)
    requires Distinct(changes) && forall c | c in changes && c.key !in held :: Idle(reg, rows, c)
    ensures WriteAll(reg, masterKey, rows, Kept(changes, held)) == WriteAll(reg, masterKey, rows, changes)
  {
    if changes != [] {
      var init, last := changes[..|changes| - 1], changes[|changes| - 1];
      SkippedChangeNothing(reg, masterKey, rows, init, held);
      var kept := Kept(init, held);
      if last.key in held {
        assert Kept(changes, held) == kept + [last];
        assert (kept + [last])[..|kept + [last]| - 1] == kept;
      } else {
        assert Kept(changes, held) == kept;
        assert Idle(reg, rows, last);
        LastIsNew(changes);
        UnwrittenStaysAbsent(reg, masterKey, rows, init, last.key);
      }
    }
  }

  lemma LastIsNew(changes: seq<Change>)
    requires Distinct(changes) && changes != []
    ensures forall c | c in changes[..|changes| - 1] :: c.key != changes[|changes| - 1].key
  {
    var init := changes[..|changes| - 1];
    forall c | c in init
      ensures c.key != changes[|changes| - 1].key
    {
      var i :| 0 <= i < |init| && init[i] == c;
      assert changes[i] == c;
    }
  }

  lemma WrittenWhole(reg: Registry, masterKey: nat, rows: Rows, changes: seq<Change>, locks: seq<Section>)
    requires Distinct(changes)
    ensures WriteAll(reg, masterKey, rows, Written(Needs(reg, rows, changes), changes, locks, |changes|).Effective())
            == WriteAll(reg, masterKey, rows, changes)
  {
    var needs := Needs(reg, rows, changes);
    var held := Locked(needs, |changes|);
    forall c | c in changes && c.key !in held
      ensures Idle(reg, rows, c)
    {
      var i :| 0 <= i < |changes| && changes[i] == c;
      assert needs[i] == if Idle(reg, rows, c) then None else Some(c.key);
    }
    SkippedChangeNothing(reg, masterKey, rows, changes, held);
  }

  /** A batch applied alone runs through and leaves exactly the table that writing it leaves. */
  lemma AppliedAlone(reg: Registry, masterKey: nat, rows: Rows, changes: seq<Change>)
    requires Able(reg, masterKey, rows, changes)
    ensures Leads(reg, masterKey, rows, WriteAll(reg, masterKey, rows, changes))
  {
    var family: Family := map[0 := changes];
    var s := State(rows, map[]);
    var locks := LocksExist(reg, changes);
    NoneOpen(reg, masterKey, rows, family);
    ReachChecked(reg, masterKey, rows, family, s, 0, changes, locks);
    ReachWriting(reg, masterKey, rows, family, s, 0, changes, locks, |changes|);
    var t := With(s, 0, Written(Needs(reg, rows, changes), changes, locks, |changes|));
    WrittenWhole(reg, masterKey, rows, changes, locks);
    CommitLeads(reg, masterKey, rows, family, t, 0);
  }

  lemma PathGoesOn(reg: Registry, masterKey: nat, s: State, t: State, run: seq<State>, steps: seq<Step>, step: Step)
    requires IsPath(reg, masterKey, s, t, run, steps) && Enabled(reg, masterKey, t, step)
    ensures IsPath(reg, masterKey, s, After(reg, masterKey, t, step), run + [After(reg, masterKey, t, step)], steps + [step])
  {
  }

  lemma CommitLeads(reg: Registry, masterKey: nat, rows: Rows, family: Family, t: State, id: nat)
    requires Reachable(reg, masterKey, rows, family, t) && Enabled(reg, masterKey, t, Commit(id)) && t.open.Keys == {id}
    ensures Leads(reg, masterKey, rows, WriteAll(reg, masterKey, t.rows, t.open[id].Effective()))
  {
    var run, steps :| Reaches(reg, masterKey, rows, family, t, run, steps);
    PathGoesOn(reg, masterKey, State(rows, map[]), t, run, steps, Commit(id));
    assert After(reg, masterKey, t, Commit(id)).open == map[];
  }

  /** The table after these batches, one after another, each passing on what the ones before left. */
  ghost function AppliedAll(reg: Registry, masterKey: nat, rows: Rows, batches: seq<seq<Change>>): Rows
    decreases |batches|
  {
    if batches == [] then rows else AppliedAll(reg, masterKey, WriteAll(reg, masterKey, rows, batches[0]), batches[1..])
  }

  ghost predicate AllAble(reg: Registry, masterKey: nat, rows: Rows, batches: seq<seq<Change>>)
    decreases |batches|
  {
    batches == [] || (Able(reg, masterKey, rows, batches[0])
                      && AllAble(reg, masterKey, WriteAll(reg, masterKey, rows, batches[0]), batches[1..]))
  }

  lemma LeadsOn(reg: Registry, masterKey: nat, a: Rows, b: Rows, c: Rows)
    requires Leads(reg, masterKey, a, b) && Leads(reg, masterKey, b, c)
    ensures Leads(reg, masterKey, a, c)
  {
    var run, steps :| IsPath(reg, masterKey, State(a, map[]), State(b, map[]), run, steps);
    var run', steps' :| IsPath(reg, masterKey, State(b, map[]), State(c, map[]), run', steps');
    RunsJoin(reg, masterKey, State(a, map[]), State(b, map[]), State(c, map[]), run, steps, run', steps');
  }

  lemma {:induction false} AppliedInTurn(reg: Registry, masterKey: nat, rows: Rows, batches: seq<seq<Change>>)
    requires AllAble(reg, masterKey, rows, batches)
    ensures Leads(reg, masterKey, rows, AppliedAll(reg, masterKey, rows, batches))
    decreases |batches|
  {
    if batches == [] {
      var s := State(rows, map[]);
      assert IsPath(reg, masterKey, s, s, [s], []);
    } else {
      var next := WriteAll(reg, masterKey, rows, batches[0]);
      AppliedAlone(reg, masterKey, rows, batches[0]);
      AppliedInTurn(reg, masterKey, next, batches[1..]);
      LeadsOn(reg, masterKey, rows, next, AppliedAll(reg, masterKey, rows, batches));
    }
  }

  /** After any batches have committed, in whatever way, the others can deadlock if they can be cut
      into a stuck position on the table those left. */
  lemma DeadlockAfterCommits(reg: Registry, masterKey: nat, rows: Rows, first: seq<seq<Change>>, family: Family, plans: Plans,
                             cuts: map<nat, nat>, partner: nat -> nat)
    returns (run: seq<State>, steps: seq<Step>)
    requires AllAble(reg, masterKey, rows, first)
    requires ArePlans(reg, masterKey, AppliedAll(reg, masterKey, rows, first), family, plans) && Stuck(plans, cuts, partner)
    ensures IsRun(reg, masterKey, run, steps) && run[0] == State(rows, map[])
    ensures Deadlock(reg, run[|steps|], cuts.Keys, partner)
  {
    var after := AppliedAll(reg, masterKey, rows, first);
    AppliedInTurn(reg, masterKey, rows, first);
    var before, steps0 :| IsPath(reg, masterKey, State(rows, map[]), State(after, map[]), before, steps0);
    StuckIsCuttable(reg, masterKey, after, family, plans, cuts, partner);
    ReachStanding(reg, masterKey, after, family, plans, cuts, cuts.Keys);
    var s :| Reached(reg, masterKey, after, family, plans, cuts, cuts.Keys, s);
    StandingDeadlocks(reg, plans, cuts, partner, s);
    var run1, steps1 :| Reaches(reg, masterKey, after, family, s, run1, steps1);
    assert IsPath(reg, masterKey, State(after, map[]), s, run1, steps1);
    RunsJoin(reg, masterKey, State(rows, map[]), State(after, map[]), s, before, steps0, run1, steps1);
    run, steps := before + run1[1..], steps0 + steps1;
  }
}
