/** The read-through cache of settings: readers, committing writers, and the two invalidations a
    writer performs, the second one a second after the first. */
module SettingsCache {
  type Key = nat

  const INVALIDATE_AGAIN_AFTER: int := 1000

  /** A read-through in progress: it missed the cache, then selected the value some commit wrote. */
  datatype Reader = Missed(key: Key) | Selected(key: Key, version: nat, at: int)

  /** What a writer still has to invalidate after its commit. */
  datatype Writer =
    | FirstRound(keys: set<Key>, todo: set<Key>)
    | SecondRound(keys: set<Key>, todo: set<Key>, due: int)

  datatype CommitRecord = CommitRecord(keys: set<Key>, at: int)

  /** Commits are numbered from 1 in the order of `commits`. `version[k]` is the last commit that
      wrote k, `cache[k]` the commit whose value is cached. `swept` remembers which keys a commit's
      second invalidation has removed. */
  datatype State = State(
    version: map<Key, nat>, cache: map<Key, nat>,
    readers: map<nat, Reader>, writers: map<nat, Writer>,
    commits: seq<CommitRecord>, swept: set<(nat, Key)>, now: int)

  /** The last commit that wrote a key, 0 for none. */
  function VersionIn(version: map<Key, nat>, k: Key): nat {
    if k in version then version[k] else 0
  }

  ghost predicate Init(s: State) {
    && s.version == map[] && s.cache == map[] && s.readers == map[] && s.writers == map[]
    && s.commits == [] && s.swept == {}
  }

  datatype Step =
    | Miss(reader: nat, key: Key)
    | Select(reader: nat)
    | CacheSet(reader: nat)
    | ReaderGone(reader: nat)
    | Commit(keys: set<Key>)
    | Invalidate(commit: nat, key: Key)
    | InvalidationLost(commit: nat, key: Key)
    | WriterGone(commit: nat)
    | Evict(key: Key)
    | Tick(to: int)

  predicate MayInvalidate(s: State, c: nat, k: Key) {
    c in s.writers && k in s.writers[c].todo && (s.writers[c].SecondRound? ==> s.writers[c].due <= s.now)
  }

  predicate Enabled(s: State, step: Step) {
    match step
    case Miss(r, k) => r !in s.readers
    case Select(r) => r in s.readers && s.readers[r].Missed?
    case CacheSet(r) => r in s.readers && s.readers[r].Selected?
    case ReaderGone(r) => r in s.readers
    case Commit(keys) => true
    case Invalidate(c, k) => MayInvalidate(s, c, k)
    case InvalidationLost(c, k) => MayInvalidate(s, c, k)
    case WriterGone(c) => c in s.writers
    case Evict(k) => true
    case Tick(to) => s.now <= to
  }

  /** The first round invalidates key by key and then arms the timer; the second repeats it. */
  function Advanced(w: Writer, k: Key, now: int): Writer {
    match w
    case FirstRound(keys, todo) =>
      if todo == {k} then SecondRound(keys, keys, now + INVALIDATE_AGAIN_AFTER) else FirstRound(keys, todo - {k})
    case SecondRound(keys, todo, due) => SecondRound(keys, todo - {k}, due)
  }

  function Stamped(version: map<Key, nat>, keys: set<Key>, c: nat): map<Key, nat> {
    map k | k in version.Keys + keys :: if k in keys then c else version[k]
  }

  function Apply(s: State, step: Step): State
    requires Enabled(s, step)
  {
    match step
    case Miss(r, k) => s.(readers := s.readers[r := Missed(k)])
    case Select(r) => s.(readers := s.readers[r := Selected(s.readers[r].key, VersionIn(s.version, s.readers[r].key), s.now)])
    case CacheSet(r) => s.(cache := s.cache[s.readers[r].key := s.readers[r].version], readers := s.readers - {r})
    case ReaderGone(r) => s.(readers := s.readers - {r})
    case Commit(keys) =>
      var c := |s.commits| + 1;
      s.(commits := s.commits + [CommitRecord(keys, s.now)],
         version := Stamped(s.version, keys, c),
         writers := s.writers[c := FirstRound(keys, keys)])
    case Invalidate(c, k) =>
      s.(cache := s.cache - {k}, writers := s.writers[c := Advanced(s.writers[c], k, s.now)],
         swept := s.swept + if s.writers[c].SecondRound? then {(c, k)} else {})
    case InvalidationLost(c, k) => s.(writers := s.writers[c := Advanced(s.writers[c], k, s.now)])
    case WriterGone(c) => s.(writers := s.writers - {c})
    case Evict(k) => s.(cache := s.cache - {k})
    case Tick(to) => s.(now := to)
  }

  ghost predicate IsRun(run: seq<State>, steps: seq<Step>) {
    && |run| == |steps| + 1 && Init(run[0])
    && forall i | 0 <= i < |steps| :: Enabled(run[i], steps[i]) && run[i + 1] == Apply(run[i], steps[i])
  }

  /** The design's assumption: a selected value is stored, or dropped, in under a second. */
  ghost predicate Timely(s: State) {
    forall r | r in s.readers && s.readers[r].Selected? :: s.now < s.readers[r].at + INVALIDATE_AGAIN_AFTER
  }

  /** A reader whose value is older than a commit of its key selected it before that commit. */
  ghost predicate ReaderOk(version: map<Key, nat>, commits: seq<CommitRecord>, r: Reader) {
    r.Selected? ==>
      && r.version <= VersionIn(version, r.key)
      && forall i | 0 <= i < |commits| && r.version <= i && r.key in commits[i].keys :: r.at <= commits[i].at
  }

  ghost predicate WriterOk(commits: seq<CommitRecord>, c: nat, w: Writer) {
    && 1 <= c <= |commits| && w.todo <= w.keys == commits[c - 1].keys
    && (w.SecondRound? ==> commits[c - 1].at + INVALIDATE_AGAIN_AFTER <= w.due)
  }

  ghost predicate LogOk(version: map<Key, nat>, commits: seq<CommitRecord>, now: int) {
    && (forall i | 0 <= i < |commits| :: commits[i].at <= now)
    && (forall i, k | 0 <= i < |commits| && k in commits[i].keys :: i + 1 <= VersionIn(version, k))
    && (forall k :: VersionIn(version, k) <= |commits|)
  }

  /** Nothing older than commit c is cached under k, or on its way there. */
  ghost predicate Fresh(s: State, c: nat, k: Key) {
    && c <= VersionIn(s.version, k)
    && (k in s.cache ==> c <= s.cache[k])
    && forall r | r in s.readers && s.readers[r].Selected? && s.readers[r].key == k :: c <= s.readers[r].version
  }

  /** What holds whatever readers and writers take. */
  ghost predicate Consistent(s: State) {
    && LogOk(s.version, s.commits, s.now)
    && (forall r | r in s.readers :: ReaderOk(s.version, s.commits, s.readers[r]))
    && (forall r | r in s.readers && s.readers[r].Selected? :: s.readers[r].at <= s.now)
    && (forall c | c in s.writers :: WriterOk(s.commits, c, s.writers[c]))
  }

  ghost predicate Coherent(s: State) {
    Consistent(s) && forall c, k | (c, k) in s.swept :: Fresh(s, c, k)
  }

  lemma CommitConsistent(s: State, keys: set<Key>)
    requires Consistent(s)
    ensures Consistent(Apply(s, Commit(keys)))
    ensures forall k :: VersionIn(s.version, k) <= VersionIn(Apply(s, Commit(keys)).version, k)
  {
    var t := Apply(s, Commit(keys));
    CommitLog(s.version, s.commits, s.now, keys);
    forall r | r in t.readers ensures ReaderOk(t.version, t.commits, t.readers[r]) {
      CommitReader(s.version, s.commits, s.now, keys, s.readers[r]);
    }
  }

  lemma CommitLog(version: map<Key, nat>, commits: seq<CommitRecord>, now: int, keys: set<Key>)
    requires LogOk(version, commits, now)
    ensures LogOk(Stamped(version, keys, |commits| + 1), commits + [CommitRecord(keys, now)], now)
    ensures forall k :: VersionIn(version, k) <= VersionIn(Stamped(version, keys, |commits| + 1), k)
  {
    var after, log := Stamped(version, keys, |commits| + 1), commits + [CommitRecord(keys, now)];
    assert forall k :: VersionIn(after, k) == if k in keys then |log| else VersionIn(version, k);
    forall i, k | 0 <= i < |log| && k in log[i].keys ensures i + 1 <= VersionIn(after, k) {
      if i < |commits| {
        assert k in commits[i].keys;
      }
    }
  }

  /** Whatever a reader holds was selected by now, so it predates the new commit. */
  lemma CommitReader(version: map<Key, nat>, commits: seq<CommitRecord>, now: int, keys: set<Key>, r: Reader)
    requires LogOk(version, commits, now) && ReaderOk(version, commits, r) && (r.Selected? ==> r.at <= now)
    ensures ReaderOk(Stamped(version, keys, |commits| + 1), commits + [CommitRecord(keys, now)], r)
  {
    CommitLog(version, commits, now, keys);
  }

  lemma ReadersConsistent(s: State, step: Step)
    requires Consistent(s) && Enabled(s, step) && (step.Miss? || step.Select? || step.CacheSet? || step.ReaderGone?)
    ensures Consistent(Apply(s, step))
  {
    var t := Apply(s, step);
    forall r | r in t.readers ensures ReaderOk(t.version, t.commits, t.readers[r]) {
      assert r in s.readers ==> ReaderOk(s.version, s.commits, s.readers[r]);
    }
  }

  lemma WritersConsistent(s: State, step: Step)
    requires Consistent(s) && Enabled(s, step)
    requires step.Invalidate? || step.InvalidationLost? || step.WriterGone? || step.Evict? || step.Tick?
    ensures Consistent(Apply(s, step))
  {
    var t := Apply(s, step);
    forall c | c in t.writers ensures WriterOk(t.commits, c, t.writers[c]) {
      assert WriterOk(s.commits, c, s.writers[c]);
    }
  }

  lemma ConsistentStep(s: State, step: Step)
    requires Consistent(s) && Enabled(s, step)
    ensures Consistent(Apply(s, step))
  {
    if step.Commit? {
      CommitConsistent(s, step.keys);
    } else if step.Miss? || step.Select? || step.CacheSet? || step.ReaderGone? {
      ReadersConsistent(s, step);
    } else {
      WritersConsistent(s, step);
    }
  }

  /** What was swept stays so: no step brings an older value near, unless it was on its way. */
  lemma FreshStays(s: State, step: Step, c: nat, k: Key)
    requires Consistent(s) && Enabled(s, step) && Fresh(s, c, k)
    ensures Fresh(Apply(s, step), c, k)
  {
    if step.Commit? {
      CommitConsistent(s, step.keys);
    }
  }

  /** The second invalidation finds no older value on its way: such a reader would have had to
      select before the commit, more than a second ago. */
  lemma SweptIsFresh(s: State, c: nat, k: Key)
    requires Consistent(s) && Timely(s) && Enabled(s, Invalidate(c, k)) && s.writers[c].SecondRound?
    ensures Fresh(Apply(s, Invalidate(c, k)), c, k)
  {
    assert WriterOk(s.commits, c, s.writers[c]);
    forall r | r in s.readers && s.readers[r].Selected? && s.readers[r].key == k ensures c <= s.readers[r].version {
      assert ReaderOk(s.version, s.commits, s.readers[r]);
    }
  }

  lemma CoherentStep(s: State, step: Step)
    requires Coherent(s) && Timely(s) && Enabled(s, step)
    ensures Coherent(Apply(s, step))
  {
    ConsistentStep(s, step);
    forall c, k | (c, k) in Apply(s, step).swept
      ensures Fresh(Apply(s, step), c, k)
    {
      if (c, k) in s.swept {
        FreshStays(s, step, c, k);
      } else {
        SweptIsFresh(s, c, k);
      }
    }
  }

  lemma {:induction false} CoherentAlways(run: seq<State>, steps: seq<Step>, i: nat)
    requires IsRun(run, steps) && i < |run| && forall j | 0 <= j < |run| :: Timely(run[j])
    ensures Coherent(run[i])
  {
    if i > 0 {
      CoherentAlways(run, steps, i - 1);
      CoherentStep(run[i - 1], steps[i - 1]);
    }
  }

  /** Delayed double delete: in every run whose read-throughs take under a second, once a commit's
      second invalidation of a key has run, no cached entry for it is older than that commit, then
      or later, for any interleaving of readers, writers, evictions and crashes. */
  lemma NoStaleEntryAfterSecondInvalidation(run: seq<State>, steps: seq<Step>, i: nat, j: nat, c: nat, k: Key)
    requires IsRun(run, steps) && i <= j < |run| && forall m | 0 <= m < |run| :: Timely(run[m])
    requires (c, k) in run[i].swept
    ensures k in run[j].cache ==> c <= run[j].cache[k]
  {
    SweptStays(run, steps, i, j, (c, k));
    CoherentAlways(run, steps, j);
    assert Fresh(run[j], c, k);
  }

  lemma {:induction false} SweptStays(run: seq<State>, steps: seq<Step>, i: nat, j: nat, entry: (nat, Key))
    requires IsRun(run, steps) && i <= j < |run| && entry in run[i].swept
    ensures entry in run[j].swept
  {
    if i < j {
      SweptStays(run, steps, i, j - 1, entry);
      SweptStep(run[j - 1], steps[j - 1], entry);
    }
  }

  lemma SweptStep(s: State, step: Step, entry: (nat, Key))
    requires Enabled(s, step) && entry in s.swept
    ensures entry in Apply(s, step).swept
  {
  }

  /*********************** Exactly when an older value stays ***********************/

  lemma {:induction false} ConsistentAlways(run: seq<State>, steps: seq<Step>, i: nat)
    requires IsRun(run, steps) && i < |run|
    ensures Consistent(run[i])
  {
    if i > 0 {
      ConsistentAlways(run, steps, i - 1);
      ConsistentStep(run[i - 1], steps[i - 1]);
    }
  }

  /** A reader stores a value of the key that is older than the commit. */
  ghost predicate StoresOlder(s: State, step: Step, c: nat, k: Key) {
    && step.CacheSet? && step.reader in s.readers && s.readers[step.reader].Selected?
    && s.readers[step.reader].key == k && s.readers[step.reader].version < c
  }

  ghost predicate CachedOlder(s: State, c: nat, k: Key) {
    k in s.cache && s.cache[k] < c
  }

  lemma OlderComesFromStore(s: State, step: Step, c: nat, k: Key)
    requires Enabled(s, step) && CachedOlder(Apply(s, step), c, k)
    ensures CachedOlder(s, c, k) || StoresOlder(s, step, c, k)
  {
  }

  lemma {:induction false} OlderHasStore(run: seq<State>, steps: seq<Step>, i: nat, j: nat, c: nat, k: Key) returns (l: nat)
    requires IsRun(run, steps) && i < j < |run| && steps[i] == Invalidate(c, k) && CachedOlder(run[j], c, k)
    ensures i < l < |steps| && StoresOlder(run[l], steps[l], c, k)
  {
    OlderComesFromStore(run[j - 1], steps[j - 1], c, k);
    if StoresOlder(run[j - 1], steps[j - 1], c, k) {
      l := j - 1;
    } else {
      l := OlderHasStore(run, steps, i, j - 1, c, k);
    }
  }

  /** In every run, whatever readers take: once a commit's second invalidation of a key has run, a value
      older than the commit is cached again if and only if a reader stores one after it. */
  lemma OlderStaysIff(run: seq<State>, steps: seq<Step>, i: nat, c: nat, k: Key)
    requires IsRun(run, steps) && i < |steps| && steps[i] == Invalidate(c, k)
    ensures (exists j :: i < j < |run| && CachedOlder(run[j], c, k))
            <==> exists l :: i < l < |steps| && StoresOlder(run[l], steps[l], c, k)
  {
    if exists j :: i < j < |run| && CachedOlder(run[j], c, k) {
      var j :| i < j < |run| && CachedOlder(run[j], c, k);
      var l := OlderHasStore(run, steps, i, j, c, k);
    }
    if exists l :: i < l < |steps| && StoresOlder(run[l], steps[l], c, k) {
      var l :| i < l < |steps| && StoresOlder(run[l], steps[l], c, k);
      assert CachedOlder(run[l + 1], c, k);
    }
  }

  lemma {:induction false} LogGrows(run: seq<State>, steps: seq<Step>, i: nat, j: nat)
    requires IsRun(run, steps) && i <= j < |run|
    ensures run[i].commits <= run[j].commits && run[i].now <= run[j].now
  {
    if i < j {
      LogGrows(run, steps, i, j - 1);
    }
  }

  /** And such a reader selected no later than the commit and took a second or more: the timing
      assumption rules out exactly the readers that can do harm. */
  lemma LateStoreTookASecond(run: seq<State>, steps: seq<Step>, i: nat, l: nat, c: nat, k: Key)
    requires IsRun(run, steps) && i < l < |steps| && steps[i] == Invalidate(c, k) && run[i].writers[c].SecondRound?
    requires StoresOlder(run[l], steps[l], c, k)
    ensures 1 <= c <= |run[l].commits| && k in run[l].commits[c - 1].keys
    ensures run[l].readers[steps[l].reader].at <= run[l].commits[c - 1].at
    ensures run[l].now >= run[l].readers[steps[l].reader].at + INVALIDATE_AGAIN_AFTER
  {
    ConsistentAlways(run, steps, i);
    ConsistentAlways(run, steps, l);
    LogGrows(run, steps, i, l);
    assert WriterOk(run[i].commits, c, run[i].writers[c]);
    assert run[l].commits[c - 1] == run[i].commits[c - 1];
    assert ReaderOk(run[l].version, run[l].commits, run[l].readers[steps[l].reader]);
  }

  /*********************** Both assumptions are needed ***********************/

  /** A reader selects, a commit and its invalidation of the key follow, the timer runs its course
      up to `second` more milliseconds, and only then the reader stores what it selected. */
  ghost function Hole(k: Key, second: bool, i: nat): State {
    var blank := State(map[], map[], map[], map[], [], {}, 0);
    var missed := blank.(readers := map[7 := Missed(k)]);
    var selected := blank.(readers := map[7 := Selected(k, 0, 0)]);
    var committed := selected.(version := map[k := 1], commits := [CommitRecord({k}, 0)], writers := map[1 := FirstRound({k}, {k})]);
    var armed := committed.(writers := map[1 := SecondRound({k}, {k}, 1000)]);
    var swept := armed.(now := 1000, writers := map[1 := SecondRound({k}, {}, 1000)], swept := {(1, k)});
    if i == 0 then blank
    else if i == 1 then missed
    else if i == 2 then selected
    else if i == 3 then committed
    else if i == 4 then armed
    else if !second then armed.(readers := map[], cache := map[k := 0])
    else if i == 5 then armed.(now := 1000)
    else if i == 6 then swept
    else swept.(readers := map[], cache := map[k := 0])
  }

  function HoleStep(k: Key, second: bool, i: nat): Step {
    if i == 0 then Miss(7, k)
    else if i == 1 then Select(7)
    else if i == 2 then Commit({k})
    else if i == 3 then Invalidate(1, k)
    else if !second then CacheSet(7)
    else if i == 4 then Tick(1000)
    else if i == 5 then Invalidate(1, k)
    else CacheSet(7)
  }

  lemma HoleOpens(k: Key, second: bool, i: nat)
    requires i < 4
    ensures Enabled(Hole(k, second, i), HoleStep(k, second, i))
    ensures Hole(k, second, i + 1) == Apply(Hole(k, second, i), HoleStep(k, second, i))
  {
    var t, u := Hole(k, second, i + 1), Apply(Hole(k, second, i), HoleStep(k, second, i));
    if i < 2 {
      assert u.readers == t.readers;
    } else if i == 2 {
      assert Stamped(map[], {k}, 1) == map[k := 1];
      assert u.writers == t.writers;
    } else {
      assert u.writers == t.writers && u.cache == t.cache;
    }
  }

  lemma HoleEnds(k: Key, second: bool, i: nat)
    requires 4 <= i && if second then i < 7 else i < 5
    ensures Enabled(Hole(k, second, i), HoleStep(k, second, i))
    ensures Hole(k, second, i + 1) == Apply(Hole(k, second, i), HoleStep(k, second, i))
  {
    var t, u := Hole(k, second, i + 1), Apply(Hole(k, second, i), HoleStep(k, second, i));
    if second && i == 5 {
      assert {k} - {k} == {};
      assert u.writers == t.writers && u.cache == t.cache;
    } else {
      assert u.readers == t.readers && u.cache == t.cache;
    }
  }

  /** One invalidation leaves the hole open even to timely readers; and two leave it open to a
      reader that takes exactly a second. Either way a run ends with the old value cached after
      every invalidation that was due. */
  lemma HoleIsReal(k: Key, second: bool) returns (run: seq<State>, steps: seq<Step>)
    ensures IsRun(run, steps)
    ensures var last := run[|steps|];
            k in last.cache && last.cache[k] < VersionIn(last.version, k) && (second ==> (VersionIn(last.version, k), k) in last.swept)
    ensures !second ==> forall i | 0 <= i < |run| :: Timely(run[i])
  {
    var n := if second then 7 else 5;
    run := seq(n + 1, i requires 0 <= i < n + 1 => Hole(k, second, i));
    steps := seq(n, i requires 0 <= i < n => HoleStep(k, second, i));
    forall i | 0 <= i < n ensures Enabled(run[i], steps[i]) && run[i + 1] == Apply(run[i], steps[i]) {
      if i < 4 {
        HoleOpens(k, second, i);
      } else {
        HoleEnds(k, second, i);
      }
    }
  }
}
