/** The settings store: registered keys, section rules, the merged values a batch is judged on,
    and the rows it writes. */
module Settings {
  import opened Outcomes

  // Key and section names, numbered in the byte order in which the code sorts them.
  type Key = nat
  type Section = nat

  /** A raw JSON value; `decoded` is the text it holds when it is a JSON string (or null, which
      reads as the empty string). */
  datatype Json = Json(text: string, decoded: Option<string>)

  type Values = map<Key, Json>

  /** One registered key. `accepts` stands for the validation of the kinds other than secret. */
  datatype Spec = Spec(section: Option<Section>, secret: bool, default: Option<Json>, accepts: Json -> bool)
  {
    predicate Validates(v: Json) {
      if secret then v.decoded.Some? else accepts(v)
    }
  }

  /** One invariant over a section's values and those of the sections it reads. */
  datatype Rule = Rule(section: Section, reads_: seq<Section>, check: Values -> bool)
  {
    predicate Touches(sections: set<Section>) {
      section in sections || exists r :: r in reads_ && r in sections
    }

    function Footprint(): set<Section> {
      {section} + set r | r in reads_
    }
  }

  datatype Registry = Registry(specs: map<Key, Spec>, rules: seq<Rule>)

  datatype Change = Change(key: Key, value: Json)

  /** A stored row: a plain value, or one sealed under a master key for one key's row. */
  datatype Stored = PlainValue(value: Json) | Sealed(boundTo: Key, plain: Json, masterKey: nat)

  type Rows = map<Key, Stored>

  datatype Rejection = UnknownKey(key: Key) | Duplicate(key: Key) | Invalid(key: Key) | RuleBroken(section: Section)

  function Get(values: Values, k: Key): Option<Json> {
    if k in values then Some(values[k]) else None
  }

  predicate InSections(reg: Registry, k: Key, sections: set<Section>) {
    k in reg.specs && reg.specs[k].section.Some? && reg.specs[k].section.value in sections
  }

  /** A secret write of the empty string clears it. */
  predicate Clears(reg: Registry, c: Change) {
    c.key in reg.specs && reg.specs[c.key].secret && c.value.decoded == Some("")
  }

  function SetOf(sections: seq<Section>): set<Section> {
    set s | s in sections
  }

  /*********************** Effective values ***********************/

  /** What a key is worth: its default, overlaid with what is stored and readable. */
  function EffectiveAt(reg: Registry, masterKey: nat, rows: Rows, k: Key): Option<Json> {
    if k !in reg.specs then None
    else
      var fallback := if reg.specs[k].secret then None else reg.specs[k].default;
      if k !in rows then fallback
      else
        match rows[k]
        case PlainValue(v) => Some(v)
        case Sealed(boundTo, plain, sealedUnder) =>
          if boundTo == k && sealedUnder == masterKey then Some(plain) else fallback
  }

  function Load(reg: Registry, masterKey: nat, rows: Rows, sections: set<Section>): Values {
    map k | k in reg.specs && InSections(reg, k, sections) && EffectiveAt(reg, masterKey, rows, k).Some? ::
      EffectiveAt(reg, masterKey, rows, k).value
  }

  /** Every key's effective value. */
  function Everything(reg: Registry, masterKey: nat, rows: Rows): Values {
    map k | k in reg.specs && EffectiveAt(reg, masterKey, rows, k).Some? :: EffectiveAt(reg, masterKey, rows, k).value
  }

  function DefaultAt(reg: Registry, k: Key): Option<Json> {
    if k !in reg.specs || reg.specs[k].secret then None else reg.specs[k].default
  }

  /** The values of these keys, and no others, are their defaults. */
  ghost predicate AreDefaults(reg: Registry, values: Values, keys: set<Key>) {
    (forall k | k in values :: k in keys) && forall k | k in keys :: Get(values, k) == DefaultAt(reg, k)
  }

  ghost predicate AreEffective(reg: Registry, masterKey: nat, rows: Rows, values: Values, keys: set<Key>) {
    (forall k | k in values :: k in keys) && forall k | k in keys :: Get(values, k) == EffectiveAt(reg, masterKey, rows, k)
  }

  /** The keys of the sections, and their registered defaults; a secret has none. */
  method LoadDefaults(reg: Registry, sections: seq<Section>) returns (keys: set<Key>, values: Values)
    ensures forall k :: k in keys <==> InSections(reg, k, SetOf(sections))
    ensures AreDefaults(reg, values, keys)
  {
    keys, values := {}, map[];
    for i := 0 to |sections|
      invariant forall k :: k in keys <==> InSections(reg, k, SetOf(sections[..i]))
      invariant AreDefaults(reg, values, keys)
    {
      assert sections[..i + 1] == sections[..i] + [sections[i]];
      var more := set k | k in reg.specs && reg.specs[k].section == Some(sections[i]);
      var defaults := map k | k in more && DefaultAt(reg, k).Some? :: DefaultAt(reg, k).value;
      keys, values := keys + more, values + defaults;
    }
    assert sections[..|sections|] == sections;
  }

  /** Overlays the stored rows of these keys; a sealed value that does not open leaves the default. */
  method Overlay(reg: Registry, masterKey: nat, rows: Rows, keys: set<Key>, defaults: Values) returns (values: Values)
    requires forall k | k in keys :: k in reg.specs
    requires AreDefaults(reg, defaults, keys)
    ensures AreEffective(reg, masterKey, rows, values, keys)
  {
    values := defaults;
    var todo := keys * rows.Keys;
    while todo != {}
      invariant todo <= keys * rows.Keys
      invariant forall k | k in values :: k in keys
      invariant forall k | k in keys ::
                  Get(values, k) == if k in todo then DefaultAt(reg, k) else EffectiveAt(reg, masterKey, rows, k)
      decreases |todo|
    {
      var k :| k in todo;
      match rows[k] {
        case PlainValue(v) =>
          values := values[k := v];
        case Sealed(boundTo, plain, sealedUnder) =>
          if boundTo == k && sealedUnder == masterKey {
            values := values[k := plain];
          }
      }
      todo := todo - {k};
    }
  }

  /** Reads defaults section by section, then overlays the stored rows. */
  method LoadValues(reg: Registry, masterKey: nat, rows: Rows, sections: seq<Section>) returns (values: Values)
    ensures values == Load(reg, masterKey, rows, SetOf(sections))
  {
    var keys, defaults := LoadDefaults(reg, sections);
    values := Overlay(reg, masterKey, rows, keys, defaults);
    SameByGet(values, Load(reg, masterKey, rows, SetOf(sections)), keys);
  }

  lemma SameByGet(v: Values, w: Values, keys: set<Key>)
    requires (forall k | k in v :: k in keys) && (forall k | k in w :: k in keys)
    requires forall k | k in keys :: Get(v, k) == Get(w, k)
    ensures v == w
  {
    assert forall k | k in keys :: k in v <==> Get(v, k).Some?;
    assert forall k | k in keys :: k in w <==> Get(w, k).Some?;
    forall k | k in v ensures k in w && v[k] == w[k] {
      assert Get(v, k) == Get(w, k);
    }
  }

  /** What a key of the loaded sections is worth: what is stored, if it can be read; for a sealed value,
      if it was sealed for this key under this master key; otherwise its registered default, which a
      secret does not have. */
  lemma LoadedValue(reg: Registry, masterKey: nat, rows: Rows, sections: set<Section>, k: Key)
    requires InSections(reg, k, sections)
    ensures var value, spec := Get(Load(reg, masterKey, rows, sections), k), reg.specs[k];
            && (k !in rows && !spec.secret ==> value == spec.default)
            && (k !in rows && spec.secret ==> value == None)
            && (k in rows && rows[k].PlainValue? ==> value == Some(rows[k].value))
            && (k in rows && rows[k].Sealed? && rows[k].boundTo == k && rows[k].masterKey == masterKey ==> value == Some(rows[k].plain))
            && (k in rows && rows[k].Sealed? && (rows[k].boundTo != k || rows[k].masterKey != masterKey) ==>
                  value == if spec.secret then None else spec.default)
  {
  }

  /** Other keys are not loaded. */
  lemma OthersNotLoaded(reg: Registry, masterKey: nat, rows: Rows, sections: set<Section>, k: Key)
    requires k !in reg.specs || reg.specs[k].section.None? || reg.specs[k].section.value !in sections
    ensures Get(Load(reg, masterKey, rows, sections), k) == None
  {
  }

  /*********************** Writing and merging ***********************/

  /** The row a change leaves. */
  function SetRow(reg: Registry, masterKey: nat, rows: Rows, c: Change): Rows {
    if c.key !in reg.specs || !reg.specs[c.key].secret then rows[c.key := PlainValue(c.value)]
    else if Clears(reg, c) then rows - {c.key}
    else rows[c.key := Sealed(c.key, c.value, masterKey)]
  }

  function WriteAll(reg: Registry, masterKey: nat, rows: Rows, changes: seq<Change>): Rows {
    if changes == [] then rows
    else SetRow(reg, masterKey, WriteAll(reg, masterKey, rows, changes[..|changes| - 1]), changes[|changes| - 1])
  }

  function MergeOne(reg: Registry, values: Values, c: Change): Values {
    if Clears(reg, c) then values - {c.key} else values[c.key := c.value]
  }

  /** The loaded values with the batch laid over them. */
  function Merge(reg: Registry, values: Values, changes: seq<Change>): Values {
    if changes == [] then values
    else MergeOne(reg, Merge(reg, values, changes[..|changes| - 1]), changes[|changes| - 1])
  }

  /** One write changes exactly the value the merge predicts, secrets and clears included. */
  lemma SetRowEffect(reg: Registry, masterKey: nat, rows: Rows, c: Change, k: Key)
    requires c.key in reg.specs && k in reg.specs
    ensures EffectiveAt(reg, masterKey, SetRow(reg, masterKey, rows, c), k)
            == if k != c.key then EffectiveAt(reg, masterKey, rows, k) else if Clears(reg, c) then None else Some(c.value)
  {
  }

  /** The row a change leaves: a plain value as it is; of a secret no row at all once it is emptied, and
      otherwise one that can be read back for this key under this master key only. */
  lemma RowLeft(reg: Registry, masterKey: nat, rows: Rows, c: Change, k: Key, other: nat)
    requires c.key in reg.specs && (reg.specs[c.key].secret ==> c.value.decoded.Some?)
    ensures var after := SetRow(reg, masterKey, rows, c);
            && (k != c.key ==> (k in after <==> k in rows) && (k in rows ==> after[k] == rows[k]))
            && (!reg.specs[c.key].secret ==> c.key in after && after[c.key] == PlainValue(c.value))
            && (reg.specs[c.key].secret && c.value.decoded.value == "" ==> c.key !in after)
            && (reg.specs[c.key].secret && c.value.decoded.value != "" ==>
                  && c.key in after && EffectiveAt(reg, masterKey, after, c.key) == Some(c.value)
                  && (other != masterKey ==> EffectiveAt(reg, other, after, c.key) == None)
                  && (k != c.key && k in reg.specs && reg.specs[k].secret ==>
                        EffectiveAt(reg, masterKey, after[k := after[c.key]], k) == None))
  {
  }

  ghost predicate Known(reg: Registry, changes: seq<Change>) {
    forall c | c in changes :: c.key in reg.specs
  }

  /** The values the rules are checked on are the values that will be read back after the write,
      for every key of the loaded sections. */
  lemma {:induction false} MergeIsLoadAfterWrite(reg: Registry, masterKey: nat, rows: Rows, sections: set<Section>,
                                                changes: seq<Change>, k: Key)
    requires Known(reg, changes) && InSections(reg, k, sections)
    ensures Get(Merge(reg, Load(reg, masterKey, rows, sections), changes), k)
            == EffectiveAt(reg, masterKey, WriteAll(reg, masterKey, rows, changes), k)
  {
    if changes != [] {
      var init, last := changes[..|changes| - 1], changes[|changes| - 1];
      MergeIsLoadAfterWrite(reg, masterKey, rows, sections, init, k);
      SetRowEffect(reg, masterKey, WriteAll(reg, masterKey, rows, init), last, k);
    }
  }

  /** A key outside the batch keeps its value; a key in it gets a value that does not depend on
      what was there. */
  lemma {:induction false} WriteAllEffect(reg: Registry, masterKey: nat, rows: Rows, other: Rows, changes: seq<Change>, k: Key)
    requires Known(reg, changes) && k in reg.specs
    ensures (forall c | c in changes :: c.key != k) ==>
              EffectiveAt(reg, masterKey, WriteAll(reg, masterKey, rows, changes), k) == EffectiveAt(reg, masterKey, rows, k)
    ensures (exists c :: c in changes && c.key == k) ==>
              EffectiveAt(reg, masterKey, WriteAll(reg, masterKey, rows, changes), k)
              == EffectiveAt(reg, masterKey, WriteAll(reg, masterKey, other, changes), k)
  {
    if changes != [] {
      var init, last := changes[..|changes| - 1], changes[|changes| - 1];
      assert forall c :: c in changes <==> c in init || c == last;
      WriteAllEffect(reg, masterKey, rows, other, init, k);
      SetRowEffect(reg, masterKey, WriteAll(reg, masterKey, rows, init), last, k);
      SetRowEffect(reg, masterKey, WriteAll(reg, masterKey, other, init), last, k);
    }
  }

  /*********************** Rules ***********************/

  /** The batch's own sections, and everything the rules it triggers look at. */
  ghost function LoadSet(reg: Registry, touched: set<Section>): set<Section> {
    touched + set r, s | r in reg.rules && r.Touches(touched) && s in r.Footprint() :: s
  }

  ghost function Seen(rules: seq<Rule>): set<Section> {
    set r, s | r in rules && s in r.Footprint() :: s
  }

  lemma SeenAppend(rules: seq<Rule>, rule: Rule)
    ensures Seen(rules + [rule]) == Seen(rules) + rule.Footprint()
  {
    forall s ensures s in Seen(rules + [rule]) <==> s in Seen(rules) + rule.Footprint() {
      if s in rule.Footprint() {
        assert rule in rules + [rule];
      } else if s in Seen(rules) {
        var r :| r in rules && s in r.Footprint();
        assert r in rules + [rule];
      }
    }
  }

  lemma LoadedSections(touched: set<Section>, rules: seq<Rule>, sorted: seq<Rule>, load: seq<Section>)
    requires SetOf(load) == touched + Seen(rules) && forall r :: r in sorted <==> r in rules
    ensures forall s :: s in load <==> s in touched || exists r :: r in sorted && (s == r.section || s in r.reads_)
  {
    forall s
      ensures s in load <==> s in touched || exists r :: r in sorted && (s == r.section || s in r.reads_)
    {
      assert s in load <==> s in SetOf(load);
      if exists r :: r in sorted && (s == r.section || s in r.reads_) {
        var r :| r in sorted && (s == r.section || s in r.reads_);
        assert s in r.Footprint();
      }
    }
  }

  ghost predicate Ascending(s: seq<nat>) {
    forall i, j | 0 <= i < j < |s| :: s[i] < s[j]
  }

  /** A section's own rule comes before the rules that read other sections. */
  predicate Sooner(a: Rule, b: Rule) {
    if (a.reads_ == []) != (b.reads_ == []) then a.reads_ == [] else a.section < b.section
  }

  ghost predicate InRuleOrder(rules: seq<Rule>) {
    forall i, j | 0 <= i < j < |rules| :: !Sooner(rules[j], rules[i])
  }

  function InsertRule(rules: seq<Rule>, r: Rule): (s: seq<Rule>)
    ensures forall x :: x in s <==> x in rules || x == r
  {
    if rules == [] then [r]
    else if !Sooner(rules[0], r) then [r] + rules
    else
      assert rules == [rules[0]] + rules[1..];
      [rules[0]] + InsertRule(rules[1..], r)
  }

  /** The stable sort by that order. */
  function SortRules(rules: seq<Rule>): (s: seq<Rule>)
    ensures forall x :: x in s <==> x in rules
  {
    if rules == [] then []
    else
      assert rules == [rules[0]] + rules[1..];
      InsertRule(SortRules(rules[1..]), rules[0])
  }

  lemma {:induction false} InsertKeepsRuleOrder(rules: seq<Rule>, r: Rule)
    requires InRuleOrder(rules)
    ensures InRuleOrder(InsertRule(rules, r))
  {
    if rules != [] {
      if Sooner(rules[0], r) {
        InsertKeepsRuleOrder(rules[1..], r);
        var rest := InsertRule(rules[1..], r);
        forall x | x in rest
          ensures !Sooner(x, rules[0])
        {
          if x != r {
            var i :| 0 <= i < |rules[1..]| && rules[1..][i] == x;
            assert rules[i + 1] == x;
          }
        }
      } else {
        assert forall i | 0 < i < |rules| :: !Sooner(rules[i], rules[0]);
      }
    }
  }

  lemma {:induction false} SortedRulesInOrder(rules: seq<Rule>)
    ensures InRuleOrder(SortRules(rules))
  {
    if rules != [] {
      SortedRulesInOrder(rules[1..]);
      InsertKeepsRuleOrder(SortRules(rules[1..]), rules[0]);
    }
  }

  /** The rules a write to these sections must re-run: all of them, and only them, in the order they
      are reported, together with the sections they look at, in lock order. */
  method RulesTouching(reg: Registry, touched: set<Section>) returns (rules: seq<Rule>, load: seq<Section>)
    ensures forall r :: r in rules <==> r in reg.rules && r.Touches(touched)
    ensures forall i, j | 0 <= i < j < |rules| && rules[i].reads_ != [] :: rules[j].reads_ != [] && rules[i].section <= rules[j].section
    ensures forall i, j | 0 <= i < j < |rules| && rules[j].reads_ == [] :: rules[i].section <= rules[j].section
    ensures InRuleOrder(rules)
    ensures Ascending(load) && SetOf(load) == LoadSet(reg, touched)
    ensures forall s :: s in load <==> s in touched || exists r :: r in rules && (s == r.section || s in r.reads_)
  {
    rules := [];
    var loadSet := touched;
    for i := 0 to |reg.rules|
      invariant forall r :: r in rules <==> r in reg.rules[..i] && r.Touches(touched)
      invariant loadSet == touched + Seen(rules)
    {
      var rule := reg.rules[i];
      assert reg.rules[..i + 1] == reg.rules[..i] + [rule];
      var hit := rule.section in touched;
      for j := 0 to |rule.reads_|
        invariant hit <==> rule.section in touched || exists r :: r in rule.reads_[..j] && r in touched
      {
        assert rule.reads_[..j + 1] == rule.reads_[..j] + [rule.reads_[j]];
        hit := hit || rule.reads_[j] in touched;
      }
      assert rule.reads_[..|rule.reads_|] == rule.reads_;
      if hit {
        SeenAppend(rules, rule);
        rules := rules + [rule];
        loadSet := loadSet + {rule.section} + set s | s in rule.reads_;
      }
    }
    assert reg.rules[..|reg.rules|] == reg.rules;
    load := SortSections(loadSet);
    assert SetOf(load) == loadSet;
    SortedRulesInOrder(rules);
    LoadedSections(touched, rules, SortRules(rules), load);
    rules := SortRules(rules);
  }

  method SortSections(sections: set<Section>) returns (sorted: seq<Section>)
    ensures Ascending(sorted)
    ensures forall s :: s in sorted <==> s in sections
  {
    sorted := [];
    var todo := sections;
    while todo != {}
      invariant todo <= sections
      invariant Ascending(sorted) && forall s :: s in sorted <==> s in sections && s !in todo
      invariant forall i, t | 0 <= i < |sorted| && t in todo :: sorted[i] < t
      decreases |todo|
    {
      var least := Least(todo);
      sorted := sorted + [least];
      todo := todo - {least};
    }
  }

  method Least(s: set<nat>) returns (least: nat)
    requires s != {}
    ensures least in s && forall x | x in s :: least <= x
  {
    least :| least in s;
    var todo := s - {least};
    while todo != {}
      invariant todo <= s && least in s
      invariant forall x | x in s && x !in todo :: least <= x
      decreases |todo|
    {
      var x :| x in todo;
      if x < least {
        least := x;
      }
      todo := todo - {x};
    }
  }

  /*********************** Planning a batch ***********************/

  function TouchedBy(reg: Registry, changes: seq<Change>): set<Section> {
    set c | c in changes && c.key in reg.specs && reg.specs[c.key].section.Some? :: reg.specs[c.key].section.value
  }

  predicate Distinct(changes: seq<Change>) {
    forall i, j | 0 <= i < j < |changes| :: changes[i].key != changes[j].key
  }

  /** Every key is registered, none twice, every value fits its kind. */
  predicate Admissible(reg: Registry, changes: seq<Change>) {
    Distinct(changes) && forall c | c in changes :: c.key in reg.specs && reg.specs[c.key].Validates(c.value)
  }

  /** The batch passes every rule it touches, on the values it would leave. */
  ghost predicate Passes(reg: Registry, masterKey: nat, rows: Rows, changes: seq<Change>) {
    var touched := TouchedBy(reg, changes);
    forall r | r in reg.rules && r.Touches(touched) ::
      r.check(Merge(reg, Load(reg, masterKey, rows, LoadSet(reg, touched)), changes))
  }

  /** The section of a touched rule that fails on the values the batch would leave, no touched rule
      before it in reporting order failing. */
  ghost predicate FirstBroken(reg: Registry, masterKey: nat, rows: Rows, changes: seq<Change>, sec: Section) {
    var touched := TouchedBy(reg, changes);
    var values := Merge(reg, Load(reg, masterKey, rows, LoadSet(reg, touched)), changes);
    exists r :: r in reg.rules && r.Touches(touched) && r.section == sec && !r.check(values)
                && forall q | q in reg.rules && q.Touches(touched) && !q.check(values) :: !Sooner(q, r)
  }

  /** A reason to refuse a batch before any rule is looked at: a key that is not registered, a key that
      occurs twice, a value that its kind does not admit. */
  ghost predicate Objection(reg: Registry, changes: seq<Change>, r: Rejection) {
    match r
    case UnknownKey(k) => k !in reg.specs && exists c :: c in changes && c.key == k
    case Duplicate(k) => exists i, j :: 0 <= i < j < |changes| && changes[i].key == k == changes[j].key
    case Invalid(k) => k in reg.specs && exists c :: c in changes && c.key == k && !Fits(reg.specs[k], c.value)
    case RuleBroken(_) => false
  }

  /** A secret is any text, a value of another kind what that kind accepts. */
  predicate Fits(spec: Spec, v: Json) {
    (spec.secret ==> v.decoded.Some?) && (!spec.secret ==> spec.accepts(v))
  }

  /** A batch is admissible exactly when there is no objection to it. */
  lemma AdmissibleIff(reg: Registry, changes: seq<Change>)
    ensures Admissible(reg, changes) <==> forall r :: !Objection(reg, changes, r)
  {
    if !Admissible(reg, changes) {
      if !Distinct(changes) {
        var i, j :| 0 <= i < j < |changes| && changes[i].key == changes[j].key;
        assert Objection(reg, changes, Duplicate(changes[i].key));
      } else {
        var c :| c in changes && !(c.key in reg.specs && reg.specs[c.key].Validates(c.value));
        assert Objection(reg, changes, if c.key in reg.specs then Invalid(c.key) else UnknownKey(c.key));
      }
    }
  }

  method CheckAdmissible(reg: Registry, changes: seq<Change>) returns (rejected: Option<Rejection>, touched: set<Section>)
    ensures rejected.None? <==> Admissible(reg, changes)
    ensures rejected.None? ==> touched == TouchedBy(reg, changes)
    ensures rejected.Some? ==> Objection(reg, changes, rejected.value)
  {
    touched := {};
    var seen: set<Key> := {};
    for i := 0 to |changes|
      invariant seen == set c | c in changes[..i] :: c.key
      invariant Admissible(reg, changes[..i]) && touched == TouchedBy(reg, changes[..i])
    {
      var c := changes[i];
      assert changes[..i + 1] == changes[..i] + [c];
      assert c in changes;
      if c.key !in reg.specs {
        return Some(UnknownKey(c.key)), touched;
      }
      if c.key in seen {
        ghost var d :| d in changes[..i] && d.key == c.key;
        ghost var j :| 0 <= j < i && changes[..i][j] == d;
        assert changes[j].key == c.key;
        return Some(Duplicate(c.key)), touched;
      }
      forall j | 0 <= j < i ensures changes[j].key != c.key {
        assert changes[..i][j] in changes[..i];
      }
      seen := seen + {c.key};
      if !reg.specs[c.key].Validates(c.value) {
        return Some(Invalid(c.key)), touched;
      }
      if reg.specs[c.key].section.Some? {
        touched := touched + {reg.specs[c.key].section.value};
      }
    }
    assert changes[..|changes|] == changes;
    rejected := None;
  }

  /** Validates a batch against the registry and the section rules; writes nothing. */
  method Plan(reg: Registry, masterKey: nat, rows: Rows, changes: seq<Change>) returns (rejected: Option<Rejection>)
    ensures rejected.None? <==> Admissible(reg, changes) && Passes(reg, masterKey, rows, changes)
    ensures rejected.Some? && rejected.value.RuleBroken? ==>
              Admissible(reg, changes) && FirstBroken(reg, masterKey, rows, changes, rejected.value.section)
    ensures rejected.Some? && !rejected.value.RuleBroken? ==> Objection(reg, changes, rejected.value)
  {
    var touched;
    rejected, touched := CheckAdmissible(reg, changes);
    if rejected.Some? {
      return;
    }
    var rules, load := RulesTouching(reg, touched);
    if rules == [] {
      return;
    }
    var values := LoadValues(reg, masterKey, rows, load);
    ghost var loaded := values;
    for i := 0 to |changes|
      invariant values == Merge(reg, loaded, changes[..i])
    {
      assert changes[..i + 1][..i] == changes[..i];
      if Clears(reg, changes[i]) {
        values := values - {changes[i].key};
      } else {
        values := values[changes[i].key := changes[i].value];
      }
    }
    assert changes[..|changes|] == changes;
    for i := 0 to |rules|
      invariant forall j | 0 <= j < i :: rules[j].check(values)
    {
      assert rules[i] in rules;
      if !rules[i].check(values) {
        forall q | q in rules && !q.check(values)
          ensures !Sooner(q, rules[i])
        {
          var j :| 0 <= j < |rules| && rules[j] == q;
          assert j >= i;
        }
        return Some(RuleBroken(rules[i].section));
      }
    }
  }

  /** The settings table behind a registry and a master key. */
  class Store {
    const reg: Registry
    const masterKey: nat
    var rows: Rows

    constructor (reg: Registry, masterKey: nat)
      ensures this.reg == reg && this.masterKey == masterKey && rows == map[]
    {
      this.reg, this.masterKey, rows := reg, masterKey, map[];
    }

    /** Stores one value: plain, sealed, or, for an emptied secret, no row at all. */
    method Put(c: Change)
      requires c.key in reg.specs
      modifies this
      ensures rows == SetRow(reg, masterKey, old(rows), c)
      ensures forall k | k in reg.specs ::
                EffectiveAt(reg, masterKey, rows, k)
                == if k != c.key then EffectiveAt(reg, masterKey, old(rows), k) else if Clears(reg, c) then None else Some(c.value)
      ensures forall k | k != c.key :: k in rows <==> k in old(rows)
    {
      if !reg.specs[c.key].secret {
        rows := rows[c.key := PlainValue(c.value)];
      } else if c.value.decoded == Some("") {
        rows := rows - {c.key};
      } else {
        rows := rows[c.key := Sealed(c.key, c.value, masterKey)];
      }
    }

    /** Writes a batch as one thing: everything, or, when a check fails, nothing. */
    method Apply(changes: seq<Change>) returns (rejected: Option<Rejection>, written: seq<Key>)
      modifies this
      ensures rejected.None? <==> Admissible(reg, changes) && Passes(reg, masterKey, old(rows), changes)
      ensures rejected.Some? ==> rows == old(rows) && written == []
      ensures rejected.Some? && rejected.value.RuleBroken? ==> FirstBroken(reg, masterKey, old(rows), changes, rejected.value.section)
      ensures rejected.None? ==> rows == WriteAll(reg, masterKey, old(rows), changes)
      ensures rejected.None? ==> |written| == |changes| && forall i | 0 <= i < |changes| :: written[i] == changes[i].key
    {
      written := [];
      rejected := Plan(reg, masterKey, rows, changes);
      if rejected.Some? {
        return;
      }
      for i := 0 to |changes|
        invariant rows == WriteAll(reg, masterKey, old(rows), changes[..i])
        invariant |written| == i && forall j | 0 <= j < i :: written[j] == changes[j].key
      {
        assert changes[..i + 1][..i] == changes[..i];
        assert changes[i] in changes;
        Put(changes[i]);
        written := written + [changes[i].key];
      }
      assert changes[..|changes|] == changes;
    }
  }
}
