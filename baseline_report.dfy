/**
 * The UI baseline reporter: it compares the baselines recorded for each UI
 * component in this run with those of the previous run, counts what was
 * added, removed and changed, files each change under a category, and renders
 * line-by-line diffs of layout metrics, state lists and accessibility labels.
 */
module BaselineReport {
  import opened Wrappers
  import opened Strings
  import opened Ordering

  /**
   * A baseline value as it reaches the reporter through `Any`: a `String`, a
   * `[String: CGFloat]` of layout metrics (CGFloat as a real), a `[String]` of
   * states, a `[String: String]` of accessibility labels, or a value that none
   * of the four casts accepts, named by `typeName`.
   */
  datatype BaselineValue =
    | Text(text: string)
    | Metrics(metrics: map<string, real>)
    | States(states: seq<string>)
    | Labels(labels: map<string, string>)
    | Unsupported(typeName: string)

  /**
   * `value as? [String: CGFloat]`. Swift casts an empty dictionary to any
   * dictionary type, so an empty label map passes as an empty metric map.
   */
  function AsMetrics(v: BaselineValue): Option<map<string, real>> {
    match v
    case Metrics(m) => Some(m)
    case Labels(m) => if m == map[] then Some(map[]) else None
    case _ => None
  }

  /** `value as? [String]` */
  function AsStates(v: BaselineValue): Option<seq<string>> {
    if v.States? then Some(v.states) else None
  }

  /** `value as? [String: String]`; an empty metric map passes as an empty label map. */
  function AsLabels(v: BaselineValue): Option<map<string, string>> {
    match v
    case Labels(m) => Some(m)
    case Metrics(m) => if m == map[] then Some(map[]) else None
    case _ => None
  }

  /** An empty dictionary, of either dictionary type. */
  predicate EmptyMap(v: BaselineValue) {
    v == Metrics(map[]) || v == Labels(map[])
  }

  /**
   * `compareValues`: the first case whose two casts both succeed decides, by
   * equality of the cast values; no matching case means "different".
   */
  predicate Same(v1: BaselineValue, v2: BaselineValue) {
    if v1.Text? && v2.Text? then v1.text == v2.text
    else if AsMetrics(v1).Some? && AsMetrics(v2).Some? then AsMetrics(v1).value == AsMetrics(v2).value
    else if AsStates(v1).Some? && AsStates(v2).Some? then AsStates(v1).value == AsStates(v2).value
    else if AsLabels(v1).Some? && AsLabels(v2).Some? then AsLabels(v1).value == AsLabels(v2).value
    else false
  }

  /**
   * Two values compare the same exactly when they are equal values of a
   * supported kind, or both empty dictionaries of whatever type; a value that
   * none of the four casts accepts differs even from itself.
   */
  lemma SameIff(v1: BaselineValue, v2: BaselineValue)
    ensures Same(v1, v2) <==> (v1 == v2 && !v1.Unsupported?) || (EmptyMap(v1) && EmptyMap(v2))
  {
    if v1.Metrics? && v2.Labels? && v2.labels == map[] && Same(v1, v2) {
      assert v1.metrics == map[];
    }
    if v1.Labels? && v2.Metrics? && v1.labels == map[] && Same(v1, v2) {
      assert v2.metrics == map[];
    }
  }

  /** The order of the arguments does not matter. */
  lemma SameSymmetric(v1: BaselineValue, v2: BaselineValue)
    ensures Same(v1, v2) == Same(v2, v1)
  {
    SameIff(v1, v2);
    SameIff(v2, v1);
  }

  /** The reporter's change lists, which `categorizeChange` extends through `inout` parameters. */
  datatype Changes = Changes(
    hierarchy: seq<string>,
    layout: seq<(string, map<string, real>, map<string, real>)>,
    states: seq<(string, seq<string>, seq<string>)>,
    accessibility: seq<(string, map<string, string>, map<string, string>)>)

  const NoChanges := Changes([], [], [], [])

  /** How many changes the lists hold altogether. */
  function Size(c: Changes): nat {
    |c.hierarchy| + |c.layout| + |c.states| + |c.accessibility|
  }

  const HierarchyMarker := "Hierarchy"
  const StructurePrefix := "Structure changed in "

  /** The hierarchy entry for `key`: the key with every occurrence of "Hierarchy" taken out. */
  function HierarchyMessage(key: string): (m: string)
    ensures StartsWith(m, StructurePrefix)
    ensures |m| <= |StructurePrefix| + |key|
    ensures Contains(key, HierarchyMarker) ==> |m| < |StructurePrefix| + |key|
  {
    RemoveAllShrinks(key, HierarchyMarker);
    StructurePrefix + RemoveAll(key, HierarchyMarker)
  }

  /** `categorizeChange`: files a change under the first category that applies, or under none. */
  function Categorize(key: string, previous: BaselineValue, current: BaselineValue, c: Changes): (r: Changes)
    ensures Size(r) <= Size(c) + 1
  {
    if Contains(key, HierarchyMarker) then
      c.(hierarchy := c.hierarchy + [HierarchyMessage(key)])
    else if AsMetrics(previous).Some? && AsMetrics(current).Some? then
      c.(layout := c.layout + [(key, AsMetrics(previous).value, AsMetrics(current).value)])
    else if AsStates(previous).Some? && AsStates(current).Some? then
      c.(states := c.states + [(key, AsStates(previous).value, AsStates(current).value)])
    else if AsLabels(previous).Some? && AsLabels(current).Some? then
      c.(accessibility := c.accessibility + [(key, AsLabels(previous).value, AsLabels(current).value)])
    else c
  }

  /** Whether `categorizeChange` files the change at all. */
  predicate Recorded(key: string, previous: BaselineValue, current: BaselineValue) {
    Contains(key, HierarchyMarker)
    || (previous.Metrics? && current.Metrics?)
    || (previous.States? && current.States?)
    || (previous.Labels? && current.Labels?)
    || (EmptyMap(previous) && (current.Metrics? || current.Labels?))
    || (EmptyMap(current) && (previous.Metrics? || previous.Labels?))
  }

  /**
   * A change is filed exactly when its key names a hierarchy or both values are
   * dictionaries or lists of the same kind (an empty dictionary taking either
   * dictionary kind); it then lands at the end of one list, and every list keeps
   * what it held.
   */
  lemma CategorizeFilesOnce(key: string, previous: BaselineValue, current: BaselineValue, c: Changes)
    ensures var r := Categorize(key, previous, current, c);
      Size(r) == Size(c) + (if Recorded(key, previous, current) then 1 else 0)
      && r.hierarchy[..|c.hierarchy|] == c.hierarchy
      && r.layout[..|c.layout|] == c.layout
      && r.states[..|c.states|] == c.states
      && r.accessibility[..|c.accessibility|] == c.accessibility
  {
  }

  /** A key naming a hierarchy is filed as a structure change whatever its values are. */
  lemma HierarchyKeysFirst(key: string, previous: BaselineValue, current: BaselineValue, c: Changes)
    requires Contains(key, HierarchyMarker)
    ensures Categorize(key, previous, current, c) == c.(hierarchy := c.hierarchy + [HierarchyMessage(key)])
  {
  }

  /**
   * Two different values of one dictionary or list kind under a key without
   * "Hierarchy" are filed under that kind, with both values.
   */
  lemma SameKindFiledByKind(key: string, previous: BaselineValue, current: BaselineValue, c: Changes)
    requires !Contains(key, HierarchyMarker) && !Same(previous, current)
    ensures previous.Metrics? && current.Metrics? ==>
      Categorize(key, previous, current, c) == c.(layout := c.layout + [(key, previous.metrics, current.metrics)])
    ensures previous.States? && current.States? ==>
      Categorize(key, previous, current, c) == c.(states := c.states + [(key, previous.states, current.states)])
    ensures previous.Labels? && current.Labels? ==>
      Categorize(key, previous, current, c) == c.(accessibility := c.accessibility + [(key, previous.labels, current.labels)])
  {
  }

  /** Changed strings, changes between kinds, and values no cast accepts are counted but filed nowhere. */
  lemma UnfiledChanges(key: string, previous: BaselineValue, current: BaselineValue, c: Changes)
    requires !Contains(key, HierarchyMarker)
    requires previous.Text? || current.Text? || previous.Unsupported? || current.Unsupported?
      || (previous.Metrics? && current.States?) || (previous.States? && current.Metrics?)
      || (previous.Labels? && current.States?) || (previous.States? && current.Labels?)
      || (previous.Metrics? && current.Labels? && previous.metrics != map[] && current.labels != map[])
      || (previous.Labels? && current.Metrics? && previous.labels != map[] && current.metrics != map[])
    ensures Categorize(key, previous, current, c) == c
  {
  }

  /** An emptied metric map replaced by labels is filed as an accessibility change from empty labels. */
  lemma EmptyMetricsBecomeLabels(key: string, labels: map<string, string>, c: Changes)
    requires !Contains(key, HierarchyMarker) && labels != map[]
    ensures Categorize(key, Metrics(map[]), Labels(labels), c)
      == c.(accessibility := c.accessibility + [(key, map[], labels)])
  {
  }

  /** The keys present in both runs whose values compare different. */
  ghost function ChangedKeys(current: map<string, BaselineValue>, previous: map<string, BaselineValue>, keys: set<string>): set<string> {
    set k | k in keys && k in current && k in previous && !Same(current[k], previous[k])
  }

  /** The changed keys whose change `categorizeChange` files. */
  ghost function FiledKeys(current: map<string, BaselineValue>, previous: map<string, BaselineValue>, keys: set<string>): set<string> {
    set k | k in ChangedKeys(current, previous, keys) && Recorded(k, previous[k], current[k])
  }

  /** Every filed entry comes from a changed key, with the values cast as `categorizeChange` casts them. */
  ghost predicate EntriesFrom(c: Changes, current: map<string, BaselineValue>, previous: map<string, BaselineValue>, keys: set<string>) {
    var changed := ChangedKeys(current, previous, keys);
    (forall m | m in c.hierarchy ::
      exists k | k in changed :: Contains(k, HierarchyMarker) && m == HierarchyMessage(k))
    && (forall e | e in c.layout ::
         e.0 in changed && !Contains(e.0, HierarchyMarker)
         && Some(e.1) == AsMetrics(previous[e.0]) && Some(e.2) == AsMetrics(current[e.0]))
    && (forall e | e in c.states ::
         e.0 in changed && !Contains(e.0, HierarchyMarker)
         && Some(e.1) == AsStates(previous[e.0]) && Some(e.2) == AsStates(current[e.0]))
    && (forall e | e in c.accessibility ::
         e.0 in changed && !Contains(e.0, HierarchyMarker)
         && Some(e.1) == AsLabels(previous[e.0]) && Some(e.2) == AsLabels(current[e.0]))
  }

  /** Filing the change of a changed key keeps every entry accounted for. */
  lemma EntriesStep(c: Changes, current: map<string, BaselineValue>, previous: map<string, BaselineValue>, key: string)
    requires key in ChangedKeys(current, previous, current.Keys)
    requires EntriesFrom(c, current, previous, current.Keys)
    ensures EntriesFrom(Categorize(key, previous[key], current[key], c), current, previous, current.Keys)
  {
  }

  /** The entry `categorizeChange` files for a change of `key` from `previous` to `current` is in the lists. */
  ghost predicate HasEntry(c: Changes, key: string, previous: BaselineValue, current: BaselineValue) {
    if Contains(key, HierarchyMarker) then HierarchyMessage(key) in c.hierarchy
    else if AsMetrics(previous).Some? && AsMetrics(current).Some? then
      (key, AsMetrics(previous).value, AsMetrics(current).value) in c.layout
    else if AsStates(previous).Some? && AsStates(current).Some? then
      (key, AsStates(previous).value, AsStates(current).value) in c.states
    else if AsLabels(previous).Some? && AsLabels(current).Some? then
      (key, AsLabels(previous).value, AsLabels(current).value) in c.accessibility
    else false
  }

  /** Every filed key among `keys` has its entry in the lists. */
  ghost predicate EntriesFor(c: Changes, current: map<string, BaselineValue>, previous: map<string, BaselineValue>, keys: set<string>) {
    forall k | k in FiledKeys(current, previous, keys) :: HasEntry(c, k, previous[k], current[k])
  }

  /** Filing another change never loses an entry already filed. */
  lemma KeepsEntry(c: Changes, k: string, p: BaselineValue, q: BaselineValue, key: string, previous: BaselineValue, current: BaselineValue)
    requires HasEntry(c, k, p, q)
    ensures HasEntry(Categorize(key, previous, current, c), k, p, q)
  {
  }

  /** The statistics and change lists `generateReport` gathers before writing the report. */
  datatype Summary = Summary(total: nat, changed: nat, added: nat, removed: nat, changes: Changes)

  /**
   * The counting part of `generateReport`: one pass over the current baselines,
   * in no particular order, and one over the previous baselines' keys.
   */
  method Summarize(current: map<string, BaselineValue>, previous: map<string, BaselineValue>) returns (s: Summary)
    ensures s.total == |current|
    ensures s.added == |current.Keys - previous.Keys|
    ensures s.removed == |previous.Keys - current.Keys|
    ensures s.changed == |ChangedKeys(current, previous, current.Keys)|
    ensures Size(s.changes) == |FiledKeys(current, previous, current.Keys)|
    ensures EntriesFrom(s.changes, current, previous, current.Keys)
    ensures EntriesFor(s.changes, current, previous, current.Keys)
    ensures exists order :: FiledInSomeOrder(s.changes, order, current, previous)
  {
    var changed, added, changes;
    ghost var order;
    changed, added, changes, order := CompareCurrent(current, previous);
    var removed := CountRemoved(current, previous);
    s := Summary(|current|, changed, added, removed, changes);
    assert FiledInSomeOrder(s.changes, order, current, previous);
  }

  /**
   * The loop over the current baselines: a key missing before is added; a key
   * whose values compare different is changed, and its change is categorized.
   */
  method CompareCurrent(current: map<string, BaselineValue>, previous: map<string, BaselineValue>)
    returns (changed: nat, added: nat, changes: Changes, ghost order: seq<string>)
    ensures added == |current.Keys - previous.Keys|
    ensures changed == |ChangedKeys(current, previous, current.Keys)|
    ensures AllChanged(order, current, previous) && Distinct(order)
    ensures forall k :: k in order <==> k in ChangedKeys(current, previous, current.Keys)
    ensures changes == FileAll(order, current, previous)
    ensures Size(changes) == |FiledKeys(current, previous, current.Keys)|
    ensures EntriesFrom(changes, current, previous, current.Keys)
    ensures EntriesFor(changes, current, previous, current.Keys)
  {
    changed, added, changes := 0, 0, NoChanges;
    var todo := current.Keys;
    order := [];
    while todo != {}
      invariant todo <= current.Keys
      invariant added + |todo - previous.Keys| == |current.Keys - previous.Keys|
      invariant changed + |ChangedKeys(current, previous, todo)| == |ChangedKeys(current, previous, current.Keys)|
      invariant AllChanged(order, current, previous) && Distinct(order)
      invariant forall k :: k in order <==> k in ChangedKeys(current, previous, current.Keys - todo)
      invariant changes == FileAll(order, current, previous)
      decreases |todo|
    {
      var key :| key in todo;
      TakeOut(todo, previous.Keys, key);
      TakeOutChanged(current, previous, todo, key);
      order := Extend(order, key, current, previous, todo);
      if key in previous {
        if !Same(current[key], previous[key]) {
          changed := changed + 1;
          changes := Categorize(key, previous[key], current[key], changes);
        }
      } else {
        added := added + 1;
      }
      todo := todo - {key};
    }
    FileAllMeaning(order, current, previous);
  }

  /**
   * The ghost record of filed keys follows the loop body: `key` is added exactly
   * when its change is categorized.
   */
  lemma Extend(order: seq<string>, key: string, current: map<string, BaselineValue>, previous: map<string, BaselineValue>, todo: set<string>)
    returns (order': seq<string>)
    requires key in todo && todo <= current.Keys
    requires AllChanged(order, current, previous) && Distinct(order)
    requires forall k :: k in order <==> k in ChangedKeys(current, previous, current.Keys - todo)
    ensures AllChanged(order', current, previous) && Distinct(order')
    ensures forall k :: k in order' <==> k in ChangedKeys(current, previous, current.Keys - (todo - {key}))
    ensures FileAll(order', current, previous) == if key in previous && !Same(current[key], previous[key])
      then Categorize(key, previous[key], current[key], FileAll(order, current, previous))
      else FileAll(order, current, previous)
  {
    if key in previous && !Same(current[key], previous[key]) {
      FileAllSnoc(order, key, current, previous);
      order' := order + [key];
    } else {
      order' := order;
    }
  }

  /**
   * `c` is what `categorizeChange` builds from empty lists when it is called once
   * for each changed key, in the order `order`.
   */
  ghost predicate FiledInSomeOrder(c: Changes, order: seq<string>, current: map<string, BaselineValue>, previous: map<string, BaselineValue>) {
    && AllChanged(order, current, previous) && Distinct(order)
    && (forall k :: k in order <==> k in ChangedKeys(current, previous, current.Keys))
    && c == FileAll(order, current, previous)
  }

  /** Every key of `order` is present in both runs with values that compare different. */
  ghost predicate AllChanged(order: seq<string>, current: map<string, BaselineValue>, previous: map<string, BaselineValue>) {
    forall k | k in order :: k in current && k in previous && !Same(current[k], previous[k])
  }

  /** No key occurs twice in `order`. */
  ghost predicate Distinct(order: seq<string>) {
    forall i, j | 0 <= i < j < |order| :: order[i] != order[j]
  }

  /**
   * The change lists after `categorizeChange` has filed the changes of the keys
   * of `order`, one after the other, starting from empty lists.
   */
  ghost function FileAll(order: seq<string>, current: map<string, BaselineValue>, previous: map<string, BaselineValue>): Changes
    requires AllChanged(order, current, previous)
  {
    if order == [] then NoChanges
    else
      var key := order[|order| - 1];
      Categorize(key, previous[key], current[key], FileAll(order[..|order| - 1], current, previous))
  }

  /** Filing one more changed key, not filed before, extends the fold by one step. */
  lemma FileAllSnoc(order: seq<string>, key: string, current: map<string, BaselineValue>, previous: map<string, BaselineValue>)
    requires AllChanged(order, current, previous) && Distinct(order) && key !in order
    requires key in current && key in previous && !Same(current[key], previous[key])
    ensures AllChanged(order + [key], current, previous) && Distinct(order + [key])
    ensures FileAll(order + [key], current, previous)
         == Categorize(key, previous[key], current[key], FileAll(order, current, previous))
  {
    assert (order + [key])[..|order|] == order;
  }

  /** The changed keys of `order` whose change `categorizeChange` files. */
  ghost function FiledOf(order: seq<string>, current: map<string, BaselineValue>, previous: map<string, BaselineValue>): set<string>
    requires AllChanged(order, current, previous)
  {
    set k | k in order && Recorded(k, previous[k], current[k])
  }

  /** Filing the keys of `order` adds one entry per filed key. */
  lemma {:induction false} FileAllSize(order: seq<string>, current: map<string, BaselineValue>, previous: map<string, BaselineValue>)
    requires AllChanged(order, current, previous) && Distinct(order)
    ensures Size(FileAll(order, current, previous)) == |FiledOf(order, current, previous)|
    decreases |order|
  {
    if order != [] {
      var rest, key := order[..|order| - 1], order[|order| - 1];
      assert AllChanged(rest, current, previous) && Distinct(rest);
      FileAllSize(rest, current, previous);
      CategorizeFilesOnce(key, previous[key], current[key], FileAll(rest, current, previous));
      assert key !in rest;
      if Recorded(key, previous[key], current[key]) {
        assert FiledOf(order, current, previous) == FiledOf(rest, current, previous) + {key};
      } else {
        assert FiledOf(order, current, previous) == FiledOf(rest, current, previous);
      }
    }
  }

  /** Every entry the fold files comes from a changed key. */
  lemma {:induction false} FileAllFrom(order: seq<string>, current: map<string, BaselineValue>, previous: map<string, BaselineValue>)
    requires AllChanged(order, current, previous)
    ensures EntriesFrom(FileAll(order, current, previous), current, previous, current.Keys)
    decreases |order|
  {
    if order != [] {
      var rest, key := order[..|order| - 1], order[|order| - 1];
      assert AllChanged(rest, current, previous);
      FileAllFrom(rest, current, previous);
      EntriesStep(FileAll(rest, current, previous), current, previous, key);
    }
  }

  /** Every filed key of `order` has its entry in the fold's lists. */
  lemma {:induction false} FileAllFor(order: seq<string>, current: map<string, BaselineValue>, previous: map<string, BaselineValue>)
    requires AllChanged(order, current, previous)
    ensures forall k | k in FiledOf(order, current, previous) :: HasEntry(FileAll(order, current, previous), k, previous[k], current[k])
    decreases |order|
  {
    if order != [] {
      var rest, key := order[..|order| - 1], order[|order| - 1];
      assert AllChanged(rest, current, previous);
      FileAllFor(rest, current, previous);
      var c := FileAll(rest, current, previous);
      forall k | k in FiledOf(order, current, previous)
        ensures HasEntry(FileAll(order, current, previous), k, previous[k], current[k])
      {
        if k != key {
          assert k in FiledOf(rest, current, previous);
          KeepsEntry(c, k, previous[k], current[k], key, previous[key], current[key]);
        }
      }
    }
  }

  /** Filing every changed key once yields one entry per filed key, each from a changed key. */
  lemma FileAllMeaning(order: seq<string>, current: map<string, BaselineValue>, previous: map<string, BaselineValue>)
    requires AllChanged(order, current, previous) && Distinct(order)
    requires forall k :: k in order <==> k in ChangedKeys(current, previous, current.Keys)
    ensures Size(FileAll(order, current, previous)) == |FiledKeys(current, previous, current.Keys)|
    ensures EntriesFrom(FileAll(order, current, previous), current, previous, current.Keys)
    ensures EntriesFor(FileAll(order, current, previous), current, previous, current.Keys)
  {
    assert FiledOf(order, current, previous) == FiledKeys(current, previous, current.Keys);
    FileAllSize(order, current, previous);
    FileAllFrom(order, current, previous);
    FileAllFor(order, current, previous);
  }

  /** The loop over the previous baselines' keys: a key missing now is removed. */
  method CountRemoved(current: map<string, BaselineValue>, previous: map<string, BaselineValue>) returns (removed: nat)
    ensures removed == |previous.Keys - current.Keys|
  {
    removed := 0;
    var rest := previous.Keys;
    while rest != {}
      invariant removed + |rest - current.Keys| == |previous.Keys - current.Keys|
      decreases |rest|
    {
      var key :| key in rest;
      TakeOut(rest, current.Keys, key);
      if key !in current {
        removed := removed + 1;
      }
      rest := rest - {key};
    }
  }

  /** Taking one key out of `rest` takes it out of `rest - other` unless `other` holds it. */
  lemma TakeOut(rest: set<string>, other: set<string>, key: string)
    requires key in rest
    ensures |rest - other| == |(rest - {key}) - other| + (if key in other then 0 else 1)
  {
    if key in other {
      assert rest - other == (rest - {key}) - other;
    } else {
      assert rest - other == ((rest - {key}) - other) + {key};
    }
  }

  /** Taking one current key out of `todo` takes it out of the changed and the filed keys among `todo`. */
  lemma TakeOutChanged(current: map<string, BaselineValue>, previous: map<string, BaselineValue>, todo: set<string>, key: string)
    requires key in todo && key in current
    ensures var changes := key in previous && !Same(current[key], previous[key]);
      |ChangedKeys(current, previous, todo)| == |ChangedKeys(current, previous, todo - {key})| + (if changes then 1 else 0)
      && |FiledKeys(current, previous, todo)| == |FiledKeys(current, previous, todo - {key})|
        + (if changes && Recorded(key, previous[key], current[key]) then 1 else 0)
  {
    var before := ChangedKeys(current, previous, todo);
    var after := ChangedKeys(current, previous, todo - {key});
    if key in previous && !Same(current[key], previous[key]) {
      assert before == after + {key};
      if Recorded(key, previous[key], current[key]) {
        assert FiledKeys(current, previous, todo) == FiledKeys(current, previous, todo - {key}) + {key};
      } else {
        assert FiledKeys(current, previous, todo) == FiledKeys(current, previous, todo - {key});
      }
    } else {
      assert before == after;
      assert FiledKeys(current, previous, todo) == FiledKeys(current, previous, todo - {key});
    }
  }

  /** A subset is no larger than its superset. */
  lemma {:induction false} SubsetSize(a: set<string>, b: set<string>)
    requires a <= b
    ensures |a| <= |b|
    decreases |b|
  {
    if a != {} {
      var x :| x in a;
      SubsetSize(a - {x}, b - {x});
    }
  }

  /**
   * Changed and added components are disjoint sets of current components, so
   * together they never exceed the total; only changed components are filed.
   */
  lemma SummaryBounds(current: map<string, BaselineValue>, previous: map<string, BaselineValue>)
    ensures |ChangedKeys(current, previous, current.Keys)| + |current.Keys - previous.Keys| <= |current|
    ensures |FiledKeys(current, previous, current.Keys)| <= |ChangedKeys(current, previous, current.Keys)|
  {
    var changed := ChangedKeys(current, previous, current.Keys);
    var added := current.Keys - previous.Keys;
    assert changed * added == {};
    SubsetSize(changed + added, current.Keys);
    SubsetSize(FiledKeys(current, previous, current.Keys), changed);
  }

  /** Comparing a set of baselines with itself finds nothing added, removed or filed, and changes only in values no cast accepts. */
  lemma SummaryOfSameBaselines(baselines: map<string, BaselineValue>)
    ensures ChangedKeys(baselines, baselines, baselines.Keys)
      == set k | k in baselines && baselines[k].Unsupported?
  {
    forall k | k in baselines
      ensures Same(baselines[k], baselines[k]) <==> !baselines[k].Unsupported?
    {
      SameIff(baselines[k], baselines[k]);
    }
  }

  // Line-by-line diffs

  /** The text of a diff: the text of each line, in order. */
  function Render<T>(lines: seq<T>, text: T -> string): string {
    if lines == [] then ""
    else Render(lines[..|lines| - 1], text) + text(lines[|lines| - 1])
  }

  /** Rendering concatenated lines concatenates their texts. */
  lemma {:induction false} RenderAppend<T>(a: seq<T>, b: seq<T>, text: T -> string)
    ensures Render(a + b, text) == Render(a, text) + Render(b, text)
    decreases |b|
  {
    if b == [] {
      assert a + b == a;
    } else {
      var c := a + b;
      assert c[..|c| - 1] == a + b[..|b| - 1];
      assert c[|c| - 1] == b[|b| - 1];
      RenderAppend(a, b[..|b| - 1], text);
    }
  }

  lemma RenderSnoc<T>(lines: seq<T>, line: T, text: T -> string)
    ensures Render(lines + [line], text) == Render(lines, text) + text(line)
  {
    assert (lines + [line])[..|lines|] == lines;
  }

  /** How a diff line starts: "+ " for something new, "- " for something gone, two spaces otherwise. */
  datatype Mark = Added | Removed | Unchanged

  function MarkPrefix(m: Mark): string {
    match m
    case Added => "+ "
    case Removed => "- "
    case Unchanged => "  "
  }

  /** One line of a layout or accessibility diff: a key and the value it shows. */
  datatype KeyedLine<V> = KeyedLine(mark: Mark, key: string, value: V)

  /**
   * The lines the diff prints for one key: the current value of a new key, the
   * previous value of a dropped key, both values of a changed key (previous
   * first), and otherwise the previous value, or `fallback` when there is none.
   */
  function KeyLines<V(==)>(key: string, previous: map<string, V>, current: map<string, V>, fallback: V): seq<KeyedLine<V>> {
    if key !in previous && key in current then [KeyedLine(Added, key, current[key])]
    else if key in previous && key !in current then [KeyedLine(Removed, key, previous[key])]
    else if key in previous && key in current && previous[key] != current[key] then
      [KeyedLine(Removed, key, previous[key]), KeyedLine(Added, key, current[key])]
    else [KeyedLine(Unchanged, key, if key in previous then previous[key] else fallback)]
  }

  /** The lines for `keys`, key after key. */
  function KeyedLines<V(==)>(keys: seq<string>, previous: map<string, V>, current: map<string, V>, fallback: V): seq<KeyedLine<V>> {
    if keys == [] then []
    else KeyedLines(keys[..|keys| - 1], previous, current, fallback) + KeyLines(keys[|keys| - 1], previous, current, fallback)
  }

  /** The lines of a diff of two maps: the union of their keys, in sort order. */
  ghost function MapDiffLines<V>(previous: map<string, V>, current: map<string, V>, fallback: V): seq<KeyedLine<V>> {
    KeyedLines(Sorted(previous.Keys + current.Keys), previous, current, fallback)
  }

  /** "<mark><key>: <value>" and a line break; `show` is the value's text. */
  function KeyedText<V>(line: KeyedLine<V>, show: V -> string): string {
    MarkPrefix(line.mark) + line.key + ": " + show(line.value) + "\n"
  }

  /** `KeyedText` with the value's text fixed. */
  function KeyedTextOf<V>(show: V -> string): KeyedLine<V> -> string {
    line => KeyedText(line, show)
  }

  /** The text of a layout or accessibility diff: each line's text, in order. */
  function RenderKeyed<V>(lines: seq<KeyedLine<V>>, show: V -> string): string {
    Render(lines, KeyedTextOf(show))
  }

  /** The text of one key's lines, case by case. */
  lemma KeyLinesText<V>(key: string, previous: map<string, V>, current: map<string, V>, fallback: V, show: V -> string)
    ensures key !in previous && key in current ==>
      RenderKeyed(KeyLines(key, previous, current, fallback), show) == "+ " + key + ": " + show(current[key]) + "\n"
    ensures key in previous && key !in current ==>
      RenderKeyed(KeyLines(key, previous, current, fallback), show) == "- " + key + ": " + show(previous[key]) + "\n"
    ensures key in previous && key in current && previous[key] != current[key] ==>
      RenderKeyed(KeyLines(key, previous, current, fallback), show)
        == "- " + key + ": " + show(previous[key]) + "\n" + ("+ " + key + ": " + show(current[key]) + "\n")
    ensures (key in previous <==> key in current) && (key in previous ==> previous[key] == current[key]) ==>
      RenderKeyed(KeyLines(key, previous, current, fallback), show)
        == "  " + key + ": " + show(if key in previous then previous[key] else fallback) + "\n"
  {
    var text := KeyedTextOf(show);
    var lines := KeyLines(key, previous, current, fallback);
    RenderSnoc([], lines[0], text);
    assert [] + [lines[0]] == [lines[0]];
    assert Render([lines[0]], text) == KeyedText(lines[0], show);
    if |lines| == 2 {
      RenderSnoc([lines[0]], lines[1], text);
      assert [lines[0]] + [lines[1]] == lines;
    } else {
      assert [lines[0]] == lines;
    }
  }

  /**
   * The diff of two maps, as `generateLayoutDiff` and `generateAccessibilityDiff`
   * build it: one pass over the sorted union of the keys.
   */
  method KeyedDiff<V(==)>(previous: map<string, V>, current: map<string, V>, fallback: V, show: V -> string)
    returns (diff: string)
    ensures diff == RenderKeyed(MapDiffLines(previous, current, fallback), show)
  {
    diff := "";
    var allKeys := SortedKeys(previous.Keys + current.Keys);
    for i := 0 to |allKeys|
      invariant diff == RenderKeyed(KeyedLines(allKeys[..i], previous, current, fallback), show)
    {
      var key := allKeys[i];
      var text: string;
      if key !in previous && key in current {
        text := "+ " + key + ": " + show(current[key]) + "\n";
      } else if key in previous && key !in current {
        text := "- " + key + ": " + show(previous[key]) + "\n";
      } else if key in previous && key in current && previous[key] != current[key] {
        text := "- " + key + ": " + show(previous[key]) + "\n" + ("+ " + key + ": " + show(current[key]) + "\n");
      } else {
        text := "  " + key + ": " + show(if key in previous then previous[key] else fallback) + "\n";
      }
      KeyLinesText(key, previous, current, fallback, show);
      KeyedDiffStep(allKeys, i, previous, current, fallback, show);
      diff := diff + text;
    }
    assert allKeys[..|allKeys|] == allKeys;
  }

  /** One more key adds the text of that key's lines. */
  lemma KeyedDiffStep<V>(keys: seq<string>, i: nat, previous: map<string, V>, current: map<string, V>, fallback: V, show: V -> string)
    requires i < |keys|
    ensures RenderKeyed(KeyedLines(keys[..i + 1], previous, current, fallback), show)
         == RenderKeyed(KeyedLines(keys[..i], previous, current, fallback), show)
          + RenderKeyed(KeyLines(keys[i], previous, current, fallback), show)
  {
    assert keys[..i + 1] == keys[..i] + [keys[i]];
    RenderAppend(KeyedLines(keys[..i], previous, current, fallback), KeyLines(keys[i], previous, current, fallback), KeyedTextOf(show));
  }

  /** `generateLayoutDiff`; `show` stands for the textual form of a CGFloat. */
  method GenerateLayoutDiff(previous: map<string, real>, current: map<string, real>, show: real -> string)
    returns (diff: string)
    ensures diff == RenderKeyed(MapDiffLines(previous, current, 0.0), show)
  {
    diff := KeyedDiff(previous, current, 0.0, show);
  }

  /** `generateAccessibilityDiff`: labels print as they are. */
  method GenerateAccessibilityDiff(previous: map<string, string>, current: map<string, string>)
    returns (diff: string)
    ensures diff == RenderKeyed(MapDiffLines(previous, current, ""), Verbatim)
  {
    diff := KeyedDiff(previous, current, "", Verbatim);
  }

  function Verbatim(text: string): string {
    text
  }

  /** What a diff line claims about the two maps. */
  ghost predicate LineAgrees<V>(line: KeyedLine<V>, previous: map<string, V>, current: map<string, V>) {
    match line.mark
    case Added =>
      line.key in current && line.value == current[line.key]
      && (line.key in previous ==> previous[line.key] != current[line.key])
    case Removed =>
      line.key in previous && line.value == previous[line.key]
      && (line.key in current ==> previous[line.key] != current[line.key])
    case Unchanged =>
      line.key in previous && line.key in current
      && line.value == previous[line.key] && previous[line.key] == current[line.key]
  }

  /** Lines come in key order; the only two lines of one key are its removal followed by its addition. */
  ghost predicate KeyOrdered<V>(lines: seq<KeyedLine<V>>) {
    forall i, j | 0 <= i < j < |lines| ::
      Below(lines[i].key, lines[j].key)
      || (lines[i].key == lines[j].key && lines[i].mark == Removed && lines[j].mark == Added)
  }

  /** Every line names one of `keys` and tells the truth about it. */
  lemma {:induction false} KeyedLinesTruthful<V>(keys: seq<string>, previous: map<string, V>, current: map<string, V>, fallback: V)
    requires forall k | k in keys :: k in previous || k in current
    ensures forall l | l in KeyedLines(keys, previous, current, fallback) :: l.key in keys && LineAgrees(l, previous, current)
  {
    if keys != [] {
      var init := keys[..|keys| - 1];
      assert forall k | k in init :: k in keys;
      KeyedLinesTruthful(init, previous, current, fallback);
    }
  }

  /** Every key of `keys` gets the lines its values call for. */
  lemma {:induction false} KeyedLinesComplete<V>(keys: seq<string>, previous: map<string, V>, current: map<string, V>, fallback: V)
    ensures var lines := KeyedLines(keys, previous, current, fallback);
      (forall k | k in keys && k in current && (k !in previous || previous[k] != current[k]) ::
         KeyedLine(Added, k, current[k]) in lines)
      && (forall k | k in keys && k in previous && (k !in current || previous[k] != current[k]) ::
         KeyedLine(Removed, k, previous[k]) in lines)
      && (forall k | k in keys && k in previous && k in current && previous[k] == current[k] ::
         KeyedLine(Unchanged, k, previous[k]) in lines)
  {
    if keys != [] {
      var init := keys[..|keys| - 1];
      KeyedLinesComplete(init, previous, current, fallback);
      var before := KeyedLines(init, previous, current, fallback);
      var group := KeyLines(keys[|keys| - 1], previous, current, fallback);
      assert forall k | k in keys :: k in init || k == keys[|keys| - 1];
      assert forall l | l in before :: l in before + group;
      assert forall l | l in group :: l in before + group;
    }
  }

  /** Over strictly increasing keys, the lines come in key order. */
  lemma {:induction false} KeyedLinesOrdered<V>(keys: seq<string>, previous: map<string, V>, current: map<string, V>, fallback: V)
    requires StrictlyIncreasing(keys)
    requires forall k | k in keys :: k in previous || k in current
    ensures KeyOrdered(KeyedLines(keys, previous, current, fallback))
  {
    if keys != [] {
      var init := keys[..|keys| - 1];
      var last := keys[|keys| - 1];
      assert forall k | k in init :: k in keys;
      KeyedLinesOrdered(init, previous, current, fallback);
      KeyedLinesTruthful(init, previous, current, fallback);
      var before := KeyedLines(init, previous, current, fallback);
      var group := KeyLines(last, previous, current, fallback);
      var lines := before + group;
      forall l | l in before
        ensures Below(l.key, last)
      {
        var n :| 0 <= n < |init| && init[n] == l.key;
        assert keys[n] == init[n];
      }
      forall i, j | 0 <= i < j < |lines|
        ensures Below(lines[i].key, lines[j].key)
          || (lines[i].key == lines[j].key && lines[i].mark == Removed && lines[j].mark == Added)
      {
        if j < |before| {
          assert lines[i] == before[i] && lines[j] == before[j];
        } else if i < |before| {
          assert lines[i] in before && lines[j] == group[j - |before|];
        } else {
          assert lines[i] == group[i - |before|] && lines[j] == group[j - |before|];
        }
      }
    }
  }

  /**
   * A map diff has one line per key of either map, two for a changed value
   * (removal first), each saying truly whether the key was added, removed,
   * changed or kept, with the value it shows; and the lines come in key order.
   */
  lemma MapDiffMeaning<V>(previous: map<string, V>, current: map<string, V>, fallback: V)
    ensures var lines := MapDiffLines(previous, current, fallback);
      (forall l | l in lines :: LineAgrees(l, previous, current))
      && (forall k | k in current && (k !in previous || previous[k] != current[k]) ::
            KeyedLine(Added, k, current[k]) in lines)
      && (forall k | k in previous && (k !in current || previous[k] != current[k]) ::
            KeyedLine(Removed, k, previous[k]) in lines)
      && (forall k | k in previous && k in current && previous[k] == current[k] ::
            KeyedLine(Unchanged, k, previous[k]) in lines)
      && KeyOrdered(lines)
  {
    var keys := Sorted(previous.Keys + current.Keys);
    SortedListsSet(previous.Keys + current.Keys);
    KeyedLinesTruthful(keys, previous, current, fallback);
    KeyedLinesComplete(keys, previous, current, fallback);
    KeyedLinesOrdered(keys, previous, current, fallback);
  }

  /** A diff shows only unchanged lines exactly when the two maps are equal. */
  lemma MapDiffQuietIffEqual<V>(previous: map<string, V>, current: map<string, V>, fallback: V)
    ensures (forall l | l in MapDiffLines(previous, current, fallback) :: l.mark == Unchanged) <==> previous == current
  {
    MapDiffMeaning(previous, current, fallback);
    var lines := MapDiffLines(previous, current, fallback);
    if forall l | l in lines :: l.mark == Unchanged {
      assert forall k | k in current :: k in previous && previous[k] == current[k];
      assert forall k | k in previous :: k in current;
      assert previous.Keys == current.Keys;
    }
  }

  /** One line of a state diff. */
  datatype StateLine = StateLine(mark: Mark, state: string)

  /** "<mark><state>" and a line break. */
  function StateText(line: StateLine): string {
    MarkPrefix(line.mark) + line.state + "\n"
  }

  /** The text of a state diff: each line's text, in order. */
  function RenderStates(lines: seq<StateLine>): string {
    Render(lines, StateText)
  }

  /** The given states, in order, each under `mark`. */
  function Marked(states: seq<string>, mark: Mark): seq<StateLine> {
    seq(|states|, i requires 0 <= i < |states| => StateLine(mark, states[i]))
  }

  /** `Set(states)` */
  ghost function Elements(states: seq<string>): set<string> {
    set x | x in states
  }

  /** The lines of `generateStateDiff`: removed states, then added ones, then kept ones, each group sorted. */
  ghost function StateDiffLines(previous: seq<string>, current: seq<string>): seq<StateLine> {
    var p := Elements(previous);
    var c := Elements(current);
    Marked(Sorted(p - c), Removed) + Marked(Sorted(c - p), Added) + Marked(Sorted(p * c), Unchanged)
  }

  /** One `for` loop of `generateStateDiff`: a line per state, each under `mark`. */
  method AppendMarked(diff: string, ghost before: seq<StateLine>, states: seq<string>, mark: Mark) returns (r: string)
    requires diff == RenderStates(before)
    ensures r == RenderStates(before + Marked(states, mark))
  {
    r := diff;
    assert before + Marked(states[..0], mark) == before;
    for i := 0 to |states|
      invariant r == RenderStates(before + Marked(states[..i], mark))
    {
      RenderMarkedSnoc(before, states, i, mark);
      r := r + StateText(StateLine(mark, states[i]));
    }
    assert states[..|states|] == states;
  }

  /** Rendering one more marked state appends that state's line. */
  lemma RenderMarkedSnoc(before: seq<StateLine>, states: seq<string>, i: int, mark: Mark)
    requires 0 <= i < |states|
    ensures RenderStates(before + Marked(states[..i + 1], mark))
      == RenderStates(before + Marked(states[..i], mark)) + StateText(StateLine(mark, states[i]))
  {
    var line := StateLine(mark, states[i]);
    var done := Marked(states[..i], mark);
    MarkedSnoc(states, i, mark);
    assert before + (done + [line]) == (before + done) + [line];
    RenderStatesSnoc(before + done, line);
  }

  lemma MarkedSnoc(states: seq<string>, i: int, mark: Mark)
    requires 0 <= i < |states|
    ensures Marked(states[..i + 1], mark) == Marked(states[..i], mark) + [StateLine(mark, states[i])]
  {
    var longer := Marked(states[..i + 1], mark);
    var shorter := Marked(states[..i], mark) + [StateLine(mark, states[i])];
    assert |longer| == |shorter|;
    forall j | 0 <= j <= i
      ensures longer[j] == shorter[j]
    {
    }
  }

  lemma RenderStatesSnoc(lines: seq<StateLine>, line: StateLine)
    ensures RenderStates(lines + [line]) == RenderStates(lines) + StateText(line)
  {
    RenderSnoc(lines, line, StateText);
  }

  /** `generateStateDiff` */
  method GenerateStateDiff(previous: seq<string>, current: seq<string>) returns (diff: string)
    ensures diff == RenderStates(StateDiffLines(previous, current))
  {
    var p := set x | x in previous;
    var c := set x | x in current;
    var removed := SortedKeys(p - c);
    var added := SortedKeys(c - p);
    var kept := SortedKeys(p * c);
    diff := "";
    diff := AppendMarked(diff, [], removed, Removed);
    assert [] + Marked(removed, Removed) == Marked(removed, Removed);
    diff := AppendMarked(diff, Marked(removed, Removed), added, Added);
    diff := AppendMarked(diff, Marked(removed, Removed) + Marked(added, Added), kept, Unchanged);
  }

  /** The place of each group in a state diff. */
  function Rank(m: Mark): nat {
    match m
    case Removed => 0
    case Added => 1
    case Unchanged => 2
  }

  /** A state line's mark says where the state occurs: only before, only now, or in both. */
  ghost predicate StateAgrees(line: StateLine, previous: seq<string>, current: seq<string>) {
    match line.mark
    case Removed => line.state in previous && line.state !in current
    case Added => line.state !in previous && line.state in current
    case Unchanged => line.state in previous && line.state in current
  }

  /** Where line `i` of three marked groups comes from. */
  lemma GroupLine(a: seq<string>, b: seq<string>, u: seq<string>, i: int)
    requires 0 <= i < |a| + |b| + |u|
    ensures var lines := Marked(a, Removed) + Marked(b, Added) + Marked(u, Unchanged);
      (i < |a| && lines[i] == StateLine(Removed, a[i]))
      || (|a| <= i < |a| + |b| && lines[i] == StateLine(Added, b[i - |a|]))
      || (|a| + |b| <= i && lines[i] == StateLine(Unchanged, u[i - |a| - |b|]))
  {
  }

  /** Each line's mark agrees with where its state occurs. */
  lemma StateDiffTruthful(previous: seq<string>, current: seq<string>)
    ensures forall l | l in StateDiffLines(previous, current) :: StateAgrees(l, previous, current)
  {
    var p := Elements(previous);
    var c := Elements(current);
    var a, b, u := Sorted(p - c), Sorted(c - p), Sorted(p * c);
    SortedListsSet(p - c);
    SortedListsSet(c - p);
    SortedListsSet(p * c);
    var lines := StateDiffLines(previous, current);
    forall l | l in lines
      ensures StateAgrees(l, previous, current)
    {
      var i :| 0 <= i < |lines| && lines[i] == l;
      GroupLine(a, b, u, i);
      if i < |a| {
        assert a[i] in a;
      } else if i < |a| + |b| {
        assert b[i - |a|] in b;
      } else {
        assert u[i - |a| - |b|] in u;
      }
    }
  }

  /** Every state of either list has a line. */
  lemma StateDiffComplete(previous: seq<string>, current: seq<string>)
    ensures var lines := StateDiffLines(previous, current);
      forall x | x in previous || x in current :: exists i | 0 <= i < |lines| :: lines[i].state == x
  {
    var p := Elements(previous);
    var c := Elements(current);
    var a, b, u := Sorted(p - c), Sorted(c - p), Sorted(p * c);
    SortedListsSet(p - c);
    SortedListsSet(c - p);
    SortedListsSet(p * c);
    var lines := StateDiffLines(previous, current);
    assert lines == Marked(a, Removed) + Marked(b, Added) + Marked(u, Unchanged);
    forall x | x in previous || x in current
      ensures exists i | 0 <= i < |lines| :: lines[i].state == x
    {
      assert x in p || x in c;
      assert x in a || x in b || x in u;
      GroupHasLine(a, b, u, x);
    }
  }

  /** A state of any of the three groups has a line. */
  lemma GroupHasLine(a: seq<string>, b: seq<string>, u: seq<string>, x: string)
    requires x in a || x in b || x in u
    ensures var lines := Marked(a, Removed) + Marked(b, Added) + Marked(u, Unchanged);
      exists i | 0 <= i < |lines| :: lines[i].state == x
  {
    var lines := Marked(a, Removed) + Marked(b, Added) + Marked(u, Unchanged);
    if x in a {
      var k :| 0 <= k < |a| && a[k] == x;
      assert lines[k].state == x;
    } else if x in b {
      var k :| 0 <= k < |b| && b[k] == x;
      assert lines[|a| + k].state == x;
    } else {
      var k :| 0 <= k < |u| && u[k] == x;
      assert lines[|a| + |b| + k].state == x;
    }
  }

  /** No state has two lines; removed come first, then added, then unchanged, each group sorted. */
  lemma StateDiffOrdered(previous: seq<string>, current: seq<string>)
    ensures var lines := StateDiffLines(previous, current);
      forall i, j | 0 <= i < j < |lines| ::
        lines[i].state != lines[j].state
        && (Rank(lines[i].mark) < Rank(lines[j].mark)
            || (lines[i].mark == lines[j].mark && Below(lines[i].state, lines[j].state)))
  {
    var p := Elements(previous);
    var c := Elements(current);
    var a, b, u := Sorted(p - c), Sorted(c - p), Sorted(p * c);
    SortedListsSet(p - c);
    SortedListsSet(c - p);
    SortedListsSet(p * c);
    var lines := StateDiffLines(previous, current);
    forall i, j | 0 <= i < j < |lines|
      ensures lines[i].state != lines[j].state
        && (Rank(lines[i].mark) < Rank(lines[j].mark)
            || (lines[i].mark == lines[j].mark && Below(lines[i].state, lines[j].state)))
    {
      GroupLine(a, b, u, i);
      GroupLine(a, b, u, j);
      if j < |a| {
        BelowIrreflexive(a[i]);
      } else if |a| <= i && j < |a| + |b| {
        BelowIrreflexive(b[i - |a|]);
      } else if |a| + |b| <= i {
        BelowIrreflexive(u[i - |a| - |b|]);
      } else {
        if i < |a| {
          assert a[i] in a;
        } else {
          assert b[i - |a|] in b;
        }
        if j < |a| + |b| {
          assert b[j - |a|] in b;
        } else {
          assert u[j - |a| - |b|] in u;
        }
      }
    }
  }
}
