/**
 * The pure specification of what `ScoutRails::Store` computes: the categories of
 * a transaction table, the per-category `"<cat>/all"` aggregates, merging of
 * metric tables, recording one call into a table, and the slowest-sample rule.
 */
module StoreSpec {
  import opened Wrappers
  import opened Metrics
  import opened MetricNames
  import opened TransactionSamples

  /** Only transactions whose root metric has this prefix reach the process table. */
  const ControllerPrefix: string := "Controller/"

  /** A non-root call slower than this (in seconds) gets a backtrace. */
  const BacktraceThreshold: real := 0.5

  /** A transaction must take at least this long (in seconds) to become the sample. */
  const SampleThreshold: real := 2.0

  // ----- Recording one call -----

  /** The key of a completed frame: the default scope, or none at the root. */
  function FrameMeta(name: string, isRoot: bool, defaultScope: Option<string>): MetricMeta
  {
    MetricMeta(name, if isRoot then None else defaultScope)
  }

  /** The non-key attributes of a completed frame's key: the backtrace only for slow non-root calls. */
  function CallNote(desc: Option<string>, duration: real, isRoot: bool, callerLines: seq<string>): Annotation
  {
    Annotation(desc, if duration > BacktraceThreshold && !isRoot then Some(AppFrames(callerLines)) else None)
  }

  /**
   * `stat = table[meta] || MetricStats.new(scoped); stat.update!(time, exclusive);
   * table[meta] = stat`. An existing key keeps its key object, hence its attributes.
   */
  function RecordCall(t: Table, meta: MetricMeta, note: Annotation, scoped: bool,
                      time: real, exclusive: real): (r: Table)
    ensures r.Keys == t.Keys + {meta}
    ensures forall k :: k in t && k != meta ==> r[k] == t[k]
  {
    t[meta := if meta in t then Entry(t[meta].note, Update(t[meta].stats, time, exclusive))
              else Entry(note, Update(NewStats(scoped), time, exclusive))]
  }

  /** The key `track!` writes: the `:scope` option when the key is present, else the default. */
  function TrackMeta(name: string, scopeOption: Option<Option<string>>, defaultScope: Option<string>): MetricMeta
  {
    MetricMeta(name, if scopeOption.Some? then scopeOption.value else defaultScope)
  }

  /** `options[:exclusive_time] || call_time`. */
  function TrackExclusive(callTime: real, exclusiveTime: Option<real>): real
  {
    if exclusiveTime.Some? then exclusiveTime.value else callTime
  }

  // ----- Categories and aggregates -----

  /** `categories(metrics)`: the categories of the keys that have a scope. */
  function CategorySet(t: Table): set<string>
  {
    set k | k in t && k.scope.Some? && CategoryOf(k.name).Some? :: CategoryOf(k.name).value
  }

  /** A table with one more key has that key's category, if it is scoped and has one, in addition. */
  lemma CategorySetAdd(t: Table, k: MetricMeta, e: Entry)
    requires k !in t
    ensures CategorySet(t[k := e])
         == CategorySet(t) + if k.scope.Some? && CategoryOf(k.name).Some? then {CategoryOf(k.name).value} else {}
  {
  }

  /** The entries whose name starts with `cat/`. */
  function InCategory(t: Table, cat: string): Table
  {
    map k | k in t && StartsWith(k.name, cat + "/") :: t[k]
  }

  /** A fresh `MetricStats` combined with every entry of the category. */
  ghost function AggregateOf(t: Table, cat: string): MetricStats
  {
    Sum(InCategory(t, cat))
  }

  /** The key of a category aggregate, scoped to the root metric's name. */
  function AllMeta(cat: string, parentName: string): MetricMeta
  {
    MetricMeta(cat + "/all", Some(parentName))
  }

  /** One aggregate for each of the given categories that has calls. */
  ghost function AggregatesOver(t: Table, parentName: string, cats: set<string>): Table
  {
    AllMetaInjective(parentName);
    map c | c in cats && AggregateOf(t, c).callCount != 0
      :: AllMeta(c, parentName) := Entry(Plain, AggregateOf(t, c))
  }

  /** `aggregate_calls(metrics, parent_meta)`: one aggregate per category with calls. */
  ghost function Aggregates(t: Table, parentName: string): Table
  {
    AggregatesOver(t, parentName, CategorySet(t))
  }

  /** Different categories give different aggregate keys. */
  lemma AllMetaInjective(parentName: string)
    ensures forall c1, c2 {:trigger AllMeta(c1, parentName), AllMeta(c2, parentName)} ::
      AllMeta(c1, parentName) == AllMeta(c2, parentName) ==> c1 == c2
  {
    forall c1, c2 | AllMeta(c1, parentName) == AllMeta(c2, parentName) ensures c1 == c2 {
      var n1, n2 := c1 + "/all", c2 + "/all";
      assert |c1| == |c2|;
      assert c1 == n1[..|c1|] == n2[..|c2|] == c2;
    }
  }

  /** Every key of the aggregates over some categories is the key of one of them that has calls. */
  lemma AggregatesOverShape(t: Table, parentName: string, cats: set<string>, k: MetricMeta) returns (c: string)
    requires k in AggregatesOver(t, parentName, cats)
    ensures c in cats && AggregateOf(t, c).callCount != 0 && k == AllMeta(c, parentName)
    ensures AggregatesOver(t, parentName, cats)[k] == Entry(Plain, AggregateOf(t, c))
  {
    c :| c in cats && AggregateOf(t, c).callCount != 0 && k == AllMeta(c, parentName)
         && AggregatesOver(t, parentName, cats)[k] == Entry(Plain, AggregateOf(t, c));
  }

  /** Each of the categories that has calls has its aggregate. */
  lemma AggregatesOverAt(t: Table, parentName: string, cats: set<string>, c: string)
    requires c in cats && AggregateOf(t, c).callCount != 0
    ensures AllMeta(c, parentName) in AggregatesOver(t, parentName, cats)
    ensures AggregatesOver(t, parentName, cats)[AllMeta(c, parentName)] == Entry(Plain, AggregateOf(t, c))
  {
    var c' := AggregatesOverShape(t, parentName, cats, AllMeta(c, parentName));
    AllMetaInjective(parentName);
  }

  /** Taking one more category adds its aggregate, if it has calls. */
  lemma AggregatesOverAdd(t: Table, parentName: string, cats: set<string>, cat: string)
    requires cat !in cats
    ensures AggregatesOver(t, parentName, cats + {cat})
         == if AggregateOf(t, cat).callCount != 0
            then AggregatesOver(t, parentName, cats)[AllMeta(cat, parentName) := Entry(Plain, AggregateOf(t, cat))]
            else AggregatesOver(t, parentName, cats)
  {
    var lhs := AggregatesOver(t, parentName, cats + {cat});
    var rhs := if AggregateOf(t, cat).callCount != 0
               then AggregatesOver(t, parentName, cats)[AllMeta(cat, parentName) := Entry(Plain, AggregateOf(t, cat))]
               else AggregatesOver(t, parentName, cats);
    forall k | k in lhs ensures k in rhs && lhs[k] == rhs[k] {
      var c := AggregatesOverShape(t, parentName, cats + {cat}, k);
      if c != cat {
        AllMetaInjective(parentName);
        AggregatesOverAt(t, parentName, cats, c);
      }
    }
    forall k | k in rhs ensures k in lhs {
      if k in AggregatesOver(t, parentName, cats) {
        var c := AggregatesOverShape(t, parentName, cats, k);
        AggregatesOverAt(t, parentName, cats + {cat}, c);
      } else {
        AggregatesOverAt(t, parentName, cats + {cat}, cat);
      }
    }
    assert lhs.Keys == rhs.Keys;
  }

  /**
   * Ruby's `Hash#merge`: the other table's values win, and a key present in both
   * keeps the receiver's key object.
   */
  function HashMerge(receiver: Table, other: Table): (r: Table)
    ensures r.Keys == receiver.Keys + other.Keys
    ensures forall k :: k in other ==> r[k].stats == other[k].stats
    ensures forall k :: k in receiver && k !in other ==> r[k] == receiver[k]
  {
    map k | k in receiver.Keys + other.Keys ::
      if k in other then Entry(if k in receiver then receiver[k].note else other[k].note, other[k].stats)
      else receiver[k]
  }

  /** What the process table receives when a transaction completes: the aggregates plus the root. */
  function Reported(aggregates: Table, rootMeta: MetricMeta, rootEntry: Entry): Table
  {
    aggregates[rootMeta := rootEntry]
  }

  // ----- Merging -----

  /** `merge_data(incoming)` as a value: combine on shared keys, insert the others. */
  function MergeTables(base: Table, incoming: Table): Table
  {
    map k | k in base.Keys + incoming.Keys ::
      if k in base && k in incoming then Entry(base[k].note, Combine(base[k].stats, incoming[k].stats))
      else if k in base then base[k]
      else incoming[k]
  }

  // ----- The slowest-transaction slot -----

  /** At least two seconds, and no sample yet or a strictly faster one. */
  predicate Replaces(current: Option<TransactionSample>, total: real)
  {
    total >= SampleThreshold && (current.None? || total > current.value.totalCallTime)
  }

  function NextSample(current: Option<TransactionSample>, candidate: TransactionSample): Option<TransactionSample>
  {
    if Replaces(current, candidate.totalCallTime) then Some(candidate) else current
  }

  /** The slot after the candidates were offered in order. */
  function KeepSlowest(current: Option<TransactionSample>, candidates: seq<TransactionSample>): Option<TransactionSample>
    decreases |candidates|
  {
    if candidates == [] then current
    else KeepSlowest(NextSample(current, candidates[0]), candidates[1..])
  }

  // =================== Properties ===================

  /** A root frame has no scope; a nested one has the default scope, so with one it is never nil. */
  lemma FrameMetaScope(name: string, isRoot: bool, defaultScope: Option<string>)
    ensures isRoot ==> FrameMeta(name, isRoot, defaultScope).scope.None?
    ensures !isRoot ==> FrameMeta(name, isRoot, defaultScope).scope == defaultScope
    ensures defaultScope.Some? ==> (FrameMeta(name, isRoot, defaultScope).scope.None? <==> isRoot)
  {
  }

  /** A backtrace is attached exactly to non-root calls slower than half a second. */
  lemma CallNoteBacktrace(desc: Option<string>, duration: real, isRoot: bool, callerLines: seq<string>)
    ensures CallNote(desc, duration, isRoot, callerLines).backtrace.Some? <==> duration > 0.5 && !isRoot
    ensures CallNote(desc, 0.6, true, callerLines).backtrace.None?
    ensures CallNote(desc, 0.6, false, callerLines).backtrace == Some(AppFrames(callerLines))
    ensures CallNote(desc, 0.4, false, callerLines).backtrace.None?
  {
  }

  /**
   * The recorded key holds one more call with the given times; a new entry takes the
   * given attributes and scoped flag, an existing one keeps its own.
   */
  lemma RecordCallAt(t: Table, meta: MetricMeta, note: Annotation, scoped: bool, time: real, exclusive: real)
    ensures var r := RecordCall(t, meta, note, scoped, time, exclusive);
      var before := if meta in t then t[meta].stats else NewStats(scoped);
      && meta in r
      && r[meta].stats.callCount == before.callCount + 1
      && r[meta].stats.totalCallTime == before.totalCallTime + time
      && r[meta].stats.totalExclusiveTime == before.totalExclusiveTime + exclusive
      && r[meta].stats.scoped == (if meta in t then t[meta].stats.scoped else scoped)
      && r[meta].note == (if meta in t then t[meta].note else note)
  {
  }

  /** Recording a call is merging in a table that holds that single call. */
  lemma RecordCallIsMerge(t: Table, meta: MetricMeta, note: Annotation, scoped: bool, time: real, exclusive: real)
    ensures RecordCall(t, meta, note, scoped, time, exclusive)
         == MergeTables(t, map[meta := Entry(note, Update(NewStats(scoped), time, exclusive))])
  {
    var single := map[meta := Entry(note, Update(NewStats(scoped), time, exclusive))];
    if meta in t {
      UpdateIsCombineOfOneCall(t[meta].stats, time, exclusive);
    }
    assert RecordCall(t, meta, note, scoped, time, exclusive) == MergeTables(t, single);
  }

  /** Recording a call adds exactly one call of the given times to the table's totals. */
  lemma RecordCallSum(t: Table, meta: MetricMeta, note: Annotation, scoped: bool, time: real, exclusive: real)
    ensures Sum(RecordCall(t, meta, note, scoped, time, exclusive)) == Combine(Sum(t), OneCall(time, exclusive))
  {
    if meta in t {
      UpdateIsCombineOfOneCall(t[meta].stats, time, exclusive);
      SumCombineAt(t, meta, t[meta].note, OneCall(time, exclusive));
    } else {
      SumInsert(t, meta, Entry(note, Update(NewStats(scoped), time, exclusive)));
    }
  }

  /** A category is the first word segment of some scoped key, and every such segment is a category. */
  lemma CategoriesExact(t: Table, cat: string)
    requires cat != [] && forall i :: 0 <= i < |cat| ==> IsWordChar(cat[i])
    ensures cat in CategorySet(t) <==> exists k :: k in t && k.scope.Some? && StartsWith(k.name, cat + "/")
  {
    if cat in CategorySet(t) {
      var k :| k in t && k.scope.Some? && CategoryOf(k.name) == Some(cat);
      CategoryOfExact(k.name, cat);
    }
    if exists k :: k in t && k.scope.Some? && StartsWith(k.name, cat + "/") {
      var k :| k in t && k.scope.Some? && StartsWith(k.name, cat + "/");
      CategoryOfExact(k.name, cat);
    }
  }

  /**
   * Each aggregate is keyed `"<cat>/all"`, scoped to the root's name, for a category
   * with calls, and holds the combination of that category's entries.
   */
  lemma AggregatesShape(t: Table, parentName: string, k: MetricMeta)
    requires k in Aggregates(t, parentName)
    ensures k.scope == Some(parentName)
    ensures exists c :: c in CategorySet(t) && k == AllMeta(c, parentName)
                     && Aggregates(t, parentName)[k] == Entry(Plain, AggregateOf(t, c))
                     && AggregateOf(t, c).callCount != 0
  {
    var c :| c in CategorySet(t) && AggregateOf(t, c).callCount != 0 && k == AllMeta(c, parentName);
  }

  /** A category with calls has its aggregate, holding the combination of its entries. */
  lemma AggregatesAt(t: Table, parentName: string, cat: string)
    requires cat in CategorySet(t) && AggregateOf(t, cat).callCount != 0
    ensures AllMeta(cat, parentName) in Aggregates(t, parentName)
    ensures Aggregates(t, parentName)[AllMeta(cat, parentName)] == Entry(Plain, AggregateOf(t, cat))
  {
    var aggs := Aggregates(t, parentName);
    var k := AllMeta(cat, parentName);
    var c :| c in CategorySet(t) && AggregateOf(t, c).callCount != 0 && k == AllMeta(c, parentName)
             && aggs[k] == Entry(Plain, AggregateOf(t, c));
    AllMetaInjective(parentName);
  }

  /** No category is left out when every entry has at least one call. */
  lemma {:induction false} AggregatesComplete(t: Table, parentName: string, cat: string)
    requires forall k :: k in t ==> t[k].stats.callCount > 0
    requires cat in CategorySet(t)
    ensures AllMeta(cat, parentName) in Aggregates(t, parentName)
    ensures Aggregates(t, parentName)[AllMeta(cat, parentName)] == Entry(Plain, AggregateOf(t, cat))
  {
    var k :| k in t && k.scope.Some? && CategoryOf(k.name) == Some(cat);
    var members := InCategory(t, cat);
    assert StartsWith(k.name, cat + "/");
    assert k in members;
    SumCountsEntry(members, k);
    assert members[k] == t[k];
    AggregatesAt(t, parentName, cat);
  }

  /** Only the aggregates and the root key reach the process table: no raw child entry. */
  lemma ReportedKeys(t: Table, rootMeta: MetricMeta, rootEntry: Entry, k: MetricMeta)
    requires rootMeta.scope.None?
    requires k in Reported(Aggregates(t, rootMeta.name), rootMeta, rootEntry)
    ensures k == rootMeta || exists c :: c in CategorySet(t) && k == AllMeta(c, rootMeta.name)
  {
    if k != rootMeta {
      AggregatesShape(t, rootMeta.name, k);
    }
  }

  /** The merged table has the keys of both tables, combines shared keys and inserts the rest. */
  lemma MergeIsCombineOrInsert(base: Table, incoming: Table, k: MetricMeta)
    ensures k in MergeTables(base, incoming) <==> k in base || k in incoming
    ensures k in base && k in incoming ==>
      MergeTables(base, incoming)[k] == Entry(base[k].note, Combine(base[k].stats, incoming[k].stats))
    ensures k !in base && k in incoming ==> MergeTables(base, incoming)[k] == incoming[k]
    ensures k in base && k !in incoming ==> MergeTables(base, incoming)[k] == base[k]
  {
  }

  /** `merge_data({})` changes nothing. */
  lemma MergeEmpty(t: Table)
    ensures MergeTables(t, map[]) == t
  {
    assert MergeTables(t, map[]).Keys == t.Keys;
  }

  /** Merging in two tables one after the other is merging in their merge. */
  lemma MergeAssociates(t: Table, a: Table, b: Table)
    ensures MergeTables(MergeTables(t, a), b) == MergeTables(t, MergeTables(a, b))
  {
    var lhs, rhs := MergeTables(MergeTables(t, a), b), MergeTables(t, MergeTables(a, b));
    assert lhs.Keys == rhs.Keys;
    forall k | k in lhs ensures lhs[k] == rhs[k] {
      if k in t && k in a && k in b {
        CombineAssociates(t[k].stats, a[k].stats, b[k].stats);
      }
    }
  }

  /** Merging a table is merging it without one of its keys, then that key. */
  lemma MergeStep(t: Table, incoming: Table, k: MetricMeta)
    requires k in incoming
    ensures var m := MergeTables(t, incoming - {k});
      MergeTables(t, incoming)
        == if k in t then m[k := Entry(t[k].note, Combine(t[k].stats, incoming[k].stats))]
           else m[k := incoming[k]]
  {
  }

  /** Merging loses and duplicates nothing: the totals of the result are the sum of both. */
  lemma {:induction false} MergeAddsTotals(t: Table, incoming: Table)
    ensures Sum(MergeTables(t, incoming)) == Combine(Sum(t), Sum(incoming))
    decreases |incoming|
  {
    if incoming == map[] {
      MergeEmpty(t);
      assert Sum(incoming) == NewStats(false);
    } else {
      var k :| k in incoming;
      var rest := incoming - {k};
      var m := MergeTables(t, rest);
      MergeAddsTotals(t, rest);
      SumRemove(incoming, k);
      var s := incoming[k].stats;
      MergeStep(t, incoming, k);
      if k in t {
        assert k in m && m[k] == t[k];
        SumCombineAt(m, k, t[k].note, s);
      } else {
        assert k !in m;
        SumInsert(m, k, incoming[k]);
      }
      CombineAssociates(Sum(t), Sum(rest), s);
    }
  }

  /**
   * The slot ends up holding the initial sample or one of the candidates; it never
   * gets faster; and it is at least as slow as every candidate of two seconds or more.
   */
  lemma {:induction false} KeepSlowestIsSlowest(current: Option<TransactionSample>, candidates: seq<TransactionSample>)
    ensures var r := KeepSlowest(current, candidates);
      r == current || exists i :: 0 <= i < |candidates| && r == Some(candidates[i])
    ensures current.Some? ==>
      KeepSlowest(current, candidates).Some?
      && KeepSlowest(current, candidates).value.totalCallTime >= current.value.totalCallTime
    ensures forall i :: 0 <= i < |candidates| && candidates[i].totalCallTime >= SampleThreshold ==>
      KeepSlowest(current, candidates).Some?
      && KeepSlowest(current, candidates).value.totalCallTime >= candidates[i].totalCallTime
    decreases |candidates|
  {
    if candidates != [] {
      var next := NextSample(current, candidates[0]);
      KeepSlowestIsSlowest(next, candidates[1..]);
      var r := KeepSlowest(current, candidates);
      assert r == KeepSlowest(next, candidates[1..]);
      if r != next {
        var i :| 0 <= i < |candidates[1..]| && r == Some(candidates[1..][i]);
        assert r == Some(candidates[i + 1]);
      }
      forall i | 0 <= i < |candidates| && candidates[i].totalCallTime >= SampleThreshold
        ensures r.Some? && r.value.totalCallTime >= candidates[i].totalCallTime
      {
        if i > 0 {
          assert candidates[i] == candidates[1..][i - 1];
        }
      }
    }
  }

  /** With a 3.0 s sample, a 2.5 s transaction does not replace it and a 3.5 s one does. */
  lemma SampleReplacementExamples(uri: Option<string>, m: Table)
    ensures var old3 := Some(TransactionSample(uri, "Controller/a", 3.0, m));
      && NextSample(old3, TransactionSample(uri, "Controller/b", 2.5, m)) == old3
      && NextSample(old3, TransactionSample(uri, "Controller/c", 3.5, m))
         == Some(TransactionSample(uri, "Controller/c", 3.5, m))
  {
  }
}
