/**
 * `ScoutRails::Store`: the per-transaction call stack, the transaction table,
 * the slowest-transaction slot and the process-wide metric table.
 */
module Stores {
  import opened Wrappers
  import opened Metrics
  import opened MetricNames
  import opened TransactionSamples
  import opened StoreSpec

  /** `ScoutRails::StackItem`: one in-flight frame. Only `children_time` is updated. */
  class StackItem {
    const metricName: string
    const startTime: real
    var childrenTime: real

    constructor (metricName: string, now: real)
      ensures this.metricName == metricName && startTime == now && childrenTime == 0.0
    {
      this.metricName := metricName;
      startTime := now;
      childrenTime := 0.0;
    }
  }

  /** The stack after `Array#pop`: one frame fewer, or still empty. */
  function Popped(s: seq<StackItem>): seq<StackItem>
  {
    if s == [] then [] else s[..|s| - 1]
  }

  /** The top frame is the token the caller presents. */
  predicate TopIs(s: seq<StackItem>, token: StackItem)
  {
    s != [] && s[|s| - 1] == token
  }

  /** The children time of every frame on a stack, added up. */
  ghost function ChildrenTotal(s: seq<StackItem>): real
    reads s
    decreases |s|
  {
    if s == [] then 0.0 else ChildrenTotal(s[..|s| - 1]) + s[|s| - 1].childrenTime
  }

  /** The exclusive time recorded in a table, added up. */
  ghost function ExclusiveTotal(t: Table): real
  {
    Sum(t).totalExclusiveTime
  }

  class Store {
    var metricHash: Table
    var transactionHash: Table
    var stack: seq<StackItem>
    var sample: Option<TransactionSample>
    /** Stands for the thread-local `Thread::current[:ignore_transaction]`. */
    var ignoring: bool

    /** Every frame on the stack is a distinct object. */
    ghost predicate Valid()
      reads this
    {
      forall i, j :: 0 <= i < j < |stack| ==> stack[i] != stack[j]
    }

    constructor ()
      ensures Valid()
      ensures metricHash == map[] && transactionHash == map[] && stack == []
      ensures sample.None? && !ignoring
    {
      metricHash := map[];
      transactionHash := map[];
      stack := [];
      sample := None;
      ignoring := false;
    }

    /** `reset_transaction!`: clears the ignore flag, the transaction table and the stack. */
    method ResetTransaction()
      modifies this`ignoring, this`transactionHash, this`stack
      ensures Valid()
      ensures !ignoring && transactionHash == map[] && stack == []
    {
      ignoring := false;
      transactionHash := map[];
      stack := [];
    }

    /** `ignore_transaction!`: the rest of the transaction records nothing. */
    method IgnoreTransaction()
      modifies this`ignoring
      ensures ignoring
    {
      ignoring := true;
    }

    /** `record(metric_name)`: pushes a new frame started at `now` and returns it as the token. */
    method Record(metricName: string, now: real) returns (item: StackItem)
      requires Valid()
      modifies this`stack
      ensures Valid()
      ensures fresh(item) && stack == old(stack) + [item]
      ensures item.metricName == metricName && item.startTime == now && item.childrenTime == 0.0
    {
      item := new StackItem(metricName, now);
      stack := stack + [item];
    }

    /**
     * `stop_recording(sanity_check_item, options)`. `now` stands for `Time.now`,
     * `desc` and `uri` for the options, `defaultScope` for the scope a new
     * `MetricMeta` takes, and `callerLines` for `caller`.
     */
    method StopRecording(token: StackItem, now: real, desc: Option<string>, uri: Option<string>,
                         defaultScope: Option<string>, callerLines: seq<string>)
      requires Valid()
      modifies this, stack
      ensures Valid()
      ensures stack == Popped(old(stack))
      ensures ignoring == (old(ignoring) || !TopIs(old(stack), token))
      // ignored transaction or unbalanced stack: nothing but the pop
      ensures old(ignoring) || !TopIs(old(stack), token) ==>
        && transactionHash == old(transactionHash) && metricHash == old(metricHash) && sample == old(sample)
        && forall i :: 0 <= i < |stack| ==> stack[i].childrenTime == old(stack[i].childrenTime)
      // a matching pop
      ensures !old(ignoring) && TopIs(old(stack), token) ==>
        Completed(old(stack)[|old(stack)| - 1], now, desc, uri, defaultScope, callerLines,
                  old(transactionHash), old(metricHash), old(sample))
      ensures !old(ignoring) && TopIs(old(stack), token) ==>
        forall i :: 0 <= i < |stack| ==>
          stack[i].childrenTime
          == old(stack[i].childrenTime) + (if i == |stack| - 1 then now - old(stack)[|stack|].startTime else 0.0)
      // exclusive time recorded minus children time pending is unchanged, except by the root's duration
      ensures !old(ignoring) && TopIs(old(stack), token) ==>
        ExclusiveTotal(transactionHash) - ChildrenTotal(stack)
        == old(ExclusiveTotal(transactionHash) - ChildrenTotal(stack))
           + (if stack == [] then now - old(stack)[|old(stack)| - 1].startTime else 0.0)
    {
      ghost var childrenAll := ChildrenTotal(stack);
      var item: StackItem? := null;
      if stack != [] {
        item := stack[|stack| - 1];
        stack := stack[..|stack| - 1];
      }
      if ignoring {
        return;
      }
      if item != token {
        ignoring := true;
        return;
      }
      assert childrenAll == ChildrenTotal(stack) + item.childrenTime;
      FinishFrame(item, now, desc, uri, defaultScope, callerLines);
    }

    /**
     * What the matching pop of `item` records, given the tables and the sample
     * before it, with the stack already popped.
     */
    ghost predicate Completed(item: StackItem, now: real, desc: Option<string>, uri: Option<string>,
                              defaultScope: Option<string>, callerLines: seq<string>,
                              transactionBefore: Table, metricsBefore: Table, sampleBefore: Option<TransactionSample>)
      reads this, item
    {
      var duration := now - item.startTime;
      var isRoot := stack == [];
      var meta := FrameMeta(item.metricName, isRoot, defaultScope);
      var note := CallNote(desc, duration, isRoot, callerLines);
      && transactionHash == RecordCall(transactionBefore, meta, note, !isRoot, duration, duration - item.childrenTime)
      && if isRoot && StartsWith(item.metricName, ControllerPrefix) then
           var stat := transactionHash[meta].stats;
           var aggs := Aggregates(transactionHash, item.metricName);
           && sample == NextSample(sampleBefore,
                                   TransactionSample(uri, item.metricName, stat.totalCallTime, HashMerge(transactionHash, aggs)))
           && metricHash == MergeTables(metricsBefore, Reported(aggs, meta, Entry(note, stat)))
         else
           sample == sampleBefore && metricHash == metricsBefore
    }

    /** The part of `stop_recording` after the checks: timing, the parent, the table, the completion. */
    method FinishFrame(item: StackItem, now: real, desc: Option<string>, uri: Option<string>,
                       defaultScope: Option<string>, callerLines: seq<string>)
      requires Valid() && item !in stack
      modifies this`transactionHash, this`sample, this`metricHash, stack
      ensures Valid() && stack == old(stack) && item.childrenTime == old(item.childrenTime)
      ensures Completed(item, now, desc, uri, defaultScope, callerLines,
                        old(transactionHash), old(metricHash), old(sample))
      ensures forall i :: 0 <= i < |stack| ==>
        stack[i].childrenTime == old(stack[i].childrenTime) + (if i == |stack| - 1 then now - item.startTime else 0.0)
      ensures ExclusiveTotal(transactionHash) - ChildrenTotal(stack)
        == old(ExclusiveTotal(transactionHash) - ChildrenTotal(stack) - item.childrenTime)
           + (if stack == [] then now - item.startTime else 0.0)
    {
      var stackEmpty := stack == [];
      var duration := now - item.startTime;
      ghost var itemChildren := item.childrenTime;
      if !stackEmpty {
        assert item != stack[|stack| - 1];
        AddChildTime(duration);
      }
      assert item.childrenTime == itemChildren;
      var meta := FrameMeta(item.metricName, stackEmpty, defaultScope);
      var note := CallNote(desc, duration, stackEmpty, callerLines);
      RecordStat(meta, note, !stackEmpty, duration, duration - item.childrenTime);
      if stackEmpty && StartsWith(meta.name, ControllerPrefix) {
        CompleteTransaction(uri, meta, note, transactionHash[meta].stats);
      }
    }

    /**
     * `stat = transaction_hash[meta] || MetricStats.new(scoped); stat.update!(time, exclusive);
     * transaction_hash[meta] = stat`: one call recorded, so the table's totals grow by it.
     */
    method RecordStat(meta: MetricMeta, note: Annotation, scoped: bool, time: real, exclusive: real)
      modifies this`transactionHash
      ensures transactionHash == RecordCall(old(transactionHash), meta, note, scoped, time, exclusive)
      ensures ExclusiveTotal(transactionHash) == old(ExclusiveTotal(transactionHash)) + exclusive
    {
      var stat := if meta in transactionHash then transactionHash[meta].stats else NewStats(scoped);
      stat := Update(stat, time, exclusive);
      var keyNote := if meta in transactionHash then transactionHash[meta].note else note;
      RecordCallSum(transactionHash, meta, note, scoped, time, exclusive);
      transactionHash := transactionHash[meta := Entry(keyNote, stat)];
    }

    /** `last.children_time += duration` on the frame now on top. */
    method AddChildTime(duration: real)
      requires Valid() && stack != []
      modifies stack[|stack| - 1]
      ensures forall i :: 0 <= i < |stack| ==>
        stack[i].childrenTime == old(stack[i].childrenTime) + (if i == |stack| - 1 then duration else 0.0)
      ensures ChildrenTotal(stack) == old(ChildrenTotal(stack)) + duration
    {
      var last := stack[|stack| - 1];
      ghost var below := stack[..|stack| - 1];
      assert last !in below;
      last.childrenTime := last.childrenTime + duration;
    }

    /**
     * The completion of a controller transaction: the category aggregates, the
     * sample candidate, and the merge of the aggregates and the root into the process table.
     */
    method CompleteTransaction(uri: Option<string>, meta: MetricMeta, note: Annotation, stat: MetricStats)
      modifies this`sample, this`metricHash
      ensures var aggs := Aggregates(transactionHash, meta.name);
        && sample == NextSample(old(sample), TransactionSample(uri, meta.name, stat.totalCallTime, HashMerge(transactionHash, aggs)))
        && metricHash == MergeTables(old(metricHash), Reported(aggs, meta, Entry(note, stat)))
    {
      var aggs := AggregateCalls(transactionHash, meta);
      StoreSample(uri, HashMerge(transactionHash, aggs), meta, stat);
      var _ := MergeData(Reported(aggs, meta, Entry(note, stat)));
    }

    /** `categories(metrics)`: the first segments of the scoped keys. */
    method Categories(metrics: Table) returns (cats: set<string>)
      ensures cats == CategorySet(metrics)
    {
      cats := {};
      var todo := metrics.Keys;
      while todo != {}
        invariant todo <= metrics.Keys
        invariant cats == CategorySet(metrics - todo)
        decreases |todo|
      {
        var meta :| meta in todo;
        ghost var done := metrics - todo;
        CategorySetAdd(done, meta, metrics[meta]);
        if meta.scope.Some? {
          var cat := CategoryOf(meta.name);
          if cat.Some? {
            cats := cats + {cat.value};
          }
        }
        todo := todo - {meta};
        assert metrics - todo == done[meta := metrics[meta]];
      }
      assert metrics - todo == metrics;
    }

    /** The inner loop of `aggregate_calls`: a new `MetricStats` combined with each entry of the category. */
    method CombineCategory(metrics: Table, cat: string) returns (aggStats: MetricStats)
      ensures aggStats == AggregateOf(metrics, cat)
    {
      aggStats := NewStats(false);
      var todo := metrics.Keys;
      assert InCategory(metrics - todo, cat) == map[];
      while todo != {}
        invariant todo <= metrics.Keys
        invariant aggStats == Sum(InCategory(metrics - todo, cat))
        decreases |todo|
      {
        var meta :| meta in todo;
        ghost var before := InCategory(metrics - todo, cat);
        if StartsWith(meta.name, cat + "/") {
          SumInsert(before, meta, metrics[meta]);
          aggStats := Combine(aggStats, metrics[meta].stats);
        }
        todo := todo - {meta};
        assert InCategory(metrics - todo, cat)
               == if StartsWith(meta.name, cat + "/") then before[meta := metrics[meta]] else before;
      }
      assert metrics - todo == metrics;
    }

    /** `aggregate_calls(metrics, parent_meta)`. */
    method AggregateCalls(metrics: Table, parentMeta: MetricMeta) returns (aggregates: Table)
      ensures aggregates == Aggregates(metrics, parentMeta.name)
    {
      var cats := Categories(metrics);
      aggregates := map[];
      var todo := cats;
      assert AggregatesOver(metrics, parentMeta.name, {}) == map[];
      while todo != {}
        invariant todo <= cats
        invariant aggregates == AggregatesOver(metrics, parentMeta.name, cats - todo)
        decreases |todo|
      {
        var cat :| cat in todo;
        var aggMeta := AllMeta(cat, parentMeta.name);
        var aggStats := CombineCategory(metrics, cat);
        AggregatesOverAdd(metrics, parentMeta.name, cats - todo, cat);
        if aggStats.callCount != 0 {
          aggregates := aggregates[aggMeta := Entry(Plain, aggStats)];
        }
        assert cats - todo + {cat} == cats - (todo - {cat});
        todo := todo - {cat};
      }
    }

    /** `store_sample`: one atomic step, the lock held throughout. */
    method StoreSample(uri: Option<string>, metrics: Table, parentMeta: MetricMeta, parentStat: MetricStats)
      modifies this`sample
      ensures sample == NextSample(old(sample), TransactionSample(uri, parentMeta.name, parentStat.totalCallTime, metrics))
    {
      if parentStat.totalCallTime >= SampleThreshold
         && (sample.None? || (sample.Some? && parentStat.totalCallTime > sample.value.totalCallTime))
      {
        sample := Some(TransactionSample(uri, parentMeta.name, parentStat.totalCallTime, metrics));
      }
    }

    /**
     * `track!(metric_name, call_time, options)`: `scopeOption` is `Some(s)` when the
     * `:scope` key is present (with value `s`), `exclusiveTime` is `:exclusive_time`.
     */
    method Track(metricName: string, callTime: real, scopeOption: Option<Option<string>>,
                 exclusiveTime: Option<real>, defaultScope: Option<string>)
      modifies this`metricHash
      ensures metricHash == RecordCall(old(metricHash), TrackMeta(metricName, scopeOption, defaultScope),
                                       Plain, false, callTime, TrackExclusive(callTime, exclusiveTime))
    {
      var meta := MetricMeta(metricName, defaultScope);
      if scopeOption.Some? {
        meta := MetricMeta(metricName, scopeOption.value);
      }
      var stat := if meta in metricHash then metricHash[meta].stats else NewStats(false);
      var keyNote := if meta in metricHash then metricHash[meta].note else Plain;
      stat := Update(stat, callTime, if exclusiveTime.Some? then exclusiveTime.value else callTime);
      metricHash := metricHash[meta := Entry(keyNote, stat)];
    }

    /** `merge_data(old_data)`: combine-or-insert each entry, then return the table. */
    method MergeData(oldData: Table) returns (merged: Table)
      modifies this`metricHash
      ensures metricHash == MergeTables(old(metricHash), oldData)
      ensures merged == metricHash
    {
      var todo := oldData.Keys;
      while todo != {}
        invariant todo <= oldData.Keys
        invariant metricHash == MergeTables(old(metricHash), oldData - todo)
        decreases |todo|
      {
        var oldMeta :| oldMeta in todo;
        ghost var done := oldData - todo;
        if oldMeta in metricHash {
          var stats := metricHash[oldMeta];
          metricHash := metricHash[oldMeta := Entry(stats.note, Combine(stats.stats, oldData[oldMeta].stats))];
        } else {
          metricHash := metricHash[oldMeta := oldData[oldMeta]];
        }
        todo := todo - {oldMeta};
        assert oldData - todo == done[oldMeta := oldData[oldMeta]];
      }
      assert oldData - todo == oldData;
      merged := metricHash;
    }

    /** `merge_data_and_clear(old_data)`: returns the merged table and leaves the table empty. */
    method MergeDataAndClear(oldData: Table) returns (merged: Table)
      modifies this`metricHash
      ensures merged == MergeTables(old(metricHash), oldData)
      ensures metricHash == map[]
    {
      merged := MergeData(oldData);
      metricHash := map[];
    }
  }
}
