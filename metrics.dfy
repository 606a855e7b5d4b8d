/**
 * The interface of the metric key (`MetricMeta`) and of the metric statistics
 * (`MetricStats`) that the store relies on. Only what the store uses is modelled:
 * a key made of a name and an optional scope, `update!`, `combine!`, the call
 * count and the call times.
 */
module Metrics {
  import opened Wrappers

  /** A metric key. Hash and equality are assumed to be exactly (name, scope). */
  datatype MetricMeta = MetricMeta(name: string, scope: Option<string>)

  /**
   * The attributes of a key object that take no part in equality: the
   * description option and the captured call-site backtrace (`extra`).
   */
  datatype Annotation = Annotation(desc: Option<string>, backtrace: Option<seq<string>>)

  /** A key built with neither a description nor a backtrace. */
  const Plain := Annotation(None, None)

  /** Call count, total call time, total exclusive time and the scoped flag. */
  datatype MetricStats = MetricStats(callCount: nat, totalCallTime: real, totalExclusiveTime: real, scoped: bool)

  /**
   * One entry of a metric table: the attributes of the key object the table
   * holds for that key, and its statistics.
   */
  datatype Entry = Entry(note: Annotation, stats: MetricStats)

  type Table = map<MetricMeta, Entry>

  /** `MetricStats.new(scoped)`: no calls yet. */
  function NewStats(scoped: bool): MetricStats
  {
    MetricStats(0, 0.0, 0.0, scoped)
  }

  /** `update!(time, exclusive)`: one more call. */
  function Update(s: MetricStats, time: real, exclusive: real): MetricStats
  {
    MetricStats(s.callCount + 1, s.totalCallTime + time, s.totalExclusiveTime + exclusive, s.scoped)
  }

  /** `combine!(other)`: adds the other's counters into the receiver, which keeps its flag. */
  function Combine(a: MetricStats, b: MetricStats): MetricStats
  {
    MetricStats(a.callCount + b.callCount, a.totalCallTime + b.totalCallTime,
                a.totalExclusiveTime + b.totalExclusiveTime, a.scoped)
  }

  /** The statistics of a single call of the given times. */
  function OneCall(time: real, exclusive: real): MetricStats
  {
    Update(NewStats(false), time, exclusive)
  }

  /** Two statistics agree on all three counters. */
  predicate SameCounters(a: MetricStats, b: MetricStats)
  {
    a.callCount == b.callCount && a.totalCallTime == b.totalCallTime
    && a.totalExclusiveTime == b.totalExclusiveTime
  }

  lemma CombineCommutes(a: MetricStats, b: MetricStats)
    ensures SameCounters(Combine(a, b), Combine(b, a))
  {
  }

  lemma CombineAssociates(a: MetricStats, b: MetricStats, c: MetricStats)
    ensures Combine(Combine(a, b), c) == Combine(a, Combine(b, c))
  {
  }

  /** Updating is combining with one call, and a new statistic is the unit of combining. */
  lemma UpdateIsCombineOfOneCall(s: MetricStats, time: real, exclusive: real)
    ensures Update(s, time, exclusive) == Combine(s, OneCall(time, exclusive))
    ensures Combine(NewStats(s.scoped), s) == s
  {
  }

  /**
   * The combination of every entry of a table, starting from `MetricStats.new`.
   * It does not depend on the order in which the entries are taken (SumRemove).
   */
  ghost function Sum(t: Table): (r: MetricStats)
    ensures !r.scoped
    decreases |t|
  {
    if t == map[] then NewStats(false)
    else
      var k :| k in t;
      Combine(Sum(t - {k}), t[k].stats)
  }

  /** Any entry may be taken out last. */
  lemma {:induction false} SumRemove(t: Table, k: MetricMeta)
    requires k in t
    ensures Sum(t) == Combine(Sum(t - {k}), t[k].stats)
    decreases |t|
  {
    var j :| j in t && Sum(t) == Combine(Sum(t - {j}), t[j].stats);
    if j != k {
      var rest := t - {j} - {k};
      assert t - {k} - {j} == rest;
      SumRemove(t - {j}, k);
      SumRemove(t - {k}, j);
      assert Sum(t - {j}) == Combine(Sum(rest), t[k].stats);
      assert Sum(t - {k}) == Combine(Sum(rest), t[j].stats);
      var r, a, b := Sum(rest), t[k].stats, t[j].stats;
      assert Combine(Combine(r, a), b) == Combine(Combine(r, b), a);
    }
  }

  /** Adding an entry under a new key adds its statistics to the sum. */
  lemma SumInsert(t: Table, k: MetricMeta, e: Entry)
    requires k !in t
    ensures Sum(t[k := e]) == Combine(Sum(t), e.stats)
  {
    SumRemove(t[k := e], k);
    assert t[k := e] - {k} == t;
  }

  /** Replacing an entry by one whose statistics combine `s` into it adds `s` to the sum. */
  lemma SumCombineAt(t: Table, k: MetricMeta, note: Annotation, s: MetricStats)
    requires k in t
    ensures Sum(t[k := Entry(note, Combine(t[k].stats, s))]) == Combine(Sum(t), s)
  {
    var t' := t[k := Entry(note, Combine(t[k].stats, s))];
    SumRemove(t', k);
    SumRemove(t, k);
    assert t' - {k} == t - {k};
  }

  /** Every entry's calls are among the sum's calls. */
  lemma SumCountsEntry(t: Table, k: MetricMeta)
    requires k in t
    ensures Sum(t).callCount >= t[k].stats.callCount
  {
    SumRemove(t, k);
  }
}
