/**
 * Client code of the store, in the way an instrumented request drives it:
 * what a caller can conclude from the store's contracts alone.
 */
module Scenarios {
  import opened Wrappers
  import opened Metrics
  import opened MetricNames
  import opened StoreSpec
  import opened Stores

  /**
   * A controller action at `t0` that renders a view from `t1` to `t2` and ends at
   * `t3`: the exclusive times recorded add up to the root's duration.
   */
  method NestedCallsAddUp(t0: real, t1: real, t2: real, t3: real) returns (s: Store)
    ensures fresh(s) && s.Valid() && s.stack == [] && !s.ignoring
    ensures ExclusiveTotal(s.transactionHash) == t3 - t0
    ensures MetricMeta("Controller/users/index", None) in s.metricHash
  {
    var root;
    s, root := RenderView(t0, t1, t2);
    ghost var transactionBefore, metricsBefore, sampleBefore := s.transactionHash, s.metricHash, s.sample;
    s.StopRecording(root, t3, None, Some("/users"), Some("Controller/users/index"), []);
    assert s.stack == [];
    assert s.Completed(root, t3, None, Some("/users"), Some("Controller/users/index"), [],
                       transactionBefore, metricsBefore, sampleBefore);
    assert StartsWith(root.metricName, ControllerPrefix) by {
      assert root.metricName[..|ControllerPrefix|] == ControllerPrefix;
    }
    ghost var meta := MetricMeta("Controller/users/index", None);
    ghost var reported := Reported(Aggregates(s.transactionHash, root.metricName), meta,
                                   Entry(CallNote(None, t3 - t0, true, []), s.transactionHash[meta].stats));
    assert meta in reported;
    assert s.metricHash == MergeTables(metricsBefore, reported);
  }

  /** The first part of the request above: the root entered and a view rendered inside it. */
  method RenderView(t0: real, t1: real, t2: real) returns (s: Store, root: StackItem)
    ensures fresh(s) && fresh(root) && s.Valid() && s.stack == [root] && !s.ignoring
    ensures root.metricName == "Controller/users/index" && root.startTime == t0
    ensures ExclusiveTotal(s.transactionHash) - ChildrenTotal(s.stack) == 0.0
  {
    s := new Store();
    assert ExclusiveTotal(s.transactionHash) == 0.0;
    root := s.Record("Controller/users/index", t0);
    var view := s.Record("View/users/index/Rendering", t1);
    assert s.stack == [root, view];
    assert ChildrenTotal(s.stack) == 0.0 by {
      assert s.stack[..1] == [root];
      assert [root][..0] == [];
      assert ChildrenTotal([root]) == root.childrenTime;
      assert ChildrenTotal(s.stack) == ChildrenTotal([root]) + view.childrenTime;
    }
    assert TopIs(s.stack, view) && Popped(s.stack) == [root];
    s.StopRecording(view, t2, None, None, Some("Controller/users/index"), []);
  }

  /**
   * `A` then `B` entered, and `A`'s token presented while `B` is on top: the
   * transaction is ignored, the later pop of `A` records nothing either, and no
   * entry reaches the process table until the reset clears the flag.
   */
  method UnbalancedStackIsIgnored(t0: real, t1: real, t2: real, t3: real) returns (s: Store)
    ensures fresh(s) && s.Valid()
    ensures s.metricHash == map[] && s.transactionHash == map[] && s.sample.None?
    ensures !s.ignoring && s.stack == []
  {
    s := new Store();
    var a := s.Record("Controller/users/index", t0);
    var b := s.Record("ActiveRecord/User/find", t1);
    assert !TopIs(s.stack, a) && Popped(s.stack) == [a];
    s.StopRecording(a, t2, None, None, Some("Controller/users/index"), []);
    assert s.ignoring && s.metricHash == map[] && s.transactionHash == map[] && s.sample.None?;
    s.StopRecording(b, t3, None, Some("/users"), Some("Controller/users/index"), []);
    s.ResetTransaction();
  }

  /**
   * Draining hands over the table and empties it, so a later `track!` starts a
   * fresh entry with a single call.
   */
  method DrainThenTrack(cpu: real, later: real) returns (s: Store, drained: Table)
    ensures fresh(s)
    ensures drained == map[MetricMeta("CPU/Utilization", None) := Entry(Plain, OneCall(cpu, cpu))]
    ensures s.metricHash == map[MetricMeta("CPU/Utilization", None) := Entry(Plain, OneCall(later, later))]
  {
    s := new Store();
    s.Track("CPU/Utilization", cpu, Some(None), None, Some("Controller/users/index"));
    ghost var tracked := s.metricHash;
    drained := s.MergeDataAndClear(map[]);
    MergeEmpty(tracked);
    s.Track("CPU/Utilization", later, Some(None), None, Some("Controller/users/index"));
  }
}
