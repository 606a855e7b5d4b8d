# ScoutRails store: a verified model

This project models `ScoutRails::Store`, the in-memory recorder of the ScoutRails
agent, and the `ScoutRails::TransactionSample` record it fills. The store keeps four things:

- **The call stack of the running transaction.** `record` pushes a frame and returns it as a token. `stop_recording` pops the top frame and checks it against the token. It then adds the call's duration to the parent frame's children time.
- **The transaction table** (`transaction_hash`). It maps each metric key to its statistics. When a controller transaction completes, the table is rolled up into one `"<cat>/all"` aggregate per category.
- **The slowest-transaction slot** (`sample`). It holds at most one transaction sample: the slowest transaction of at least two seconds.
- **The process-wide table** (`metric_hash`). `track!` writes to it directly. `merge_data` and `merge_data_and_clear` combine another table into it.

Files:

- `wrappers.dfy`: `Option`.
- `metrics.dfy`: the metric key, its non-key attributes, the statistics with `update!`/`combine!`, and the sum of a table.
- `metric_names.dfy`: the store's regular expressions, written as prefix and first-segment tests, plus the as-written character class of the finding below.
- `transaction_sample.dfy`: the sample as a datatype.
- `store_spec.dfy`: pure functions that state what each store operation computes, and the lemmas about them.
- `store.dfy`: the classes `StackItem` and `Store`. Their methods follow the Ruby code step by step and are proved against `store_spec.dfy`.
- `scenarios.dfy`: client code that drives a store through whole requests.

Modelling decisions:

- **Keys.** A metric key is the pair (name, scope). Key equality on exactly that pair is an assumption, because `MetricMeta` is not part of this model.
  - A key object also carries a description and, for slow calls, a backtrace. Ruby's `Hash#[]=` on an existing key keeps the key object already stored. So these attributes live in the table entry (`Entry.note`) and are kept when an entry is updated.
  - `Hash#merge` likewise keeps the receiver's key object (`HashMerge`).
- **Default scope.** The scope a new `MetricMeta` takes (the current scope name of the thread) is the parameter `defaultScope`.
- **Time and backtraces.** `Time.now` is the parameter `now`, and `caller` is the parameter `callerLines`.
- **Ignore flag.** The thread-local ignore flag is the field `ignoring`.
- **`MetricStats.new`.** Without an argument it is taken to be unscoped.
- **Exclusive time.** `duration - children_time` is recorded without clamping, as the code does (`store.rb:71`). Because it is not clamped, the exclusive times of one transaction add up to exactly the root's duration. `StopRecording` and `NestedCallsAddUp` prove this.
- **Categories.** They are computed with the word-character class the code evidently meant; the as-written class is kept beside it for the finding below.
- **Value semantics.** Tables and statistics are values. So the sample and the process table hold copies, as the `dup` calls at `store.rb:76-83` intend.

## Model

| member | source | states |
|---|---|---|
| Stores.StackItem.constructor | lib/scout_rails/store.rb:39 | A new frame has the given name, starts at `now` and has no children time yet. |
| Stores.Store.constructor | lib/scout_rails/store.rb:10-18 | A new store has an empty metric table, an empty transaction table, an empty stack, no sample and is not ignoring. |
| Stores.Store.ResetTransaction | lib/scout_rails/store.rb:22-27 | Clears the ignore flag, empties the transaction table and the stack, and leaves the process table and the sample alone. |
| Stores.Store.IgnoreTransaction | lib/scout_rails/store.rb:29-31 | Sets the ignore flag and changes nothing else. |
| Stores.Store.Record | lib/scout_rails/store.rb:38-42 | Appends exactly one new frame (fresh, named, started at `now`, no children time) on top of the stack and returns it. It changes nothing but the stack. |
| Stores.Store.StopRecording | lib/scout_rails/store.rb:44-85 | Always pops exactly one frame (none from an empty stack). The ignore flag becomes set exactly when it already was or the popped frame is not the token. In that case the tables, the sample and every frame's children time are unchanged. On a matching pop it establishes `Completed`, and the new top frame's children time grows by exactly the duration while the others stay the same. The recorded exclusive total minus the pending children total is unchanged, except at the root, where it grows by the root's duration. |
| Stores.Store.FinishFrame | lib/scout_rails/store.rb:58-84 | After a matching pop: the parent's children time grows by the duration, and the transaction table is `RecordCall` of the frame's key. At a `Controller/` root, the sample is offered the table merged with its aggregates, and the process table receives exactly the aggregates plus the root entry. Otherwise the sample and the process table are unchanged. |
| Stores.Store.RecordStat | lib/scout_rails/store.rb:69-72 | The transaction table becomes `RecordCall` of the old one, so its exclusive total grows by exactly the call's exclusive time. |
| Stores.Store.AddChildTime | lib/scout_rails/store.rb:59-61 | Only the top frame's children time grows, by exactly `duration`, so the stack's children total grows by `duration`. |
| Stores.Store.CompleteTransaction | lib/scout_rails/store.rb:75-84 | The sample becomes `NextSample` of the transaction table merged with its aggregates. The process table becomes the merge of the aggregates plus the root key with its statistics. |
| Stores.Store.Categories | lib/scout_rails/store.rb:88-97 | The loop collects exactly `CategorySet`: the first word segments of the keys that have a scope. |
| Stores.Store.CombineCategory | lib/scout_rails/store.rb:106-111 | The inner loop yields exactly the combination, onto a new `MetricStats`, of every entry whose name starts with `cat/`. |
| Stores.Store.AggregateCalls | lib/scout_rails/store.rb:100-115 | The loop yields exactly `Aggregates`: one `"<cat>/all"` key per category that has calls. |
| Stores.Store.StoreSample | lib/scout_rails/store.rb:118-124 | The sample is replaced by the candidate exactly when it takes at least 2 s and there is no sample or a strictly faster one; otherwise it is unchanged. |
| Stores.Store.Track | lib/scout_rails/store.rb:132-138 | The process table is exactly the old one with one call of `(call_time, exclusive_time or call_time)` recorded under the key. That key is scoped by `:scope` only when the option key is present. |
| Stores.Store.MergeData | lib/scout_rails/store.rb:141-150 | The process table becomes the combine-or-insert merge of the old table and the input, and the same table is returned. |
| Stores.Store.MergeDataAndClear | lib/scout_rails/store.rb:154-158 | Returns the merged table and leaves the process table empty. |
| StoreSpec.RecordCall | lib/scout_rails/store.rb:69-72 | Recording a call adds its key and leaves every other entry unchanged. |
| StoreSpec.RecordCallAt | lib/scout_rails/store.rb:69-72 | The recorded key has one more call and both totals grow by the given times. A new entry takes the given attributes and is scoped when the frame is not the root; an existing entry keeps its own attributes and flag. |
| StoreSpec.RecordCallIsMerge | lib/scout_rails/store.rb:69-72 | Recording a call is the same as merging in a single-call table. |
| StoreSpec.RecordCallSum | lib/scout_rails/store.rb:69-72 | Recording a call adds exactly one call of the given times to the table's totals. |
| StoreSpec.FrameMetaScope | lib/scout_rails/store.rb:62-63 | A root frame's key has no scope; a nested frame's key has the default scope. So when there is a default scope, the key's scope is nil exactly at the root. |
| StoreSpec.CallNoteBacktrace | lib/scout_rails/store.rb:65-68 | A backtrace of application frames is attached exactly when the duration is over 0.5 s and the frame is not the root. |
| StoreSpec.CategoriesExact | lib/scout_rails/store.rb:88-97 | A word is a category exactly when some scoped key's name starts with that word and a slash. |
| StoreSpec.CategorySetAdd | lib/scout_rails/store.rb:90-95 | A table with one more key adds that key's category, when the key is scoped and has one, and nothing else. |
| StoreSpec.AggregatesOverShape | lib/scout_rails/store.rb:103-113 | Every aggregate key over a set of categories is `"<cat>/all"` for one of them with calls, holding that category's combination. |
| StoreSpec.AggregatesOverAt | lib/scout_rails/store.rb:103-113 | Each category of the set with calls has its aggregate, holding the combination of its entries. |
| StoreSpec.AggregatesShape | lib/scout_rails/store.rb:103-113 | Every aggregate key is `"<cat>/all"` scoped to the root's name, for a category with a non-zero call count. Its stats are the combination of that category's entries. |
| StoreSpec.AggregatesAt | lib/scout_rails/store.rb:103-113 | Every category with calls has its aggregate, holding the combination of its entries. |
| StoreSpec.AggregatesOverAdd | lib/scout_rails/store.rb:103-113 | Taking one more category adds its aggregate exactly when its call count is non-zero. |
| StoreSpec.AggregatesComplete | lib/scout_rails/store.rb:103-113 | When every entry has at least one call, no category is omitted. |
| StoreSpec.AllMetaInjective | lib/scout_rails/store.rb:104-105 | Distinct categories give distinct aggregate keys. |
| StoreSpec.ReportedKeys | lib/scout_rails/store.rb:76-83 | Only the aggregates and the root key reach the process table; no raw child entry does. |
| StoreSpec.HashMerge | lib/scout_rails/store.rb:77 | Merging in the aggregates gives the union of the keys, the aggregates' statistics on shared keys, and the table's own entries elsewhere. |
| StoreSpec.MergeIsCombineOrInsert | lib/scout_rails/store.rb:141-150 | The merged keys are the union. Shared keys combine their stats and keep the table's key attributes; every other key keeps its entry. |
| StoreSpec.MergeEmpty | lib/scout_rails/store.rb:141-150 | Merging in an empty table changes nothing. |
| StoreSpec.MergeAssociates | lib/scout_rails/store.rb:141-150 | Merging in two tables in turn is the same as merging in their merge. |
| StoreSpec.MergeStep | lib/scout_rails/store.rb:142-148 | Merging a table is the same as merging it without one key and then merging that key. |
| StoreSpec.MergeAddsTotals | lib/scout_rails/store.rb:141-150 | Merging loses and duplicates nothing: the totals of the result are the totals of both tables combined. |
| StoreSpec.KeepSlowestIsSlowest | lib/scout_rails/store.rb:118-124 | After any run of candidates, the slot holds the initial sample or one of the candidates. It never gets faster, and it is at least as slow as every candidate of at least 2 s. |
| StoreSpec.SampleReplacementExamples | lib/scout_rails/store.rb:120 | Against a 3.0 s sample, a 2.5 s transaction is rejected and a 3.5 s one replaces it. |
| Metrics.CombineCommutes | lib/scout_rails/store.rb:109 | Combining is commutative on the counters. |
| Metrics.CombineAssociates | lib/scout_rails/store.rb:109 | Combining is associative. |
| Metrics.UpdateIsCombineOfOneCall | lib/scout_rails/store.rb:71 | `update!` is the same as combining with one call, and a new statistic is the unit of combining. |
| Metrics.Sum | lib/scout_rails/store.rb:106-111 | The combination of every entry of a table onto a new, unscoped `MetricStats`. |
| Metrics.SumRemove | lib/scout_rails/store.rb:107-111 | The sum does not depend on the order of the entries: any entry may be combined last. |
| Metrics.SumInsert | lib/scout_rails/store.rb:146 | Adding an entry under a new key adds its stats to the sum. |
| Metrics.SumCombineAt | lib/scout_rails/store.rb:144 | Combining stats into an existing entry adds them to the sum. |
| Metrics.SumCountsEntry | lib/scout_rails/store.rb:112 | Every entry's calls are counted in the sum. |
| MetricNames.Run | lib/scout_rails/store.rb:92 | The longest prefix of class characters: every character of it is in the class, and the next one is not. |
| MetricNames.CategoryOf | lib/scout_rails/store.rb:92-93 | A category is a non-empty word segment that the name starts with, followed by a slash. |
| MetricNames.CategoryOfExact | lib/scout_rails/store.rb:92-93 | A non-empty word is the category of exactly the names that start with it and a slash. |
| MetricNames.AppFrames | lib/scout_rails/store.rb:67 | The frames kept are exactly the caller lines that mention `/app/`, and there are no more of them than lines. |
| MetricNames.SplitPipes | lib/scout_rails/store.rb:108 | A pattern without a `\|` is a single alternative. |
| MetricNames.PipeCategoryMatchesEverything | lib/scout_rails/store.rb:88-111 | As written, the scoped name `\|/a` yields the category `\|`, and that category's pattern matches every name. |
| MetricNames.CorrectedCategoryMatchIsPrefix | lib/scout_rails/store.rb:88-111 | With word characters only, `\|/a` has no category. The interpolated pattern of every category is exactly the prefix test for `cat/`. |
| TransactionSamples.TransactionSample.Meta | lib/scout_rails/transaction_sample.rb:2-9 | The `meta` reader is never assigned, so it is always nil. |
| Scenarios.NestedCallsAddUp | lib/scout_rails/store.rb:44-84 | A controller action with a nested view call: the exclusive times recorded add up to the action's duration, and the action's key reaches the process table. |
| Scenarios.RenderView | lib/scout_rails/store.rb:38-61 | After a nested call completes, only the root frame is on the stack. The recorded exclusive time equals the root's pending children time. |
| Scenarios.UnbalancedStackIsIgnored | lib/scout_rails/store.rb:22-57 | A token mismatch makes the rest of the transaction record nothing until the reset, which clears the flag. |
| Scenarios.DrainThenTrack | lib/scout_rails/store.rb:132-158 | Draining hands over the table and empties it, so the next `track!` starts a fresh single-call entry. |

`TransactionSample` is a datatype. Its destructors are the readers, so each returns exactly the value passed to the constructor, and no sample can be changed after it is built. The store stores a value, so later changes to the transaction table cannot reach a stored sample.

## Left out

- Threads and the mutex around `store_sample` (`store.rb:17` and `store.rb:119`): `StoreSample` is one atomic step.
- Thread-local storage: the ignore flag is the field `ignoring`. The reset of `:scout_scope_name` at `store.rb:24` is not modelled, because the scope is the parameter `defaultScope`.
- The warning logged on a token mismatch (`store.rb:54`): it is logging output.
- `Time.now` and `caller`: they are the parameters `now` and `callerLines`.
- `MetricMeta`, `MetricStats`, `StackItem` and `Tracer` are not part of this model beyond what `store.rb` uses from them:
  - the key's name and scope;
  - `update!`, `combine!`, `call_count`, the two total times and the scoped flag.
  Any other fields of `MetricStats` (minimum, maximum, squares) are not modelled.
- Key equality being exactly (name, scope) is an assumption, since `MetricMeta#eql?`/`hash` are not part of this model. So is the assumption that `MetricStats.new` without an argument is unscoped.
- Aliasing of `MetricStats` objects between the transaction table, the sample and the process table: everything is a value. The deep duplicate at `store.rb:78-83` is therefore implicit. As a consequence, `merge_data` mutating a statistic held elsewhere (`combine!` at `store.rb:144`) is not modelled.
- The order of keys in a Ruby hash: tables are maps and categories are sets. Iteration order does not matter to any modelled result.
- The return value of `stop_recording`: it is `nil` or the value of the last expression, and no caller uses it.
- `agent.rb`, `environment.rb`, `agent/logging.rb`, the instrument files, the background worker and its drift-corrected schedule: these are I/O, concurrency, environment detection and framework hooks.
- Floating point: times are `real`.

## Findings

| source | as written | input that shows it | evidently intended | confidence | as-written member | corrected member |
|---|---|---|---|---|---|---|
| lib/scout_rails/store.rb:92-108 | The category class `[\w\|\d]` also admits a literal `\|`. The category is then interpolated unescaped into `/\A#{cat}\//`, where `\|` is an alternation. | A scoped key named `\|/a` yields the category `\|`. Its pattern `/\A\|\//` matches every name, so `"\|/all"` aggregates the whole transaction, root included. | The class `\w` (word characters), so that a category's pattern is the prefix test for `cat/` | not executed; follows from Ruby regex semantics | MetricNames.PipeCategoryMatchesEverything | MetricNames.CorrectedCategoryMatchIsPrefix |
