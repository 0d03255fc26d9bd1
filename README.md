# tracing-splunk-layer, modelled in Dafny

`tracing-splunk-layer` is a layer for Rust's `tracing` framework. It gives every span
a map from field name to JSON value, `EventStorage`. A new span starts from a copy of its
parent's map and adds its creation attributes. Events and later `record` calls write into
the span's map. The first time a span is entered, its start instant is stored. When the
span closes, the elapsed milliseconds are written under `"elapsed_time"` and the map is
printed as JSON.

The model has four modules:

- `FieldStore` (`fieldstore.dfy`) defines the stored values and the visitor's callback
  kinds, and the meaning of showing a sequence of fields to the visitor. `Merge` inserts
  the fields in order, so each name ends up with its last value.
  `LastWrite` is a separate reference definition of "the last field with this name".
  The lemmas relate `Merge` to it: appending fields, concatenating field sets, and
  overriding maps with `+`.
- `Storage` (`storage.dfy`) is the `EventStorage` class with its six `record_*` callbacks.
  Each callback inserts one entry in place. `RecordAll` is the loop the host
  runs over a field set, and it is proved to compute `Merge`. `Events` is the `events`
  accessor. `Clone` is the `to_owned` copy.
- `Lifecycle` (`lifecycle.dfy`) gives the five hooks as pure transitions of a `State`.
  The state holds one field map and at most one start time per span. `Run` executes a
  sequence of hooks and collects the printed records. The lemmas cover inheritance,
  snapshot isolation, event routing, frames, the start time being set once, the elapsed
  time written at close, and the end-to-end scenario of the integration test.
- `HecLayer` (`heclayer.dfy`) is the `SplunkHecLayer` class. It holds one `EventStorage`
  object per span, plus the start times. Its hook methods are proved to perform exactly
  the `Lifecycle` transitions on the abstract state `Model()`. `Valid()` says that no two
  spans share a storage object. Snapshot isolation depends on that, together with the
  fresh copy made at creation.

The host (the `tracing-subscriber` registry) becomes explicit inputs. The new span's
parent is an `Option<SpanId>` argument. The current span of an event is an
`Option<SpanId>` argument. The clock is a `now: nat` argument in milliseconds. Field sets
are sequences of `Field(name, arg)`. `arg` names the callback the host's value dispatch
picks: for example, tracing records an `i32` through `record_i64`. The host never visits
a field declared `Empty`, so no `Field` stands for it.

Values follow serde_json's conversions, because the source stores
`serde_json::Value::from(...)`:

- An `i64` and a `u64` both become one JSON integer (`Int`). serde_json compares them by
  value.
- A finite `f64` becomes `Float(bits)`, keeping its bit pattern. A non-finite one becomes
  `Null`.
- A debug rendering and a `&str` become `Str`.

Preconditions stand for the points where the source panics or relies on the host:

- `on_new_span` needs the new span to have no `EventStorage` yet. `tracing-subscriber`'s
  `ExtensionsMut::insert` asserts that no value of the type is present. A newly allocated
  span also has no start instant.
- `on_event`, `on_record` and `on_close` need the span to have a storage, because they
  `unwrap()` it.
- `on_close` needs the elapsed milliseconds to fit in a `u64`, because of
  `try_into().unwrap()`.

`ElapsedMs` saturates at 0 when the clock reads earlier than the start, as
`Instant::elapsed` does. It is 0 for a span that was never entered.

Two behaviours of the code are modelled as written:

- The duration is not saturated to the `u64` range. `try_into().unwrap()`
  (src/lib.rs:146-147) panics when the milliseconds exceed `u64::MAX`, so `OnClose`
  requires `ElapsedFits`.
- A user field named `"elapsed_time"` is overwritten at close (src/lib.rs:152-154).
  `CloseWritesElapsed` states that overwrite.

## Model

| member | source | states |
|---|---|---|
| `FieldStore.Merge` | src/lib.rs:38-65 | After visiting `fs`, the storage has the old keys plus every name in `fs`. A name in `fs` holds the value of its last field there. Every other key keeps its old value. |
| `FieldStore.LastWriteIsLast` | src/lib.rs:39-64 | `LastWrite(fs, k)` is `None` exactly when no field in `fs` is named `k`. Otherwise it is the argument at the last position named `k`. |
| `FieldStore.MergeSnoc` | src/lib.rs:39-64 | Visiting one more field is one more overwriting insert of that field's value. |
| `FieldStore.MergeAppend` | src/lib.rs:102-119 | Merging two field sets one after the other equals merging their concatenation. Successive events and records on one span accumulate. |
| `FieldStore.MergeIsOverride` | src/lib.rs:82-93 | Merging `fs` into `m` equals `m + Written(fs)`: the old map overridden by what `fs` writes, later writes winning. |
| `FieldStore.MergeKeepsKeys` | src/lib.rs:39-64 | No callback removes a key. The key set only grows, so the key count never decreases. |
| `FieldStore.DebugFallbackKept` | src/lib.rs:39-44 | A `record_debug` call maps its name to the string rendering. Every other entry is unchanged and the key count does not decrease. |
| `FieldStore.ToValue` | src/lib.rs:40-63 | The JSON value each callback stores: serde_json's `Value::from` of the argument, with `null` for a non-finite float. It has no contract of its own; the `Storage.EventStorage.Record*` rows state each case. |
| `Storage.EventStorage.constructor` | src/lib.rs:19-33 | `new`/`default` give an empty storage. |
| `Storage.EventStorage.Events` | src/lib.rs:24-26 | The `events` accessor, returning the stored map. It has no contract of its own; `OnClose` returns it as the printed record. |
| `Storage.EventStorage.Clone` | src/lib.rs:86 | `to_owned` gives a fresh object with the same entries. |
| `Storage.EventStorage.RecordDebug` | src/lib.rs:39-44 | Inserts `name -> Str(rendering)` and changes nothing else. |
| `Storage.EventStorage.RecordF64` | src/lib.rs:46-48 | Inserts the float, or `Null` for a non-finite one, and changes nothing else. |
| `Storage.EventStorage.RecordI64` | src/lib.rs:50-52 | Inserts the integer and changes nothing else. |
| `Storage.EventStorage.RecordU64` | src/lib.rs:54-56 | Inserts the integer and changes nothing else. |
| `Storage.EventStorage.RecordBool` | src/lib.rs:58-60 | Inserts the boolean and changes nothing else. |
| `Storage.EventStorage.RecordStr` | src/lib.rs:62-64 | Inserts the string and changes nothing else. |
| `Storage.EventStorage.Record` | src/lib.rs:38-65 | One callback, chosen by the value's kind, inserts `ToValue` of the value under the field's name. |
| `Storage.EventStorage.RecordAll` | src/lib.rs:93 | Visiting a field set leaves the storage equal to `Merge(old storage, fields)`. |
| `Lifecycle.NewSpan` | src/lib.rs:78-100 | The `on_new_span` transition. It has no contract of its own; `InheritanceAtCreation`, `NewSpanFrame` and `CreationLeavesParent` state it. |
| `Lifecycle.Event` | src/lib.rs:102-111 | The `on_event` transition. It has no contract of its own; `EventRouting` states it. |
| `Lifecycle.RecordValues` | src/lib.rs:114-119 | The `on_record` transition. It has no contract of its own; `RecordFrame` states it. |
| `Lifecycle.Enter` | src/lib.rs:121-130 | The `on_enter` transition. It has no contract of its own; `EnterKeepsFirstStart` and `StartNeverReset` state it. |
| `Lifecycle.ElapsedMs` | src/lib.rs:139-148 | The elapsed milliseconds, 0 for a span never entered. It has no contract of its own; `ElapsedMonotone` states it. |
| `Lifecycle.Close` | src/lib.rs:132-154 | The `on_close` transition. It has no contract of its own; `CloseWritesElapsed` states it. |
| `Lifecycle.InheritanceAtCreation` | src/lib.rs:82-93 | A new span's storage is the parent's storage overridden by the attributes, the last attribute winning on a repeated name. It is the attributes alone when there is no parent or the parent has no storage. Parent entries not overridden keep their values. |
| `Lifecycle.NewSpanFrame` | src/lib.rs:78-100 | Creation adds exactly the new span's storage. No other span's storage and no start time changes. |
| `Lifecycle.CreationLeavesParent` | src/lib.rs:82-87 | Creating a child does not change the parent's storage. |
| `Lifecycle.UntargetedStoreUnchanged` | src/lib.rs:83-87 | Take any run of hooks that never targets span `c`, including records and events on its parent. At the end, `c`'s storage is what it was. A child never sees later writes to its parent. |
| `Lifecycle.EventRouting` | src/lib.rs:102-111 | With no current span the whole state is unchanged. Otherwise only the current span's storage changes, by merging in the event's fields. |
| `Lifecycle.RecordFrame` | src/lib.rs:114-119 | `on_record` overrides exactly the named span's storage with the updated fields. Other spans and start times are unchanged. |
| `Lifecycle.EnterKeepsFirstStart` | src/lib.rs:121-130 | The first enter sets the start to `now`. An enter when a start exists keeps it. Entering twice equals entering once. Storages do not change. |
| `Lifecycle.StartNeverReset` | src/lib.rs:127-129 | Once a span has a start time, no run of hooks changes or removes it. |
| `Lifecycle.CloseWritesElapsed` | src/lib.rs:132-154 | Closing adds or overwrites `"elapsed_time"` with the elapsed milliseconds, `Int(0)` if the span was never entered. Every other key is kept, and other spans and start times are unchanged. |
| `Lifecycle.ElapsedMonotone` | src/lib.rs:139-148 | The elapsed time never decreases as the clock advances. It grows by exactly the time passed once the span is entered, and never exceeds the clock. |
| `Lifecycle.ScenarioRecords` | tests/spans.rs:5-18 | In the integration test's scenario, "inner" prints `level=1, a_bool, answer=42, message` and its duration, without `other_field`. "outer" prints `level=0, other_field=7` and a duration of at least 50 ms. |
| `HecLayer.SplunkHecLayer.constructor` | src/lib.rs:68 | The layer starts with no per-span state: no storage objects and no start times. |
| `HecLayer.SplunkHecLayer.OnNewSpan` | src/lib.rs:78-100 | Performs `NewSpan` on the abstract state. The new storage is a fresh object, so no span shares storage with another. Every other span keeps its storage object, and the start times are unchanged. |
| `HecLayer.SplunkHecLayer.Attach` | src/lib.rs:97-99 | Stores the new span's storage object, adding exactly that span's entry. |
| `HecLayer.SplunkHecLayer.OnEvent` | src/lib.rs:102-111 | Performs `Event`, and modifies at most the current span's storage object. |
| `HecLayer.SplunkHecLayer.OnRecord` | src/lib.rs:114-119 | Performs `RecordValues`, and modifies only the named span's storage object. |
| `HecLayer.SplunkHecLayer.OnEnter` | src/lib.rs:121-130 | Performs `Enter`, and modifies only the start times. |
| `HecLayer.SplunkHecLayer.OnClose` | src/lib.rs:132-156 | Performs `Close` and returns the finalized storage of the span, the map the source prints. |
| `HecLayer.ReplayScenario` | tests/spans.rs:5-18 | Driving the integration test's hooks on one layer object returns, at the two closes, the records `ScenarioRecords` describes: "inner" with `level=1`, the event's fields and `t2 - t1`, and "outer" with `level=0`, `other_field=7` and `t3 - t0`. |

## Left out

- Printing: `serde_json::to_string_pretty` and `println!` (src/lib.rs:155) are
  serialisation and I/O. `OnClose` returns the finalized map instead. Serialising a map of
  these values cannot fail, so the `unwrap()` there is not modelled.
- Float contents: an `f64` is kept as its bit pattern and not interpreted. Only its
  finiteness matters (serde_json's `null` for infinities and NaN).
- The real clock: `Instant::now` and `elapsed().as_millis()` become an abstract
  millisecond clock `now`. Truncation of sub-millisecond instants is not modelled.
- The host runtime is not modelled: the registry, span-id allocation and liveness
  (`ctx.span(id).unwrap()`), parent and current-span resolution, and the host's mapping
  from Rust types to `record_*` callbacks. It is replaced by arguments and preconditions.
- The locks taken by `extensions()` and `extensions_mut()` are not modelled, and neither
  is concurrency between spans. Every hook is modelled as one atomic step.
- Span teardown: the host drops a span's extensions after `on_close`. The model keeps
  the closed span's state, so span ids are never reused in the model.
- The `tracing::debug!` call in `on_event`'s no-span branch (src/lib.rs:109) is not
  modelled, and neither is any re-entry into the layer that it may cause. The model does
  nothing in that branch.
- The placeholder unit test `it_works` (src/lib.rs:159-166) checks nothing.
  `tests/spans.rs` installs a global subscriber and sleeps, so it appears only as the
  scenario of `ScenarioRecords`, with the sleep as the precondition `t0 + 50 <= t1`.
