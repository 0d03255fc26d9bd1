/**
 The layer's lifecycle hooks as transitions of the per-span state the host
 keeps for it: one field map and at most one start time per span. The methods
 of `HecLayer.SplunkHecLayer` are proved to perform exactly these transitions.
 */
module Lifecycle {
  import opened FieldStore

  /** A span identifier: tracing's `Id` is a non-zero `u64`. */
  type SpanId = x: int | 1 <= x < U64Limit witness 1

  /** The key of the synthetic duration field written at close. */
  const ElapsedKey: string := "elapsed_time"

  /**
   `stores[s]` is the `EventStorage` in the extensions of span `s`, `start[s]`
   its `Instant`, read in milliseconds of an abstract clock.
   */
  datatype State = State(stores: map<SpanId, FieldMap>, start: map<SpanId, nat>)

  const Initial: State := State(map[], map[])

  /**
   The storage a new span starts from: a copy of the parent's storage, or
   empty when there is no parent or the parent has no storage.
   */
  function Inherited(stores: map<SpanId, FieldMap>, parent: Option<SpanId>): FieldMap {
    if parent.Some? && parent.value in stores then stores[parent.value] else map[]
  }

  /** `on_new_span`: the inherited copy with the creation attributes merged in. */
  function NewSpan(st: State, id: SpanId, parent: Option<SpanId>, attrs: seq<Field>): State {
    st.(stores := st.stores[id := Merge(Inherited(st.stores, parent), attrs)])
  }

  /** `on_event`: the event's fields go into the current span, if there is one. */
  function Event(st: State, current: Option<SpanId>, fs: seq<Field>): State
    requires current.Some? ==> current.value in st.stores
  {
    match current
    case None => st
    case Some(c) => st.(stores := st.stores[c := Merge(st.stores[c], fs)])
  }

  /** `on_record`: the updated fields go into the named span. */
  function RecordValues(st: State, id: SpanId, fs: seq<Field>): State
    requires id in st.stores
  {
    st.(stores := st.stores[id := Merge(st.stores[id], fs)])
  }

  /** `on_enter`: the start time is taken on the first entry only. */
  function Enter(st: State, id: SpanId, now: nat): State {
    if id in st.start then st else st.(start := st.start[id := now])
  }

  function StartOf(start: map<SpanId, nat>, id: SpanId): Option<nat> {
    if id in start then Some(start[id]) else None
  }

  /**
   Milliseconds since the start, 0 for a span that was never entered; like
   `Instant::elapsed`, it saturates at 0 should the clock read earlier than the start.
   */
  function ElapsedMs(start: Option<nat>, now: nat): nat
  {
    match start
    case None => 0
    case Some(t) => if t <= now then now - t else 0
  }

  /** The duration fits the `u64` that `try_into().unwrap()` demands. */
  predicate ElapsedFits(start: map<SpanId, nat>, id: SpanId, now: nat) {
    ElapsedMs(StartOf(start, id), now) < U64Limit
  }

  /** `on_close`: the duration is written under `"elapsed_time"`, overwriting any field of that name. */
  function Close(st: State, id: SpanId, now: nat): State
    requires id in st.stores && ElapsedFits(st.start, id, now)
  {
    st.(stores := st.stores[id := st.stores[id][ElapsedKey := Int(ElapsedMs(StartOf(st.start, id), now))]])
  }

  /** One notification of the host, with the inputs the host resolves for it. */
  datatype Hook =
    | OnNewSpan(id: SpanId, parent: Option<SpanId>, attrs: seq<Field>)
    | OnEvent(current: Option<SpanId>, fs: seq<Field>)
    | OnRecord(id: SpanId, fs: seq<Field>)
    | OnEnter(id: SpanId, now: nat)
    | OnClose(id: SpanId, now: nat)

  /**
   The hook runs to completion: the storage it unwraps exists, a new span's
   extension slots are empty, and the duration at close fits a `u64`.
   */
  predicate Completes(st: State, h: Hook) {
    match h
    case OnNewSpan(id, _, _) => id !in st.stores && id !in st.start
    case OnEvent(current, _) => current.Some? ==> current.value in st.stores
    case OnRecord(id, _) => id in st.stores
    case OnEnter(_, _) => true
    case OnClose(id, now) => id in st.stores && ElapsedFits(st.start, id, now)
  }

  function Apply(st: State, h: Hook): State
    requires Completes(st, h)
  {
    match h
    case OnNewSpan(id, parent, attrs) => NewSpan(st, id, parent, attrs)
    case OnEvent(current, fs) => Event(st, current, fs)
    case OnRecord(id, fs) => RecordValues(st, id, fs)
    case OnEnter(id, now) => Enter(st, id, now)
    case OnClose(id, now) => Close(st, id, now)
  }

  /** The records a hook prints: a closed span's finalized storage. */
  function Emitted(st: State, h: Hook): seq<FieldMap>
    requires Completes(st, h)
  {
    if h.OnClose? then [Apply(st, h).stores[h.id]] else []
  }

  /** The final state and the printed records, in order. */
  datatype Trace = Trace(state: State, records: seq<FieldMap>)

  /** A run of hooks; `None` when some hook does not complete. */
  function Run(st: State, hs: seq<Hook>): Option<Trace>
    decreases |hs|
  {
    if hs == [] then Some(Trace(st, []))
    else if !Completes(st, hs[0]) then None
    else match Run(Apply(st, hs[0]), hs[1..])
      case None => None
      case Some(t) => Some(Trace(t.state, Emitted(st, hs[0]) + t.records))
  }

  /** Running `hs1` and then `hs2` is running their concatenation; the records add up. */
  lemma {:induction false} RunAppend(st: State, hs1: seq<Hook>, hs2: seq<Hook>)
    ensures Run(st, hs1 + hs2) ==
      match Run(st, hs1)
      case None => None
      case Some(t1) =>
        match Run(t1.state, hs2)
        case None => None
        case Some(t2) => Some(Trace(t2.state, t1.records + t2.records))
    decreases |hs1|
  {
    if hs1 == [] {
      assert hs1 + hs2 == hs2;
      match Run(st, hs2)
      case None =>
      case Some(t2) => assert [] + t2.records == t2.records;
    } else {
      assert (hs1 + hs2)[0] == hs1[0];
      assert (hs1 + hs2)[1..] == hs1[1..] + hs2;
      if Completes(st, hs1[0]) {
        RunAppend(Apply(st, hs1[0]), hs1[1..], hs2);
        match Run(Apply(st, hs1[0]), hs1[1..])
        case None =>
        case Some(t1) =>
          match Run(t1.state, hs2)
          case None =>
          case Some(t2) =>
            assert Emitted(st, hs1[0]) + (t1.records + t2.records)
                == (Emitted(st, hs1[0]) + t1.records) + t2.records;
      }
    }
  }

  /** The hook changes the storage of span `c`, or creates it. */
  predicate Targets(h: Hook, c: SpanId) {
    match h
    case OnNewSpan(id, _, _) => id == c
    case OnEvent(current, _) => current == Some(c)
    case OnRecord(id, _) => id == c
    case OnEnter(_, _) => false
    case OnClose(id, _) => id == c
  }

  /**
   A new span's storage is its parent's storage, or nothing, overridden by
   the creation attributes, the last of them winning under a repeated name.
   */
  lemma InheritanceAtCreation(st: State, id: SpanId, parent: Option<SpanId>, attrs: seq<Field>)
    ensures NewSpan(st, id, parent, attrs).stores[id] == Inherited(st.stores, parent) + Written(attrs)
    ensures parent.Some? && parent.value in st.stores ==>
      forall k :: LastWrite(attrs, k).None? && k in st.stores[parent.value] ==>
        NewSpan(st, id, parent, attrs).stores[id][k] == st.stores[parent.value][k]
    ensures forall k :: LastWrite(attrs, k).Some? ==>
      NewSpan(st, id, parent, attrs).stores[id][k] == ToValue(LastWrite(attrs, k).value)
    ensures parent.None? || parent.value !in st.stores ==>
      NewSpan(st, id, parent, attrs).stores[id] == Written(attrs)
  {
  }

  /** Creating a span changes no other span's storage and no start time. */
  lemma NewSpanFrame(st: State, id: SpanId, parent: Option<SpanId>, attrs: seq<Field>)
    ensures var st' := NewSpan(st, id, parent, attrs);
      && st'.stores.Keys == st.stores.Keys + {id}
      && (forall s :: s in st.stores && s != id ==> st'.stores[s] == st.stores[s])
      && st'.start == st.start
  {
  }

  /**
   With no current span nothing changes; otherwise only the current span's
   storage changes, by merging in the event's fields.
   */
  lemma EventRouting(st: State, current: Option<SpanId>, fs: seq<Field>)
    requires current.Some? ==> current.value in st.stores
    ensures current.None? ==> Event(st, current, fs) == st
    ensures current.Some? ==>
      && Event(st, current, fs).stores.Keys == st.stores.Keys
      && Event(st, current, fs).stores[current.value] == Merge(st.stores[current.value], fs)
      && (forall s :: s in st.stores && s != current.value ==> Event(st, current, fs).stores[s] == st.stores[s])
    ensures Event(st, current, fs).start == st.start
  {
  }

  /** `on_record` merges into exactly the named span. */
  lemma RecordFrame(st: State, id: SpanId, fs: seq<Field>)
    requires id in st.stores
    ensures RecordValues(st, id, fs).stores.Keys == st.stores.Keys
    ensures RecordValues(st, id, fs).stores[id] == st.stores[id] + Written(fs)
    ensures forall s :: s in st.stores && s != id ==> RecordValues(st, id, fs).stores[s] == st.stores[s]
    ensures RecordValues(st, id, fs).start == st.start
  {
  }

  /** Entering again keeps the first start time: `on_enter` is idempotent. */
  lemma EnterKeepsFirstStart(st: State, id: SpanId, t1: nat, t2: nat)
    ensures Enter(Enter(st, id, t1), id, t2) == Enter(st, id, t1)
    ensures id !in st.start ==> Enter(st, id, t1).start[id] == t1
    ensures id in st.start ==> Enter(st, id, t1).start[id] == st.start[id]
    ensures Enter(st, id, t1).stores == st.stores
  {
  }

  /**
   Closing writes the duration under `"elapsed_time"` (0 for a span never
   entered), overwriting a user field of that name; every other key of the
   span and every other span is unchanged.
   */
  lemma CloseWritesElapsed(st: State, id: SpanId, now: nat)
    requires id in st.stores && ElapsedFits(st.start, id, now)
    ensures var r := Close(st, id, now).stores[id];
      && r.Keys == st.stores[id].Keys + {ElapsedKey}
      && r[ElapsedKey] == Int(ElapsedMs(StartOf(st.start, id), now))
      && (forall k :: k in st.stores[id] && k != ElapsedKey ==> r[k] == st.stores[id][k])
    ensures id !in st.start ==> Close(st, id, now).stores[id][ElapsedKey] == Int(0)
    ensures forall s :: s in st.stores && s != id ==> Close(st, id, now).stores[s] == st.stores[s]
    ensures Close(st, id, now).stores.Keys == st.stores.Keys
    ensures Close(st, id, now).start == st.start
  {
  }

  /**
   The duration read at close never decreases as the clock advances, and a
   span entered at `t` and closed `d` milliseconds later reads exactly `d`.
   */
  lemma ElapsedMonotone(start: Option<nat>, t1: nat, t2: nat)
    requires t1 <= t2
    ensures ElapsedMs(start, t1) <= ElapsedMs(start, t2)
    ensures start.Some? && start.value <= t1 ==> ElapsedMs(start, t2) - ElapsedMs(start, t1) == t2 - t1
    ensures ElapsedMs(start, t1) <= t1
  {
  }

  /**
   Snapshot isolation: hooks that do not target span `c` leave its storage
   alone, whatever they do to its parent or to any other span. In particular
   a child's storage never sees what is recorded on its parent after the child
   was created.
   */
  lemma {:induction false} UntargetedStoreUnchanged(st: State, hs: seq<Hook>, c: SpanId)
    requires c in st.stores
    requires forall i :: 0 <= i < |hs| ==> !Targets(hs[i], c)
    requires Run(st, hs).Some?
    ensures c in Run(st, hs).value.state.stores
    ensures Run(st, hs).value.state.stores[c] == st.stores[c]
    decreases |hs|
  {
    if hs != [] {
      var st' := Apply(st, hs[0]);
      assert !Targets(hs[0], c);
      assert c in st'.stores && st'.stores[c] == st.stores[c];
      forall i | 0 <= i < |hs[1..]| ensures !Targets(hs[1..][i], c) {
        assert hs[1..][i] == hs[i + 1];
      }
      UntargetedStoreUnchanged(st', hs[1..], c);
    }
  }

  /** Once a span has a start time, no run of hooks changes or removes it. */
  lemma {:induction false} StartNeverReset(st: State, hs: seq<Hook>, c: SpanId)
    requires c in st.start
    requires Run(st, hs).Some?
    ensures c in Run(st, hs).value.state.start
    ensures Run(st, hs).value.state.start[c] == st.start[c]
    decreases |hs|
  {
    if hs != [] {
      StartNeverReset(Apply(st, hs[0]), hs[1..], c);
    }
  }

  /** Creating a child changes nothing in its parent's storage. */
  lemma CreationLeavesParent(st: State, child: SpanId, p: SpanId, attrs: seq<Field>)
    requires Completes(st, OnNewSpan(child, Some(p), attrs)) && p in st.stores
    ensures NewSpan(st, child, Some(p), attrs).stores[p] == st.stores[p]
  {
  }

  const OuterId: SpanId := 1
  const InnerId: SpanId := 2

  /**
   The hooks of the end-to-end scenario: span "outer" with `level = 0` (its
   `other_field` is declared empty, so the host visits no value for it) is
   created and entered at `t0`; "inner" with `level = 1` is created under it
   and entered at `t1`; `other_field = 7` is recorded on "outer"; an event
   with three fields is emitted while "inner" is current; "inner" is closed
   at `t2`, then "outer" at `t3`.
   */
  function Scenario(t0: nat, t1: nat, t2: nat, t3: nat): seq<Hook> {
    ScenarioSetup(t0, t1) + ScenarioFinish(t2, t3)
  }

  function ScenarioSetup(t0: nat, t1: nat): seq<Hook> {
    [ OnNewSpan(OuterId, None, [Field("level", I64Arg(0))]),
      OnEnter(OuterId, t0),
      OnNewSpan(InnerId, Some(OuterId), [Field("level", I64Arg(1))]),
      OnEnter(InnerId, t1),
      OnRecord(OuterId, [Field("other_field", I64Arg(7))]) ]
  }

  function ScenarioFinish(t2: nat, t3: nat): seq<Hook> {
    [ OnEvent(Some(InnerId), [Field("a_bool", BoolArg(true)), Field("answer", I64Arg(42)),
                              Field("message", StrArg("first example"))]),
      OnClose(InnerId, t2),
      OnClose(OuterId, t3) ]
  }

  /**
   The scenario prints two records: "inner" holds its own `level`, the
   event's fields and its duration, and never sees `other_field`; "outer"
   holds its `level`, `other_field` and a duration of at least the 50 ms slept
   before "inner" was entered.
   */
  lemma ScenarioRecords(t0: nat, t1: nat, t2: nat, t3: nat)
    requires t0 + 50 <= t1 <= t2 <= t3 < U64Limit
    ensures Run(Initial, Scenario(t0, t1, t2, t3)).Some?
    ensures var recs := Run(Initial, Scenario(t0, t1, t2, t3)).value.records;
      && |recs| == 2
      && recs[0] == map["level" := Int(1), "a_bool" := Bool(true), "answer" := Int(42),
                        "message" := Str("first example"), ElapsedKey := Int(t2 - t1)]
      && recs[1] == map["level" := Int(0), "other_field" := Int(7), ElapsedKey := Int(t3 - t0)]
      && "other_field" !in recs[0]
      && recs[1][ElapsedKey].n >= 50
  {
    ScenarioSetupRun(t0, t1);
    ScenarioFinishRun(t0, t1, t2, t3);
    RunAppend(Initial, ScenarioSetup(t0, t1), ScenarioFinish(t2, t3));
  }

  const Outer1: FieldMap := map["level" := Int(0)]
  const Outer2: FieldMap := map["level" := Int(0), "other_field" := Int(7)]
  const Inner1: FieldMap := map["level" := Int(1)]
  const Inner2: FieldMap :=
    map["level" := Int(1), "a_bool" := Bool(true), "answer" := Int(42), "message" := Str("first example")]

  lemma ScenarioSetupRun(t0: nat, t1: nat)
    ensures Run(Initial, ScenarioSetup(t0, t1))
      == Some(Trace(State(map[OuterId := Outer2, InnerId := Inner1], map[OuterId := t0, InnerId := t1]), []))
  {
    var hs := ScenarioSetup(t0, t1);
    CreateOuter();
    CreateInner(t0);
    EnterInner(t0, t1);
    RecordOtherField(t0, t1);
    RunFive(Initial, hs[0], State(map[OuterId := Outer1], map[]),
            hs[1], State(map[OuterId := Outer1], map[OuterId := t0]),
            hs[2], State(map[OuterId := Outer1, InnerId := Inner1], map[OuterId := t0]),
            hs[3], State(map[OuterId := Outer1, InnerId := Inner1], map[OuterId := t0, InnerId := t1]),
            hs[4], State(map[OuterId := Outer2, InnerId := Inner1], map[OuterId := t0, InnerId := t1]));
  }

  // One lemma per step of the scenario, named after its hook; entering "outer"
  // needs no lemma of its own.

  lemma CreateOuter()
    ensures Apply(Initial, OnNewSpan(OuterId, None, [Field("level", I64Arg(0))]))
      == State(map[OuterId := Outer1], map[])
  {
  }

  lemma CreateInner(t0: nat)
    ensures Apply(State(map[OuterId := Outer1], map[OuterId := t0]),
                  OnNewSpan(InnerId, Some(OuterId), [Field("level", I64Arg(1))]))
      == State(map[OuterId := Outer1, InnerId := Inner1], map[OuterId := t0])
  {
    MergeSnoc(Outer1, [], Field("level", I64Arg(1)));
    assert [] + [Field("level", I64Arg(1))] == [Field("level", I64Arg(1))];
    assert Outer1["level" := Int(1)] == Inner1;
  }

  lemma EnterInner(t0: nat, t1: nat)
    ensures Apply(State(map[OuterId := Outer1, InnerId := Inner1], map[OuterId := t0]), OnEnter(InnerId, t1))
      == State(map[OuterId := Outer1, InnerId := Inner1], map[OuterId := t0, InnerId := t1])
  {
  }

  lemma RecordOtherField(t0: nat, t1: nat)
    ensures Apply(State(map[OuterId := Outer1, InnerId := Inner1], map[OuterId := t0, InnerId := t1]),
                  OnRecord(OuterId, [Field("other_field", I64Arg(7))]))
      == State(map[OuterId := Outer2, InnerId := Inner1], map[OuterId := t0, InnerId := t1])
  {
  }

  lemma ScenarioFinishRun(t0: nat, t1: nat, t2: nat, t3: nat)
    requires t0 <= t1 <= t2 <= t3 < U64Limit
    ensures var start := map[OuterId := t0, InnerId := t1];
      var inner := Inner2[ElapsedKey := Int(t2 - t1)];
      var outer := Outer2[ElapsedKey := Int(t3 - t0)];
      Run(State(map[OuterId := Outer2, InnerId := Inner1], start), ScenarioFinish(t2, t3))
      == Some(Trace(State(map[OuterId := outer, InnerId := inner], start), [inner, outer]))
  {
    var hs := ScenarioFinish(t2, t3);
    var inner3 := Inner2[ElapsedKey := Int(t2 - t1)];
    var outer3 := Outer2[ElapsedKey := Int(t3 - t0)];
    var start := map[OuterId := t0, InnerId := t1];
    EventOnInner(t0, t1);
    CloseInner(t0, t1, t2);
    CloseOuter(t0, t1, t2, t3);
    RunThree(State(map[OuterId := Outer2, InnerId := Inner1], start),
             hs[0], State(map[OuterId := Outer2, InnerId := Inner2], start),
             hs[1], State(map[OuterId := Outer2, InnerId := inner3], start),
             hs[2], State(map[OuterId := outer3, InnerId := inner3], start));
    assert [] + [inner3] + [outer3] == [inner3, outer3];
  }

  lemma EventOnInner(t0: nat, t1: nat)
    ensures Apply(State(map[OuterId := Outer2, InnerId := Inner1], map[OuterId := t0, InnerId := t1]),
                  OnEvent(Some(InnerId), [Field("a_bool", BoolArg(true)), Field("answer", I64Arg(42)),
                                          Field("message", StrArg("first example"))]))
      == State(map[OuterId := Outer2, InnerId := Inner2], map[OuterId := t0, InnerId := t1])
  {
  }

  lemma CloseInner(t0: nat, t1: nat, t2: nat)
    requires t1 <= t2 < U64Limit
    ensures var start := map[OuterId := t0, InnerId := t1];
      && Completes(State(map[OuterId := Outer2, InnerId := Inner2], start), OnClose(InnerId, t2))
      && Apply(State(map[OuterId := Outer2, InnerId := Inner2], start), OnClose(InnerId, t2))
         == State(map[OuterId := Outer2, InnerId := Inner2[ElapsedKey := Int(t2 - t1)]], start)
      && Emitted(State(map[OuterId := Outer2, InnerId := Inner2], start), OnClose(InnerId, t2))
         == [Inner2[ElapsedKey := Int(t2 - t1)]]
  {
  }

  lemma CloseOuter(t0: nat, t1: nat, t2: nat, t3: nat)
    requires t0 <= t3 < U64Limit && t1 <= t2 < U64Limit
    ensures var start := map[OuterId := t0, InnerId := t1];
      var inner3 := Inner2[ElapsedKey := Int(t2 - t1)];
      && Completes(State(map[OuterId := Outer2, InnerId := inner3], start), OnClose(OuterId, t3))
      && Apply(State(map[OuterId := Outer2, InnerId := inner3], start), OnClose(OuterId, t3))
         == State(map[OuterId := Outer2[ElapsedKey := Int(t3 - t0)], InnerId := inner3], start)
      && Emitted(State(map[OuterId := Outer2, InnerId := inner3], start), OnClose(OuterId, t3))
         == [Outer2[ElapsedKey := Int(t3 - t0)]]
  {
  }

  /** Three hooks that each complete, run one after the other. */
  lemma RunThree(s0: State, h0: Hook, s1: State, h1: Hook, s2: State, h2: Hook, s3: State)
    requires Completes(s0, h0) && Apply(s0, h0) == s1
    requires Completes(s1, h1) && Apply(s1, h1) == s2
    requires Completes(s2, h2) && Apply(s2, h2) == s3
    ensures Run(s0, [h0, h1, h2]) == Some(Trace(s3, Emitted(s0, h0) + Emitted(s1, h1) + Emitted(s2, h2)))
  {
    RunCons(s2, h2, [], Trace(s3, []));
    assert [h2] + [] == [h2];
    RunCons(s1, h1, [h2], Trace(s3, Emitted(s2, h2) + []));
    assert [h1] + [h2] == [h1, h2];
    RunCons(s0, h0, [h1, h2], Trace(s3, Emitted(s1, h1) + (Emitted(s2, h2) + [])));
    assert [h0] + [h1, h2] == [h0, h1, h2];
    assert Emitted(s0, h0) + (Emitted(s1, h1) + (Emitted(s2, h2) + []))
        == Emitted(s0, h0) + Emitted(s1, h1) + Emitted(s2, h2);
  }

  /** Five hooks that complete and print nothing, run one after the other. */
  lemma RunFive(s0: State, h0: Hook, s1: State, h1: Hook, s2: State, h2: Hook, s3: State,
                h3: Hook, s4: State, h4: Hook, s5: State)
    requires Completes(s0, h0) && Apply(s0, h0) == s1 && !h0.OnClose?
    requires Completes(s1, h1) && Apply(s1, h1) == s2 && !h1.OnClose?
    requires Completes(s2, h2) && Apply(s2, h2) == s3 && !h2.OnClose?
    requires Completes(s3, h3) && Apply(s3, h3) == s4 && !h3.OnClose?
    requires Completes(s4, h4) && Apply(s4, h4) == s5 && !h4.OnClose?
    ensures Run(s0, [h0, h1, h2, h3, h4]) == Some(Trace(s5, []))
  {
    RunThree(s2, h2, s3, h3, s4, h4, s5);
    var t := Trace(s5, []);
    assert Emitted(s2, h2) + Emitted(s3, h3) + Emitted(s4, h4) == [];
    RunCons(s1, h1, [h2, h3, h4], t);
    assert [h1] + [h2, h3, h4] == [h1, h2, h3, h4];
    RunCons(s0, h0, [h1, h2, h3, h4], t);
    assert [h0] + [h1, h2, h3, h4] == [h0, h1, h2, h3, h4];
  }

  /** One step of `Run`, unfolded. */
  lemma RunCons(st: State, h: Hook, rest: seq<Hook>, t: Trace)
    requires Completes(st, h)
    requires Run(Apply(st, h), rest) == Some(t)
    ensures Run(st, [h] + rest) == Some(Trace(t.state, Emitted(st, h) + t.records))
    ensures !h.OnClose? ==> Run(st, [h] + rest) == Some(t)
  {
    assert ([h] + rest)[1..] == rest;
    assert [] + t.records == t.records;
  }
}
