/**
 `SplunkHecLayer`: the lifecycle hooks acting on the per-span extension state.
 The host's registry is represented by two maps: the `EventStorage` object in
 each span's extensions and each span's start time. What the host resolves
 (the parent of a new span, the current span, the clock) arrives as arguments.
 */
module HecLayer {
  import opened FieldStore
  import opened Storage
  import opened Lifecycle

  class SplunkHecLayer {
    /** The `EventStorage` in each span's extensions. */
    var storage: map<SpanId, EventStorage>
    /** The `Instant` in each span's extensions, in milliseconds. */
    var start: map<SpanId, nat>

    /** No two spans share one storage object: each holds its own copy. */
    ghost predicate Valid()
      reads this
    {
      forall s, t :: s in storage && t in storage && s != t ==> storage[s] != storage[t]
    }

    ghost function Stores(): map<SpanId, FieldMap>
      reads this, storage.Values
    {
      map s | s in storage :: storage[s].fields
    }

    /** The abstract state the hooks are specified on. */
    ghost function Model(): State
      reads this, storage.Values
    {
      State(Stores(), start)
    }

    constructor ()
      ensures Valid() && Model() == Initial
      ensures storage == map[] && start == map[]
    {
      storage := map[];
      start := map[];
    }

    /**
     `on_new_span`: copies the parent's storage (or starts empty), visits the
     creation attributes and stores the result in the new span's extensions,
     which must not hold a storage yet.
     */
    method OnNewSpan(id: SpanId, parent: Option<SpanId>, attrs: seq<Field>)
      requires Valid()
      requires id !in storage && id !in start
      modifies this
      ensures Valid()
      ensures id in storage && fresh(storage[id])
      ensures storage == old(storage)[id := storage[id]] && start == old(start)
      ensures Model() == NewSpan(old(Model()), id, parent, attrs)
    {
      var visitor: EventStorage;
      if parent.Some? && parent.value in storage {
        visitor := storage[parent.value].Clone();
      } else {
        visitor := new EventStorage();
      }
      assert visitor.fields == Inherited(Stores(), parent);
      ghost var before := Stores();
      visitor.RecordAll(attrs);
      assert Stores() == before;
      Attach(id, visitor);
    }

    /** Stores `visitor` as the storage of the new span `id`. */
    method Attach(id: SpanId, visitor: EventStorage)
      requires Valid() && id !in storage && visitor !in storage.Values
      modifies this`storage
      ensures Valid() && storage == old(storage)[id := visitor]
      ensures Stores() == old(Stores())[id := visitor.fields]
    {
      storage := storage[id := visitor];
      assert Stores().Keys == old(Stores()).Keys + {id};
    }

    /**
     `on_event`: the event's fields go into the storage of the current span;
     with no current span nothing changes.
     */
    method OnEvent(current: Option<SpanId>, fs: seq<Field>)
      requires Valid()
      requires current.Some? ==> current.value in storage
      modifies set s | s in storage && current == Some(s) :: storage[s]
      ensures Valid()
      ensures Model() == Event(old(Model()), current, fs)
    {
      if current.Some? {
        var visitor := storage[current.value];
        visitor.RecordAll(fs);
        forall s | s in Stores() ensures Stores()[s] == old(Stores())[current.value := visitor.fields][s] {
        }
      }
    }

    /** `on_record`: the updated fields go into the named span's storage. */
    method OnRecord(id: SpanId, fs: seq<Field>)
      requires Valid()
      requires id in storage
      modifies storage[id]
      ensures Valid()
      ensures Model() == RecordValues(old(Model()), id, fs)
    {
      var visitor := storage[id];
      visitor.RecordAll(fs);
      forall s | s in Stores() ensures Stores()[s] == old(Stores())[id := visitor.fields][s] {
      }
    }

    /** `on_enter`: takes the start time only if the span has none yet. */
    method OnEnter(id: SpanId, now: nat)
      requires Valid()
      modifies this`start
      ensures Valid()
      ensures Model() == Enter(old(Model()), id, now)
    {
      if id !in start {
        start := start[id := now];
      }
    }

    /**
     `on_close`: writes the elapsed milliseconds (0 if never entered) under
     `"elapsed_time"` and returns the finalized storage, which the source prints.
     */
    method OnClose(id: SpanId, now: nat) returns (record: FieldMap)
      requires Valid()
      requires id in storage && ElapsedFits(start, id, now)
      modifies storage[id]
      ensures Valid()
      ensures Model() == Close(old(Model()), id, now)
      ensures record == Model().stores[id]
    {
      var elapsed := ElapsedMs(StartOf(start, id), now);
      var fields := storage[id];
      fields.fields := fields.fields[ElapsedKey := Int(elapsed)];
      record := fields.Events();
      assert Stores() == old(Stores())[id := old(Stores())[id][ElapsedKey := Int(elapsed)]];
    }

  }

  /**
   The hooks of the integration test, driven on one layer object: the two
   records it returns at close are the ones `ScenarioRecords` describes.
   */
  method ReplayScenario(t0: nat, t1: nat, t2: nat, t3: nat) returns (inner: FieldMap, outer: FieldMap)
    requires t0 + 50 <= t1 <= t2 <= t3 < U64Limit
    ensures inner == map["level" := Int(1), "a_bool" := Bool(true), "answer" := Int(42),
                         "message" := Str("first example"), ElapsedKey := Int(t2 - t1)]
    ensures outer == map["level" := Int(0), "other_field" := Int(7), ElapsedKey := Int(t3 - t0)]
  {
    var layer := new SplunkHecLayer();
    layer.OnNewSpan(OuterId, None, [Field("level", I64Arg(0))]);
    CreateOuter();
    layer.OnEnter(OuterId, t0);
    layer.OnNewSpan(InnerId, Some(OuterId), [Field("level", I64Arg(1))]);
    CreateInner(t0);
    layer.OnEnter(InnerId, t1);
    layer.OnRecord(OuterId, [Field("other_field", I64Arg(7))]);
    RecordOtherField(t0, t1);
    layer.OnEvent(Some(InnerId), [Field("a_bool", BoolArg(true)), Field("answer", I64Arg(42)),
                                  Field("message", StrArg("first example"))]);
    EventOnInner(t0, t1);
    CloseInner(t0, t1, t2);
    inner := layer.OnClose(InnerId, t2);
    CloseOuter(t0, t1, t2, t3);
    outer := layer.OnClose(OuterId, t3);
  }
}
