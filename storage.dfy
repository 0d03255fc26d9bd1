/**
 `EventStorage`: the map from field name to value that the layer keeps for one
 span, and its visitor callbacks, each of which inserts one entry in place.
 */
module Storage {
  import opened FieldStore

  class EventStorage {
    var fields: FieldMap

    /** `EventStorage::new` and `EventStorage::default`: an empty map. */
    constructor ()
      ensures fields == map[]
    {
      fields := map[];
    }

    /** `events`: the stored map. */
    function Events(): FieldMap
      reads this
    {
      fields
    }

    /** `to_owned`: a detached copy with the same contents. */
    method Clone() returns (c: EventStorage)
      ensures fresh(c) && c.fields == fields
    {
      c := new EventStorage();
      c.fields := fields;
    }

    /** `record_debug` stores the debug rendering as a string. */
    method RecordDebug(name: string, rendering: string)
      modifies this
      ensures fields == old(fields)[name := Str(rendering)]
    {
      fields := fields[name := Str(rendering)];
    }

    /** `record_f64` stores the number, or `null` when it is not finite. */
    method RecordF64(name: string, bits: bv64)
      modifies this
      ensures fields == old(fields)[name := if IsFinite(bits) then Float(bits) else Null]
    {
      if IsFinite(bits) {
        fields := fields[name := Float(bits)];
      } else {
        fields := fields[name := Null];
      }
    }

    method RecordI64(name: string, value: I64)
      modifies this
      ensures fields == old(fields)[name := Int(value)]
    {
      fields := fields[name := Int(value)];
    }

    method RecordU64(name: string, value: U64)
      modifies this
      ensures fields == old(fields)[name := Int(value)]
    {
      fields := fields[name := Int(value)];
    }

    method RecordBool(name: string, value: bool)
      modifies this
      ensures fields == old(fields)[name := Bool(value)]
    {
      fields := fields[name := Bool(value)];
    }

    method RecordStr(name: string, value: string)
      modifies this
      ensures fields == old(fields)[name := Str(value)]
    {
      fields := fields[name := Str(value)];
    }

    /** One callback, chosen by the kind of the field's value. */
    method Record(f: Field)
      modifies this
      ensures fields == old(fields)[f.name := ToValue(f.arg)]
    {
      match f.arg
      case DebugArg(r) => RecordDebug(f.name, r);
      case F64Arg(bits) => RecordF64(f.name, bits);
      case I64Arg(i) => RecordI64(f.name, i);
      case U64Arg(u) => RecordU64(f.name, u);
      case BoolArg(b) => RecordBool(f.name, b);
      case StrArg(s) => RecordStr(f.name, s);
    }

    /** `attrs.record(visitor)`: one callback per field, in the order given. */
    method RecordAll(fs: seq<Field>)
      modifies this
      ensures fields == Merge(old(fields), fs)
    {
      var i := 0;
      while i < |fs|
        invariant 0 <= i <= |fs|
        invariant fields == Merge(old(fields), fs[..i])
      {
        MergeSnoc(old(fields), fs[..i], fs[i]);
        assert fs[..i + 1] == fs[..i] + [fs[i]];
        Record(fs[i]);
        i := i + 1;
      }
      assert fs[..i] == fs;
    }
  }
}
