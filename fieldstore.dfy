/**
 Field values of the layer and the meaning of showing a set of fields to the
 `EventStorage` visitor: each field is inserted under its name, overwriting any
 earlier entry with that name, in the order the host visits them.
 */
module FieldStore {

  datatype Option<+T> = None | Some(value: T)

  /** `u64::MAX + 1`. */
  const U64Limit: int := 0x1_0000_0000_0000_0000

  /** Rust's `i64` and `u64`. */
  type I64 = x: int | -0x8000_0000_0000_0000 <= x < 0x8000_0000_0000_0000
  type U64 = x: int | 0 <= x < U64Limit

  /** The integers a JSON number built from an `i64` or a `u64` can hold. */
  type JsonInt = x: int | -0x8000_0000_0000_0000 <= x < U64Limit

  /**
   A stored value: the JSON value that serde_json builds from the recorded one.
   An `i64` and a `u64` with the same value give the same JSON number; a float
   is kept as its IEEE 754 bit pattern and is not interpreted.
   */
  datatype Value =
    | Null
    | Bool(b: bool)
    | Int(n: JsonInt)
    | Float(bits: bv64)
    | Str(s: string)

  /**
   The argument of one visitor callback, by callback: `record_debug` receives
   the value's debug rendering, the others a primitive value.
   */
  datatype Recorded =
    | DebugArg(rendering: string)
    | F64Arg(bits: bv64)
    | I64Arg(i: I64)
    | U64Arg(u: U64)
    | BoolArg(b: bool)
    | StrArg(s: string)

  /** One field as the host hands it to the visitor: its name and its value. */
  datatype Field = Field(name: string, arg: Recorded)

  type FieldMap = map<string, Value>

  /** A double is finite unless its eleven exponent bits are all set (infinity or NaN). */
  predicate IsFinite(bits: bv64) {
    (bits >> 52) & 0x7FF != 0x7FF
  }

  /**
   The JSON value a callback stores. serde_json turns a non-finite float into
   `null`; every other argument keeps its content.
   */
  function ToValue(a: Recorded): Value {
    match a
    case DebugArg(r) => Str(r)
    case F64Arg(bits) => if IsFinite(bits) then Float(bits) else Null
    case I64Arg(i) => Int(i)
    case U64Arg(u) => Int(u)
    case BoolArg(b) => Bool(b)
    case StrArg(s) => Str(s)
  }

  /** The argument of the last field named `k` in `fs`, if there is one. */
  function LastWrite(fs: seq<Field>, k: string): Option<Recorded>
    decreases |fs|
  {
    if fs == [] then None
    else if LastWrite(fs[1..], k).Some? then LastWrite(fs[1..], k)
    else if fs[0].name == k then Some(fs[0].arg)
    else None
  }

  /** `i` is the position of the last field named `k` in `fs`. */
  ghost predicate IsLastWrite(fs: seq<Field>, k: string, i: int) {
    0 <= i < |fs| && fs[i].name == k && forall j :: i < j < |fs| ==> fs[j].name != k
  }

  /**
   The storage `m` after the visitor has been shown the fields `fs`, one after
   the other: every name of `fs` ends up holding the value of its last
   occurrence, and every other entry of `m` is kept.
   */
  function Merge(m: FieldMap, fs: seq<Field>): (r: FieldMap)
    ensures forall k :: k in r <==> k in m || LastWrite(fs, k).Some?
    ensures forall k :: k in r ==>
      r[k] == if LastWrite(fs, k).Some? then ToValue(LastWrite(fs, k).value) else m[k]
    decreases |fs|
  {
    if fs == [] then m else Merge(m[fs[0].name := ToValue(fs[0].arg)], fs[1..])
  }

  /** `LastWrite` finds exactly the last occurrence of a name. */
  lemma {:induction false} LastWriteIsLast(fs: seq<Field>, k: string)
    ensures LastWrite(fs, k).None? <==> forall j :: 0 <= j < |fs| ==> fs[j].name != k
    ensures LastWrite(fs, k).Some? ==>
      exists i :: IsLastWrite(fs, k, i) && fs[i].arg == LastWrite(fs, k).value
    decreases |fs|
  {
    if fs != [] {
      LastWriteIsLast(fs[1..], k);
      if LastWrite(fs[1..], k).Some? {
        var i :| IsLastWrite(fs[1..], k, i) && fs[1..][i].arg == LastWrite(fs[1..], k).value;
        assert IsLastWrite(fs, k, i + 1);
      } else if fs[0].name == k {
        assert IsLastWrite(fs, k, 0);
      } else {
        forall j | 0 <= j < |fs| ensures fs[j].name != k {
          if j > 0 { assert fs[j] == fs[1..][j - 1]; }
        }
      }
    }
  }

  /** Appending one field: the new field is the last write of its name. */
  lemma {:induction false} LastWriteSnoc(fs: seq<Field>, f: Field, k: string)
    ensures LastWrite(fs + [f], k) == if f.name == k then Some(f.arg) else LastWrite(fs, k)
    decreases |fs|
  {
    if fs == [] {
      assert (fs + [f])[1..] == [];
    } else {
      assert (fs + [f])[1..] == fs[1..] + [f];
      LastWriteSnoc(fs[1..], f, k);
    }
  }

  /** Visiting one more field is one more overwriting insert. */
  lemma MergeSnoc(m: FieldMap, fs: seq<Field>, f: Field)
    ensures Merge(m, fs + [f]) == Merge(m, fs)[f.name := ToValue(f.arg)]
  {
    forall k ensures LastWrite(fs + [f], k) == if f.name == k then Some(f.arg) else LastWrite(fs, k) {
      LastWriteSnoc(fs, f, k);
    }
  }

  /** Visiting `fs` and then `gs` is visiting their concatenation. */
  lemma {:induction false} MergeAppend(m: FieldMap, fs: seq<Field>, gs: seq<Field>)
    ensures Merge(Merge(m, fs), gs) == Merge(m, fs + gs)
    decreases |fs|
  {
    if fs == [] {
      assert fs + gs == gs;
    } else {
      assert (fs + gs)[1..] == fs[1..] + gs;
      MergeAppend(m[fs[0].name := ToValue(fs[0].arg)], fs[1..], gs);
    }
  }

  /** The fields written by `fs` alone, as a map of their own. */
  function Written(fs: seq<Field>): (w: FieldMap)
    ensures forall k :: k in w <==> LastWrite(fs, k).Some?
  {
    Merge(map[], fs)
  }

  /** Merging `fs` into `m` is `m` overridden by what `fs` writes: later writes win. */
  lemma MergeIsOverride(m: FieldMap, fs: seq<Field>)
    ensures Merge(m, fs) == m + Written(fs)
  {
  }

  /**
   No callback ever removes an entry: every key of `m` is still there after
   visiting `fs`, so the number of keys never decreases.
   */
  lemma MergeKeepsKeys(m: FieldMap, fs: seq<Field>)
    ensures m.Keys <= Merge(m, fs).Keys
    ensures |m| <= |Merge(m, fs)|
  {
    CardinalityOfSubset(m.Keys, Merge(m, fs).Keys);
  }

  lemma {:induction false} CardinalityOfSubset<T>(a: set<T>, b: set<T>)
    requires a <= b
    ensures |a| <= |b|
    decreases |a|
  {
    if a != {} {
      var x :| x in a;
      CardinalityOfSubset(a - {x}, b - {x});
    }
  }

  /**
   A `record_debug` callback is never dropped: its name maps to the string
   rendering afterwards, every other entry is unchanged, and the number of keys
   does not decrease.
   */
  lemma DebugFallbackKept(m: FieldMap, name: string, rendering: string)
    ensures var r := Merge(m, [Field(name, DebugArg(rendering))]);
      && name in r && r[name] == Str(rendering)
      && (forall k :: k != name ==> (k in r <==> k in m))
      && (forall k :: k != name && k in m ==> r[k] == m[k])
      && |m| <= |r|
  {
  }
}
