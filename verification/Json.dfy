/** The values json-c stores, the comparison json_object_equal makes and the
    in-place update json_object_object_add makes.  A C `char` is a Dafny `char`
    below 256; a NULL json_object is `Null`.  Doubles are not modelled. */
module Json {

  const NUL := '\0'
  const INT64_MIN: int := -0x8000_0000_0000_0000
  const INT64_MAX: int := 0x7FFF_FFFF_FFFF_FFFF
  const UINT64_MAX: int := 0xFFFF_FFFF_FFFF_FFFF

  datatype Json =
    | Null
    | Bool(b: bool)
    | Int64(i: int)
    | UInt64(u: int)
    | Str(s: string)
    | Arr(items: seq<Json>)
    | Obj(fields: seq<Field>)

  datatype Field = Field(key: string, value: Json)

  predicate IsByteString(s: string) {
    forall i :: 0 <= i < |s| ==> s[i] as int < 256
  }

  /** Position of a key in an insertion-ordered object, or -1. */
  function IndexOf(fields: seq<Field>, k: string): (r: int)
    ensures -1 <= r < |fields|
    ensures r >= 0 ==> fields[r].key == k && forall j :: 0 <= j < r ==> fields[j].key != k
    ensures r < 0 ==> forall j :: 0 <= j < |fields| ==> fields[j].key != k
  {
    if fields == [] then -1
    else if fields[0].key == k then 0
    else
      var r := IndexOf(fields[1..], k);
      if r < 0 then -1 else r + 1
  }

  /** json_object_object_add: an existing key keeps its position, a new key goes last. */
  function ObjectPut(fields: seq<Field>, k: string, v: Json): seq<Field> {
    var i := IndexOf(fields, k);
    if i >= 0 then fields[i := Field(k, v)] else fields + [Field(k, v)]
  }

  ghost predicate DistinctKeys(fields: seq<Field>) {
    forall i, j :: 0 <= i < j < |fields| ==> fields[i].key != fields[j].key
  }

  /** What the public constructors can build: 64-bit integers, byte strings,
      C-string keys (no NUL inside) and one entry a key. */
  ghost predicate WellFormed(v: Json) {
    match v
    case Null => true
    case Bool(_) => true
    case Int64(i) => INT64_MIN <= i <= INT64_MAX
    case UInt64(u) => 0 <= u <= UINT64_MAX
    case Str(s) => IsByteString(s)
    case Arr(items) => forall k :: 0 <= k < |items| ==> WellFormed(items[k])
    case Obj(fields) =>
      && DistinctKeys(fields)
      && forall k :: 0 <= k < |fields| ==>
           IsByteString(fields[k].key) && NUL !in fields[k].key && WellFormed(fields[k].value)
  }

  /** Nesting: the number of tokener stack levels a value needs. */
  function Height(v: Json): (h: nat)
    ensures h >= 1
  {
    match v
    case Arr(items) => 1 + MaxHeight(items)
    case Obj(fields) => 1 + MaxFieldHeight(fields)
    case _ => 1
  }

  function MaxHeight(items: seq<Json>): (h: nat)
    ensures forall k :: 0 <= k < |items| ==> Height(items[k]) <= h
  {
    if items == [] then 0
    else
      var a, b := Height(items[0]), MaxHeight(items[1..]);
      if a > b then a else b
  }

  function MaxFieldHeight(fields: seq<Field>): (h: nat)
    ensures forall k :: 0 <= k < |fields| ==> Height(fields[k].value) <= h
  {
    if fields == [] then 0
    else
      var a, b := Height(fields[0].value), MaxFieldHeight(fields[1..]);
      if a > b then a else b
  }

  // ---- json_object_equal -------------------------------------------------

  predicate Equal(a: Json, b: Json)
    decreases a
  {
    match a
    case Null => b.Null?
    case Bool(x) => b.Bool? && x == b.b
    case Int64(x) =>
      (b.Int64? && x == b.i) || (b.UInt64? && x >= 0 && x == b.u)
    case UInt64(x) =>
      (b.UInt64? && x == b.u) || (b.Int64? && b.i >= 0 && x == b.i)
    case Str(x) => b.Str? && x == b.s
    case Arr(xs) =>
      && b.Arr?
      && |xs| == |b.items|
      && forall k :: 0 <= k < |xs| ==> Equal(xs[k], b.items[k])
    case Obj(xs) =>
      && b.Obj?
      && (forall k :: 0 <= k < |xs| ==>
            var j := IndexOf(b.fields, xs[k].key);
            j >= 0 && Equal(xs[k].value, b.fields[j].value))
      && (forall k :: 0 <= k < |b.fields| ==> IndexOf(xs, b.fields[k].key) >= 0)
  }

  /** The value the tokener rebuilds: a uint64 that fits an int64 comes back as one. */
  function Reparsed(v: Json): Json {
    match v
    case UInt64(u) => if u <= INT64_MAX then Int64(u) else v
    case Arr(items) => Arr(ReparsedItems(items))
    case Obj(fields) => Obj(ReparsedFields(fields))
    case _ => v
  }

  function ReparsedItems(items: seq<Json>): (r: seq<Json>)
    ensures |r| == |items| && forall k :: 0 <= k < |r| ==> r[k] == Reparsed(items[k])
  {
    seq(|items|, k requires 0 <= k < |items| => Reparsed(items[k]))
  }

  function ReparsedFields(fields: seq<Field>): (r: seq<Field>)
    ensures |r| == |fields|
    ensures forall k :: 0 <= k < |r| ==> r[k] == Field(fields[k].key, Reparsed(fields[k].value))
  {
    seq(|fields|, k requires 0 <= k < |fields| =>
      Field(fields[k].key, Reparsed(fields[k].value)))
  }

  lemma {:induction false} ReparsedIsEqual(v: Json)
    requires WellFormed(v)
    ensures Equal(v, Reparsed(v))
  {
    match v
    case Arr(items) =>
      forall k | 0 <= k < |items| ensures Equal(items[k], Reparsed(items[k])) {
        ReparsedIsEqual(items[k]);
      }
    case Obj(fields) =>
      var out := Reparsed(v).fields;
      forall k | 0 <= k < |fields|
        ensures IndexOf(out, fields[k].key) == k && IndexOf(fields, out[k].key) == k
        ensures Equal(fields[k].value, out[k].value)
      {
        assert out[k].key == fields[k].key;
        ReparsedIsEqual(fields[k].value);
      }
    case _ =>
  }
}
