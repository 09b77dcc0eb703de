/** The JSON value tree that the serialisers produce, and the by-name field
    lookup that serde's derived deserialisers perform on a JSON object.
    An object is an ORDERED list of (name, value) pairs, so the order in which
    a serialiser emits its fields is part of the value; absent optional values
    are an explicit `JNull`. Integers and floats are kept apart because
    serde_json writes a `u8` as `8` and an `f32` as `8.0`. */
module Json {
  import opened Base

  datatype Json =
    | JNull
    | JBool(b: bool)
    | JInt(i: int)
    | JFloat(r: real)
    | JString(s: string)
    | JArray(items: seq<Json>)
    | JObject(fields: seq<(string, Json)>)

  /** The names of an object's fields, in emission order. */
  function Keys(fields: seq<(string, Json)>): seq<string> {
    seq(|fields|, i requires 0 <= i < |fields| => fields[i].0)
  }

  /** No field name occurs twice. */
  predicate Distinct(names: seq<string>) {
    forall i, j :: 0 <= i < j < |names| ==> names[i] != names[j]
  }

  /** No name of `a` is a name of `b`. */
  predicate Disjoint(a: seq<string>, b: seq<string>) {
    forall i, j :: 0 <= i < |a| && 0 <= j < |b| ==> a[i] != b[j]
  }

  lemma DistinctConcat(a: seq<string>, b: seq<string>)
    requires Distinct(a) && Distinct(b) && Disjoint(a, b)
    ensures Distinct(a + b)
  {
  }

  /** What a derived deserialiser sees for one field name while it walks the
      object: the field is missing, present once, or present more than once
      (which serde rejects as a duplicate field). */
  datatype Lookup = Missing | Found(value: Json) | Duplicate

  function Find(fields: seq<(string, Json)>, name: string): Lookup
    decreases |fields|
  {
    if fields == [] then Missing
    else
      var rest := Find(fields[1..], name);
      if fields[0].0 != name then rest
      else if rest.Missing? then Found(fields[0].1)
      else Duplicate
  }

  /** A name that no field carries is missing. */
  lemma {:induction false} FindAbsent(fields: seq<(string, Json)>, name: string)
    requires forall i :: 0 <= i < |fields| ==> fields[i].0 != name
    ensures Find(fields, name) == Missing
    decreases |fields|
  {
    if fields != [] {
      FindAbsent(fields[1..], name);
    }
  }

  /** In an object whose names are distinct, looking a field up by its own
      name finds exactly its value. */
  lemma {:induction false} FindDistinct(fields: seq<(string, Json)>, k: nat)
    requires k < |fields| && Distinct(Keys(fields))
    ensures Find(fields, fields[k].0) == Found(fields[k].1)
    decreases k
  {
    var names := Keys(fields);
    if k == 0 {
      forall i | 0 <= i < |fields| - 1 ensures fields[1..][i].0 != fields[0].0 {
        assert names[0] != names[i + 1];
      }
      FindAbsent(fields[1..], fields[0].0);
    } else {
      assert names[0] != names[k];
      assert Keys(fields[1..]) == names[1..];
      FindDistinct(fields[1..], k - 1);
    }
  }

  /** A name that some field carries is not missing. */
  lemma {:induction false} FindPresent(fields: seq<(string, Json)>, k: nat)
    requires k < |fields|
    ensures !Find(fields, fields[k].0).Missing?
    decreases k
  {
    if k > 0 && fields[0].0 != fields[k].0 {
      FindPresent(fields[1..], k - 1);
    }
  }

  /** Pairing field names with values, in order: how a serialiser emits an
      object. */
  function Zip(names: seq<string>, values: seq<Json>): (r: seq<(string, Json)>)
    requires |names| == |values|
    ensures |r| == |names|
    ensures forall i :: 0 <= i < |r| ==> r[i] == (names[i], values[i])
  {
    if names == [] then [] else [(names[0], values[0])] + Zip(names[1..], values[1..])
  }

  lemma KeysZip(names: seq<string>, values: seq<Json>)
    requires |names| == |values|
    ensures Keys(Zip(names, values)) == names
  {
    assert forall i :: 0 <= i < |names| ==> Keys(Zip(names, values))[i] == names[i];
  }

  /** In an object emitted from distinct names, each name finds its own value. */
  lemma ZipFind(names: seq<string>, values: seq<Json>, k: nat)
    requires |names| == |values| && Distinct(names) && k < |names|
    ensures Find(Zip(names, values), names[k]) == Found(values[k])
  {
    KeysZip(names, values);
    FindDistinct(Zip(names, values), k);
  }

  /** A required field of such an object reads back as its reader recovers it. */
  lemma RequiredAt<T>(names: seq<string>, values: seq<Json>, k: nat, read: Json -> Option<T>, x: T)
    requires |names| == |values| && Distinct(names) && k < |names|
    requires read(values[k]) == Some(x)
    ensures RequiredField(Zip(names, values), names[k], read) == Some(x)
  {
    ZipFind(names, values, k);
  }

  /** An optional field of such an object reads back as `None` from `null`,
      else as its reader recovers it. */
  lemma OptionalAt<T>(names: seq<string>, values: seq<Json>, k: nat, read: Json -> Option<T>, o: Option<T>)
    requires |names| == |values| && Distinct(names) && k < |names|
    requires o.None? ==> values[k] == JNull
    requires o.Some? ==> values[k] != JNull && read(values[k]) == Some(o.value)
    ensures OptionalField(Zip(names, values), names[k], read) == Some(o)
  {
    ZipFind(names, values, k);
  }

  /** A name that occurs twice is rejected as a duplicate, whatever else the
      object holds. */
  lemma {:induction false} FindRepeated(fields: seq<(string, Json)>, i: nat, j: nat)
    requires i < j < |fields| && fields[i].0 == fields[j].0
    ensures Find(fields, fields[i].0) == Duplicate
    decreases i
  {
    if i == 0 {
      assert fields[1..][j - 1] == fields[j];
      FindPresent(fields[1..], j - 1);
    } else {
      FindRepeated(fields[1..], i - 1, j - 1);
    }
  }

  // Readers for primitive values, as serde_json accepts them.

  function ReadU8(v: Json): (r: Option<U8>)
    ensures r.Some? <==> v.JInt? && 0 <= v.i < 0x100
  {
    if v.JInt? && 0 <= v.i < 0x100 then Some(v.i) else None
  }

  function ReadU32(v: Json): (r: Option<U32>)
    ensures r.Some? <==> v.JInt? && 0 <= v.i < 0x1_0000_0000
  {
    if v.JInt? && 0 <= v.i < 0x1_0000_0000 then Some(v.i) else None
  }

  function ReadU64(v: Json): (r: Option<U64>)
    ensures r.Some? <==> v.JInt? && 0 <= v.i < 0x1_0000_0000_0000_0000
  {
    if v.JInt? && 0 <= v.i < 0x1_0000_0000_0000_0000 then Some(v.i) else None
  }

  /** An `f32` field accepts a float or an integer literal. */
  function ReadF32(v: Json): (r: Option<real>)
    ensures r.Some? <==> v.JFloat? || v.JInt?
  {
    match v
    case JFloat(x) => Some(x)
    case JInt(n) => Some(n as real)
    case _ => None
  }

  function ReadBool(v: Json): (r: Option<bool>)
    ensures r.Some? <==> v.JBool?
  {
    if v.JBool? then Some(v.b) else None
  }

  function ReadString(v: Json): (r: Option<string>)
    ensures r.Some? <==> v.JString?
  {
    if v.JString? then Some(v.s) else None
  }

  // Writers for primitive values.

  function WriteU8(x: U8): Json {
    JInt(x)
  }

  function WriteU32(x: U32): Json {
    JInt(x)
  }

  function WriteF32(x: real): Json {
    JFloat(x)
  }

  function WriteBool(x: bool): Json {
    JBool(x)
  }

  function WriteString(x: string): Json {
    JString(x)
  }

  /** Writing an optional value: `None` is an explicit `null`. */
  function Nullable<T>(o: Option<T>, write: T -> Json): Json {
    match o
    case None => JNull
    case Some(x) => write(x)
  }

  /** A non-`Option` field: it must be present exactly once and readable. */
  function RequiredField<T>(fields: seq<(string, Json)>, name: string, read: Json -> Option<T>): (r: Option<T>)
    ensures r.Some? ==> Find(fields, name).Found? && read(Find(fields, name).value) == r
  {
    match Find(fields, name)
    case Found(v) => read(v)
    case _ => None
  }

  /** An `Option` field: missing or `null` reads as `None`; otherwise it is
      read as the inner type. The outer `None` is a deserialisation error. */
  function OptionalField<T>(fields: seq<(string, Json)>, name: string, read: Json -> Option<T>): (r: Option<Option<T>>)
    ensures Find(fields, name).Missing? ==> r == Some(None)
    ensures Find(fields, name).Duplicate? ==> r.None?
    ensures r.Some? && r.value.Some? ==> Find(fields, name).Found? && read(Find(fields, name).value) == r.value
  {
    match Find(fields, name)
    case Missing => Some(None)
    case Duplicate => None
    case Found(JNull) => Some(None)
    case Found(v) => (match read(v) case Some(x) => Some(Some(x)) case None => None)
  }

  /** Writing a list: each element by `write`, in order. */
  function WriteArray<T>(xs: seq<T>, write: T -> Json): seq<Json> {
    seq(|xs|, i requires 0 <= i < |xs| => write(xs[i]))
  }

  /** Reading a list: every element by `read`, in order; one element that
      does not read fails the whole list. */
  function ReadArray<T>(items: seq<Json>, read: Json -> Option<T>): (r: Option<seq<T>>)
    ensures r.Some? ==> |r.value| == |items|
    ensures r.Some? ==> forall i :: 0 <= i < |items| ==> read(items[i]) == Some(r.value[i])
  {
    if items == [] then Some([])
    else
      match (read(items[0]), ReadArray(items[1..], read))
      case (Some(x), Some(rest)) => Some([x] + rest)
      case _ => None
  }

  /** When every element reads back as written, so does the list. */
  lemma {:induction false} ArrayRoundTrip<T>(xs: seq<T>, write: T -> Json, read: Json -> Option<T>)
    requires forall x :: read(write(x)) == Some(x)
    ensures ReadArray(WriteArray(xs, write), read) == Some(xs)
  {
    if xs != [] {
      var items := WriteArray(xs, write);
      ArrayRoundTrip(xs[1..], write, read);
      assert items[0] == write(xs[0]);
      assert items[1..] == WriteArray(xs[1..], write);
      assert [xs[0]] + xs[1..] == xs;
    }
  }
}
