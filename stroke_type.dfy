/** The stroke catalog. A stroke key may be absent (a rest step has no
    stroke); the absent key has id and display order 0, every stroke has an id
    of at least 1. */
module StrokeTypes {
  import opened Base
  import opened Json

  /** The closed set of strokes. */
  datatype Stroke = AnyStroke | Free | Breast | Back | Butterfly | IndividualMedley

  /** The wire spelling (serde's snake_case rename). */
  function StrokeName(s: Stroke): string {
    match s
    case AnyStroke => "any_stroke"
    case Free => "free"
    case Breast => "breast"
    case Back => "back"
    case Butterfly => "butterfly"
    case IndividualMedley => "individual_medley"
  }

  function ParseStroke(name: string): (r: Option<Stroke>)
    ensures r.Some? ==> StrokeName(r.value) == name
  {
    if name == "any_stroke" then Some(AnyStroke)
    else if name == "free" then Some(Free)
    else if name == "breast" then Some(Breast)
    else if name == "back" then Some(Back)
    else if name == "butterfly" then Some(Butterfly)
    else if name == "individual_medley" then Some(IndividualMedley)
    else None
  }

  lemma ParseStrokeName(s: Stroke)
    ensures ParseStroke(StrokeName(s)) == Some(s)
  {
  }

  /** The catalog read backwards; id 0 stands for the absent stroke. */
  function StrokeOfId(id: int): Option<Stroke> {
    if id == 1 then Some(AnyStroke)
    else if id == 2 then Some(Breast)
    else if id == 3 then Some(Back)
    else if id == 4 then Some(Butterfly)
    else if id == 6 then Some(Free)
    else if id == 7 then Some(IndividualMedley)
    else None
  }

  datatype StrokeType = StrokeType(strokeTypeKey: Option<Stroke>)

  /** Storing a stroke key as given. */
  function New(strokeTypeKey: Option<Stroke>): (t: StrokeType)
    ensures t.strokeTypeKey == strokeTypeKey
  {
    StrokeType(strokeTypeKey)
  }

  /** The numeric wire id: 0 exactly when the key is absent; a present key
      is recovered from its id. */
  function StrokeTypeId(t: StrokeType): (id: U8)
    ensures id == 0 <==> t.strokeTypeKey.None?
    ensures id <= 7
    ensures t.strokeTypeKey.Some? ==> StrokeOfId(id) == t.strokeTypeKey
  {
    match t.strokeTypeKey
    case Some(AnyStroke) => 1
    case Some(Breast) => 2
    case Some(Back) => 3
    case Some(Butterfly) => 4
    case Some(Free) => 6
    case Some(IndividualMedley) => 7
    case None => 0
  }

  /** The display order is the id. */
  function DisplayOrder(t: StrokeType): (d: U8)
    ensures d == StrokeTypeId(t)
    ensures d == 0 <==> t.strokeTypeKey.None?
  {
    StrokeTypeId(t)
  }

  /** Distinct keys, the absent one included, have distinct ids. */
  lemma StrokeTypeIdInjective(a: StrokeType, b: StrokeType)
    ensures StrokeTypeId(a) == StrokeTypeId(b) <==> a == b
  {
  }

  const StrokeTypeFields: seq<string> := ["strokeTypeId", "strokeTypeKey", "displayOrder"]

  function WriteStroke(s: Stroke): Json {
    JString(StrokeName(s))
  }

  function ReadStroke(v: Json): (r: Option<Stroke>)
    ensures r.Some? ==> v == WriteStroke(r.value)
  {
    if v.JString? then ParseStroke(v.s) else None
  }

  /** The hand-written serialiser: three fields in this order; an absent key
      is written as `null`. */
  function Serialize(t: StrokeType): (j: Json)
    ensures j.JObject? && Keys(j.fields) == StrokeTypeFields
    ensures j.fields[1].1 == JNull <==> t.strokeTypeKey.None?
    ensures t.strokeTypeKey.Some? ==> j.fields[1].1 == JString(StrokeName(t.strokeTypeKey.value))
    ensures j.fields[0].1 == JInt(StrokeTypeId(t))
    ensures j.fields[0].1.JInt? && (j.fields[0].1.i == 0 <==> t.strokeTypeKey.None?)
    ensures j.fields[2].1 == j.fields[0].1
  {
    JObject([
      ("strokeTypeId", JInt(StrokeTypeId(t))),
      ("strokeTypeKey", Nullable(t.strokeTypeKey, WriteStroke)),
      ("displayOrder", JInt(DisplayOrder(t)))])
  }

  /** The derived deserialiser: the key is an `Option`, so a missing or `null`
      key reads as the absent stroke. */
  function Deserialize(j: Json): (r: Option<StrokeType>)
    ensures r.Some? ==> j.JObject?
    ensures r.Some? && r.value.strokeTypeKey.Some? ==>
              Find(j.fields, "strokeTypeKey") == Found(WriteStroke(r.value.strokeTypeKey.value))
    ensures r.Some? && r.value.strokeTypeKey.None? ==>
              Find(j.fields, "strokeTypeKey") in {Missing, Found(JNull)}
  {
    if !j.JObject? then None
    else
      match OptionalField(j.fields, "strokeTypeKey", ReadStroke)
      case Some(key) => Some(StrokeType(key))
      case None => None
  }
  /** Conversely, any object whose strokeTypeKey is found once as a stroke's
      name reads as that stroke, and any object whose strokeTypeKey is missing
      or `null` reads as no stroke, whatever other fields it has. */
  lemma DeserializeAccepts(j: Json, key: Option<Stroke>)
    requires j.JObject?
    requires key.Some? ==> Find(j.fields, "strokeTypeKey") == Found(JString(StrokeName(key.value)))
    requires key.None? ==> Find(j.fields, "strokeTypeKey") in {Missing, Found(JNull)}
    ensures Deserialize(j) == Some(StrokeType(key))
  {
    if key.Some? {
      ParseStrokeName(key.value);
    }
  }


  lemma {:induction false} RoundTrip(t: StrokeType)
    ensures Deserialize(Serialize(t)) == Some(t)
  {
    var fields := Serialize(t).fields;
    FindDistinct(fields, 1);
    if t.strokeTypeKey.Some? {
      ParseStrokeName(t.strokeTypeKey.value);
    }
  }

  /** An object without a key field at all still reads as the absent stroke. */
  lemma DeserializeMissingKey()
    ensures Deserialize(JObject([("strokeTypeId", JInt(0)), ("displayOrder", JInt(0))])) == Some(StrokeType(None))
  {
  }

  /** The serialiser's fixtures: individual medley, and the absent stroke. */
  lemma SerializeFixtures()
    ensures Serialize(StrokeType(Some(IndividualMedley)))
         == JObject([("strokeTypeId", JInt(7)), ("strokeTypeKey", JString("individual_medley")), ("displayOrder", JInt(7))])
    ensures Serialize(StrokeType(None))
         == JObject([("strokeTypeId", JInt(0)), ("strokeTypeKey", JNull), ("displayOrder", JInt(0))])
  {
  }

  /** The deserialiser's fixtures: free (id 6) and `null` (id 0). */
  lemma DeserializeFixtures()
    ensures var r := Deserialize(JObject([("strokeTypeId", JInt(6)), ("strokeTypeKey", JString("free")), ("displayOrder", JInt(6))]));
            r == Some(StrokeType(Some(Free))) && StrokeTypeId(r.value) == 6 && DisplayOrder(r.value) == 6
    ensures var r := Deserialize(JObject([("strokeTypeId", JInt(0)), ("strokeTypeKey", JNull), ("displayOrder", JInt(0))]));
            r == Some(StrokeType(None)) && StrokeTypeId(r.value) == 0 && DisplayOrder(r.value) == 0
  {
    RoundTrip(StrokeType(Some(Free)));
    RoundTrip(StrokeType(None));
  }
}
