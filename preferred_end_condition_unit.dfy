/** The distance-unit catalog used for a step's preferred end-condition unit.
    Only the meter exists: id 1, factor 100. */
module PreferredEndConditionUnits {
  import opened Base
  import opened Json

  datatype Unit = Meter

  function UnitName(u: Unit): string {
    match u
    case Meter => "meter"
  }

  function ParseUnit(name: string): (r: Option<Unit>)
    ensures r.Some? ==> UnitName(r.value) == name
  {
    if name == "meter" then Some(Meter) else None
  }

  /** The catalog read backwards. */
  function UnitOfId(id: int): Option<Unit> {
    if id == 1 then Some(Meter) else None
  }

  datatype PreferredEndConditionUnit = PreferredEndConditionUnit(unitKey: Unit)

  /** The numeric wire id; it identifies the unit. */
  function UnitId(p: PreferredEndConditionUnit): (id: U8)
    ensures id >= 1
    ensures UnitOfId(id) == Some(p.unitKey)
  {
    match p.unitKey
    case Meter => 1
  }

  /** The unit's factor (an `f32` in the source): 100 for the meter. */
  function Factor(p: PreferredEndConditionUnit): (f: real)
    ensures p.unitKey == Meter ==> f == 100.0
  {
    match p.unitKey
    case Meter => 100.0
  }

  /** The default unit is the meter: id 1, factor 100. */
  function Default(): (p: PreferredEndConditionUnit)
    ensures p.unitKey == Meter && UnitId(p) == 1 && Factor(p) == 100.0
  {
    PreferredEndConditionUnit(Meter)
  }

  const UnitFields: seq<string> := ["unitId", "unitKey", "factor"]

  /** The hand-written serialiser: three fields in this order, all derived
      from the key; the factor is written as a float. */
  function Serialize(p: PreferredEndConditionUnit): (j: Json)
    ensures j.JObject? && Keys(j.fields) == UnitFields
    ensures j.fields[1].1 == JString(UnitName(p.unitKey))
    ensures j.fields[0].1.JInt? && UnitOfId(j.fields[0].1.i) == Some(p.unitKey)
    ensures j.fields[2].1 == JFloat(Factor(p))
  {
    JObject([
      ("unitId", JInt(UnitId(p))),
      ("unitKey", JString(UnitName(p.unitKey))),
      ("factor", JFloat(Factor(p)))])
  }

  /** The derived deserialiser: only the key is read; id and factor are
      ignored. */
  function Deserialize(j: Json): (r: Option<PreferredEndConditionUnit>)
    ensures r.Some? ==> j.JObject?
    ensures r.Some? ==> Find(j.fields, "unitKey") == Found(JString(UnitName(r.value.unitKey)))
  {
    if !j.JObject? then None
    else
      match RequiredField(j.fields, "unitKey", ReadString)
      case Some(name) => (match ParseUnit(name) case Some(u) => Some(PreferredEndConditionUnit(u)) case None => None)
      case None => None
  }
  /** Conversely, any object whose unitKey is found once as a unit's name
      reads as that unit, whatever other fields it has. */
  lemma DeserializeAccepts(j: Json, u: Unit)
    requires j.JObject? && Find(j.fields, "unitKey") == Found(JString(UnitName(u)))
    ensures Deserialize(j) == Some(PreferredEndConditionUnit(u))
  {
  }


  lemma {:induction false} RoundTrip(p: PreferredEndConditionUnit)
    ensures Deserialize(Serialize(p)) == Some(p)
  {
    var fields := Serialize(p).fields;
    FindDistinct(fields, 1);
  }

  /** The serialiser's fixture. */
  lemma SerializeMeter()
    ensures Serialize(Default())
         == JObject([("unitId", JInt(1)), ("unitKey", JString("meter")), ("factor", JFloat(100.0))])
  {
  }

  /** The deserialiser's fixture. */
  lemma DeserializeMeter()
    ensures var r := Deserialize(JObject([("unitId", JInt(1)), ("unitKey", JString("meter")), ("factor", JFloat(100.0))]));
            r == Some(PreferredEndConditionUnit(Meter)) && UnitId(r.value) == 1 && Factor(r.value) == 100.0
  {
    RoundTrip(Default());
  }
}
