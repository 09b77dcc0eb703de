/** The end-condition catalog: what terminates a step, its wire name, its id
    and display order, and whether the platform shows it. */
module EndConditions {
  import opened Base
  import opened Json

  /** The closed set of end-condition kinds. */
  datatype Condition = LapButton | Time | Distance | Iterations | FixedRest

  /** The wire spelling: two variants are renamed with a dot, the others are
      their snake_case names. */
  function ConditionName(c: Condition): string {
    match c
    case LapButton => "lap.button"
    case Time => "time"
    case Distance => "distance"
    case Iterations => "iterations"
    case FixedRest => "fixed.rest"
  }

  /** Reading an end-condition kind back from its wire spelling. */
  function ParseCondition(name: string): (r: Option<Condition>)
    ensures r.Some? ==> ConditionName(r.value) == name
  {
    if name == "lap.button" then Some(LapButton)
    else if name == "time" then Some(Time)
    else if name == "distance" then Some(Distance)
    else if name == "iterations" then Some(Iterations)
    else if name == "fixed.rest" then Some(FixedRest)
    else None
  }

  lemma ParseConditionName(c: Condition)
    ensures ParseCondition(ConditionName(c)) == Some(c)
  {
  }

  /** The catalog read backwards. */
  function ConditionOfId(id: int): Option<Condition> {
    if id == 1 then Some(LapButton)
    else if id == 2 then Some(Time)
    else if id == 3 then Some(Distance)
    else if id == 7 then Some(Iterations)
    else if id == 8 then Some(FixedRest)
    else None
  }

  datatype EndCondition = EndCondition(conditionTypeKey: Condition, displayable: bool)

  /** A new end condition keeps its kind and is displayable. */
  function New(condition: Condition): (e: EndCondition)
    ensures e.conditionTypeKey == condition && e.displayable
  {
    EndCondition(condition, true)
  }

  /** The numeric wire id of an end-condition kind; it identifies the kind. */
  function ConditionTypeId(e: EndCondition): (id: U8)
    ensures 1 <= id <= 8
    ensures ConditionOfId(id) == Some(e.conditionTypeKey)
  {
    match e.conditionTypeKey
    case LapButton => 1
    case Time => 2
    case Distance => 3
    case Iterations => 7
    case FixedRest => 8
  }

  /** The display order is the id. */
  function DisplayOrder(e: EndCondition): (d: U8)
    ensures d == ConditionTypeId(e)
    ensures ConditionOfId(d) == Some(e.conditionTypeKey)
  {
    ConditionTypeId(e)
  }

  /** The id depends on the kind only, never on the displayable flag. */
  lemma ConditionTypeIdIgnoresDisplayable(a: EndCondition, b: EndCondition)
    ensures ConditionTypeId(a) == ConditionTypeId(b) <==> a.conditionTypeKey == b.conditionTypeKey
  {
  }

  const EndConditionFields: seq<string> := ["conditionTypeId", "conditionTypeKey", "displayOrder", "displayable"]

  /** The hand-written serialiser: four fields in this order; the flag is
      copied, the id and display order are computed from the kind. */
  function Serialize(e: EndCondition): (j: Json)
    ensures j.JObject? && Keys(j.fields) == EndConditionFields
    ensures j.fields[1].1 == JString(ConditionName(e.conditionTypeKey))
    ensures j.fields[0].1.JInt? && ConditionOfId(j.fields[0].1.i) == Some(e.conditionTypeKey)
    ensures j.fields[2].1 == j.fields[0].1
    ensures j.fields[3].1 == JBool(e.displayable)
  {
    JObject([
      ("conditionTypeId", JInt(ConditionTypeId(e))),
      ("conditionTypeKey", JString(ConditionName(e.conditionTypeKey))),
      ("displayOrder", JInt(DisplayOrder(e))),
      ("displayable", JBool(e.displayable))])
  }

  /** The derived deserialiser: reads the kind and the flag by name, ignores
      the id and the display order. */
  function Deserialize(j: Json): (r: Option<EndCondition>)
    ensures r.Some? ==> j.JObject?
    ensures r.Some? ==> Find(j.fields, "conditionTypeKey") == Found(JString(ConditionName(r.value.conditionTypeKey)))
    ensures r.Some? ==> Find(j.fields, "displayable") == Found(JBool(r.value.displayable))
  {
    if !j.JObject? then None
    else
      var key := RequiredField(j.fields, "conditionTypeKey", ReadString);
      var flag := RequiredField(j.fields, "displayable", ReadBool);
      if key.None? || flag.None? then None
      else
        match ParseCondition(key.value)
        case Some(c) => Some(EndCondition(c, flag.value))
        case None => None
  }
  /** Conversely, any object whose conditionTypeKey is found once as a
      condition's name and whose displayable is found once as a boolean reads
      as that end condition, whatever other fields it has. */
  lemma DeserializeAccepts(j: Json, c: Condition, b: bool)
    requires j.JObject?
    requires Find(j.fields, "conditionTypeKey") == Found(JString(ConditionName(c)))
    requires Find(j.fields, "displayable") == Found(JBool(b))
    ensures Deserialize(j) == Some(EndCondition(c, b))
  {
    ParseConditionName(c);
  }


  lemma {:induction false} RoundTrip(e: EndCondition)
    ensures Deserialize(Serialize(e)) == Some(e)
  {
    var fields := Serialize(e).fields;
    FindDistinct(fields, 1);
    FindDistinct(fields, 3);
    ParseConditionName(e.conditionTypeKey);
  }

  /** The serialiser's fixture: a displayable lap-button condition. */
  lemma SerializeLapButton()
    ensures Serialize(EndCondition(LapButton, true))
         == JObject([("conditionTypeId", JInt(1)), ("conditionTypeKey", JString("lap.button")),
                     ("displayOrder", JInt(1)), ("displayable", JBool(true))])
  {
  }

  /** The deserialiser's fixture: a displayable distance condition, id 3. */
  lemma DeserializeDistance()
    ensures var r := Deserialize(JObject([("conditionTypeId", JInt(3)), ("conditionTypeKey", JString("distance")),
                                          ("displayOrder", JInt(3)), ("displayable", JBool(true))]));
            r == Some(EndCondition(Distance, true)) && ConditionTypeId(r.value) == 3 && DisplayOrder(r.value) == 3
  {
    RoundTrip(EndCondition(Distance, true));
  }
}
