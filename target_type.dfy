/** The target catalog. Only "no target" exists; it is also the default. */
module TargetTypes {
  import opened Base
  import opened Json

  datatype Target = NoTarget

  /** The wire spelling, renamed with a dot. */
  function TargetName(t: Target): string {
    match t
    case NoTarget => "no.target"
  }

  function ParseTarget(name: string): (r: Option<Target>)
    ensures r.Some? ==> TargetName(r.value) == name
  {
    if name == "no.target" then Some(NoTarget) else None
  }

  /** The catalog read backwards. */
  function TargetOfId(id: int): Option<Target> {
    if id == 1 then Some(NoTarget) else None
  }

  datatype TargetType = TargetType(workoutTargetTypeKey: Target)

  /** The numeric wire id; it identifies the target kind. */
  function WorkoutTargetTypeId(t: TargetType): (id: U8)
    ensures id >= 1
    ensures TargetOfId(id) == Some(t.workoutTargetTypeKey)
  {
    match t.workoutTargetTypeKey
    case NoTarget => 1
  }

  /** The display order is the id. */
  function DisplayOrder(t: TargetType): (d: U8)
    ensures d == WorkoutTargetTypeId(t)
    ensures TargetOfId(d) == Some(t.workoutTargetTypeKey)
  {
    WorkoutTargetTypeId(t)
  }

  /** The default target type is "no target", id 1. */
  function Default(): (t: TargetType)
    ensures t.workoutTargetTypeKey == NoTarget
    ensures WorkoutTargetTypeId(t) == 1
  {
    TargetType(NoTarget)
  }

  const TargetTypeFields: seq<string> := ["workoutTargetTypeId", "workoutTargetTypeKey", "displayOrder"]

  /** The hand-written serialiser: three fields in this order. */
  function Serialize(t: TargetType): (j: Json)
    ensures j.JObject? && Keys(j.fields) == TargetTypeFields
    ensures j.fields[1].1 == JString(TargetName(t.workoutTargetTypeKey))
    ensures j.fields[0].1.JInt? && TargetOfId(j.fields[0].1.i) == Some(t.workoutTargetTypeKey)
    ensures j.fields[2].1 == j.fields[0].1
  {
    JObject([
      ("workoutTargetTypeId", JInt(WorkoutTargetTypeId(t))),
      ("workoutTargetTypeKey", JString(TargetName(t.workoutTargetTypeKey))),
      ("displayOrder", JInt(DisplayOrder(t)))])
  }

  /** The derived deserialiser: only the key is read. */
  function Deserialize(j: Json): (r: Option<TargetType>)
    ensures r.Some? ==> j.JObject?
    ensures r.Some? ==> Find(j.fields, "workoutTargetTypeKey") == Found(JString(TargetName(r.value.workoutTargetTypeKey)))
  {
    if !j.JObject? then None
    else
      match RequiredField(j.fields, "workoutTargetTypeKey", ReadString)
      case Some(name) => (match ParseTarget(name) case Some(t) => Some(TargetType(t)) case None => None)
      case None => None
  }
  /** Conversely, any object whose workoutTargetTypeKey is found once as a
      target's name reads as that target, whatever other fields it has. */
  lemma DeserializeAccepts(j: Json, t: Target)
    requires j.JObject? && Find(j.fields, "workoutTargetTypeKey") == Found(JString(TargetName(t)))
    ensures Deserialize(j) == Some(TargetType(t))
  {
  }


  lemma {:induction false} RoundTrip(t: TargetType)
    ensures Deserialize(Serialize(t)) == Some(t)
  {
    var fields := Serialize(t).fields;
    FindDistinct(fields, 1);
  }

  /** The serialiser's fixture. */
  lemma SerializeNoTarget()
    ensures Serialize(Default())
         == JObject([("workoutTargetTypeId", JInt(1)), ("workoutTargetTypeKey", JString("no.target")), ("displayOrder", JInt(1))])
  {
  }

  /** The deserialiser's fixture. */
  lemma DeserializeNoTarget()
    ensures var r := Deserialize(JObject([("workoutTargetTypeId", JInt(1)), ("workoutTargetTypeKey", JString("no.target")),
                                          ("displayOrder", JInt(1))]));
            r == Some(TargetType(NoTarget)) && WorkoutTargetTypeId(r.value) == 1 && DisplayOrder(r.value) == 1
  {
    RoundTrip(Default());
  }
}
