/** The step-kind catalog: each kind of workout step, its wire name, and the
    numeric id and display order the platform expects beside it. Only the key
    is stored; the id and display order are computed from it whenever the
    object is written. */
module StepTypes {
  import opened Base
  import opened Json

  /** The closed set of step kinds. */
  datatype Step = Warmup | Cooldown | Rest | Repeat | Main

  /** The wire spelling of a step kind (serde's snake_case rename). */
  function StepName(s: Step): string {
    match s
    case Warmup => "warmup"
    case Cooldown => "cooldown"
    case Rest => "rest"
    case Repeat => "repeat"
    case Main => "main"
  }

  /** Reading a step kind back from its wire spelling; any other string is
      an unknown variant. */
  function ParseStep(name: string): (r: Option<Step>)
    ensures r.Some? ==> StepName(r.value) == name
  {
    if name == "warmup" then Some(Warmup)
    else if name == "cooldown" then Some(Cooldown)
    else if name == "rest" then Some(Rest)
    else if name == "repeat" then Some(Repeat)
    else if name == "main" then Some(Main)
    else None
  }

  lemma ParseStepName(s: Step)
    ensures ParseStep(StepName(s)) == Some(s)
  {
  }

  /** The catalog read backwards: which step kind a wire id stands for. */
  function StepOfId(id: int): Option<Step> {
    if id == 1 then Some(Warmup)
    else if id == 2 then Some(Cooldown)
    else if id == 5 then Some(Rest)
    else if id == 6 then Some(Repeat)
    else if id == 8 then Some(Main)
    else None
  }

  datatype StepType = StepType(stepTypeKey: Step)

  /** The numeric wire id of a step kind. It is defined for every kind, and
      it identifies the kind: reading the catalog backwards gives the key. */
  function StepTypeId(t: StepType): (id: U8)
    ensures 1 <= id <= 8
    ensures StepOfId(id) == Some(t.stepTypeKey)
  {
    match t.stepTypeKey
    case Warmup => 1
    case Cooldown => 2
    case Rest => 5
    case Repeat => 6
    case Main => 8
  }

  /** The display order of a step kind is its id. */
  function DisplayOrder(t: StepType): (d: U8)
    ensures d == StepTypeId(t)
    ensures StepOfId(d) == Some(t.stepTypeKey)
  {
    StepTypeId(t)
  }

  /** Distinct step kinds have distinct ids. */
  lemma StepTypeIdInjective(a: StepType, b: StepType)
    ensures StepTypeId(a) == StepTypeId(b) <==> a == b
  {
  }

  const StepTypeFields: seq<string> := ["stepTypeId", "stepTypeKey", "displayOrder"]

  /** The hand-written serialiser: three fields, in this order, the id and the
      display order computed from the key. */
  function Serialize(t: StepType): (j: Json)
    ensures j.JObject? && Keys(j.fields) == StepTypeFields
    ensures j.fields[1].1 == JString(StepName(t.stepTypeKey))
    ensures j.fields[0].1.JInt? && StepOfId(j.fields[0].1.i) == Some(t.stepTypeKey)
    ensures j.fields[2].1 == j.fields[0].1
  {
    JObject([
      ("stepTypeId", JInt(StepTypeId(t))),
      ("stepTypeKey", JString(StepName(t.stepTypeKey))),
      ("displayOrder", JInt(DisplayOrder(t)))])
  }

  /** The derived deserialiser: only `stepTypeKey` is read; the id and the
      display order on the wire are ignored, like any unknown field. */
  function Deserialize(j: Json): (r: Option<StepType>)
    ensures r.Some? ==> j.JObject? && Find(j.fields, "stepTypeKey") == Found(JString(StepName(r.value.stepTypeKey)))
  {
    if !j.JObject? then None
    else
      match RequiredField(j.fields, "stepTypeKey", ReadString)
      case Some(name) => (match ParseStep(name) case Some(s) => Some(StepType(s)) case None => None)
      case None => None
  }
  /** Conversely, any object whose stepTypeKey is found once as a step kind's
      name reads as that kind, whatever other fields it has. */
  lemma DeserializeAccepts(j: Json, s: Step)
    requires j.JObject? && Find(j.fields, "stepTypeKey") == Found(JString(StepName(s)))
    ensures Deserialize(j) == Some(StepType(s))
  {
    ParseStepName(s);
  }


  /** Reading back what was written recovers the key, hence the id. */
  lemma {:induction false} RoundTrip(t: StepType)
    ensures Deserialize(Serialize(t)) == Some(t)
  {
    var fields := Serialize(t).fields;
    FindDistinct(fields, 1);
    ParseStepName(t.stepTypeKey);
  }

  /** Whatever numbers stand in the id and display-order fields, the key
      alone decides the result. */
  lemma {:induction false} DeserializeIgnoresNumbers(s: Step, id: Json, order: Json)
    ensures Deserialize(JObject([("stepTypeId", id), ("stepTypeKey", JString(StepName(s))), ("displayOrder", order)]))
         == Some(StepType(s))
  {
    var fields := [("stepTypeId", id), ("stepTypeKey", JString(StepName(s))), ("displayOrder", order)];
    FindDistinct(fields, 1);
    ParseStepName(s);
  }

  /** The serialiser's fixture: a cooldown step type. */
  lemma SerializeCooldown()
    ensures Serialize(StepType(Cooldown))
         == JObject([("stepTypeId", JInt(2)), ("stepTypeKey", JString("cooldown")), ("displayOrder", JInt(2))])
  {
  }

  /** The deserialiser's fixture: a warmup step type with id and order 1. */
  lemma DeserializeWarmup()
    ensures var r := Deserialize(JObject([("stepTypeId", JInt(1)), ("stepTypeKey", JString("warmup")), ("displayOrder", JInt(1))]));
            r == Some(StepType(Warmup)) && StepTypeId(r.value) == 1 && DisplayOrder(r.value) == 1
  {
    DeserializeIgnoresNumbers(Warmup, JInt(1), JInt(1));
  }
}
