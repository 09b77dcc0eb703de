/** A workout step is either an executable step or a repeat group; on the
    wire the two are told apart by the `type` field that each one's
    serialiser writes first. */
module WorkoutSteps {
  import opened Base
  import opened Json
  import ExecutableSteps
  import RepeatGroups

  datatype WorkoutStep =
    | ExecutableStep(step: ExecutableSteps.ExecutableStepDTO)
    | RepeatGroup(group: RepeatGroups.RepeatGroupDTO)

  /** The discriminator of each variant. */
  function Tag(w: WorkoutStep): string {
    match w
    case ExecutableStep(_) => ExecutableSteps.ExecutableStepTag
    case RepeatGroup(_) => RepeatGroups.RepeatGroupTag
  }

  /** Each variant is written by its own serialiser, which puts the variant's
      tag under `type`. */
  function Serialize(w: WorkoutStep): (j: Json)
    ensures j.JObject? && |j.fields| > 0 && j.fields[0] == ("type", JString(Tag(w)))
  {
    match w
    case ExecutableStep(s) => ExecutableSteps.Serialize(s)
    case RepeatGroup(g) => RepeatGroups.Serialize(g)
  }

  /** Reading a workout step: the `type` field chooses the variant, whose
      deserialiser reads the rest; an unknown tag fails the read. */
  function Deserialize(j: Json): (r: Option<WorkoutStep>)
    ensures r.Some? ==> j.JObject? && Find(j.fields, "type") == Found(JString(Tag(r.value)))
  {
    if !j.JObject? then None
    else
      match RequiredField(j.fields, "type", ReadString)
      case None => None
      case Some(tag) =>
        if tag == ExecutableSteps.ExecutableStepTag then
          match ExecutableSteps.Deserialize(j) case Some(s) => Some(ExecutableStep(s)) case None => None
        else if tag == RepeatGroups.RepeatGroupTag then
          match RepeatGroups.Deserialize(j) case Some(g) => Some(RepeatGroup(g)) case None => None
        else None
  }

  /** The written tag is found under `type`, and it names the variant. */
  lemma TagWritten(w: WorkoutStep)
    ensures Find(Serialize(w).fields, "type") == Found(JString(Tag(w)))
    ensures Tag(w) == ExecutableSteps.ExecutableStepTag <==> w.ExecutableStep?
  {
    match w
    case ExecutableStep(s) => ExecutableSteps.FieldsReadBack(s, 0);
    case RepeatGroup(g) => RepeatGroups.FieldsReadBack(g, 0);
  }

  /** Reading back a written workout step recovers its variant and its
      contents. */
  lemma {:induction false} RoundTrip(w: WorkoutStep)
    ensures Deserialize(Serialize(w)) == Some(w)
  {
    TagWritten(w);
    match w
    case ExecutableStep(s) => ExecutableSteps.RoundTrip(s);
    case RepeatGroup(g) => RepeatGroups.RoundTrip(g);
  }
}
