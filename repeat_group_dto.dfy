/** A repeat group: a block of executable steps run a fixed number of times.
    Building a group stamps the group's child-step id into every child; the
    group's own step kind, end condition and options are fixed. */
module RepeatGroups {
  import opened Base
  import opened Json
  import StepTypes
  import EndConditions
  import Units = PreferredEndConditionUnits
  import ExecutableSteps
  import StrokeTypes

  type Step = ExecutableSteps.ExecutableStepDTO

  /** A repeat group, its fields in the order the struct declares them (which
      is the order they are written in). */
  datatype RepeatGroupDTO = RepeatGroupDTO(
    stepId: U64,
    stepOrder: U8,
    stepType: StepTypes.StepType,
    childStepId: U8,
    numberOfIterations: U8,
    workoutSteps: seq<Step>,
    endConditionValue: real,
    preferredEndConditionUnit: Option<Units.PreferredEndConditionUnit>,
    endConditionCompare: Option<bool>,
    endCondition: EndConditions.EndCondition,
    skipLastRestStep: Option<bool>,
    smartRepeat: bool)

  /** Every child carries the link `id`. */
  predicate Stamped(steps: seq<Step>, id: U8) {
    forall i :: 0 <= i < |steps| ==> steps[i].childStepId == Some(id)
  }

  /** `after` is `before` with possibly different child links: same count,
      same order, every other field the same. */
  predicate SameExceptLinks(before: seq<Step>, after: seq<Step>) {
    && |after| == |before|
    && forall i :: 0 <= i < |before| ==> after[i] == before[i].(childStepId := after[i].childStepId)
  }

  /** The children after stamping: each child with its link set to `id`,
      nothing else changed. */
  function StampChildren(steps: seq<Step>, id: U8): (r: seq<Step>)
    ensures |r| == |steps|
    ensures forall i :: 0 <= i < |steps| ==> r[i] == steps[i].(childStepId := Some(id))
  {
    if steps == [] then [] else [steps[0].(childStepId := Some(id))] + StampChildren(steps[1..], id)
  }

  /** Stamping links every child and changes nothing else. */
  lemma StampChildrenStamps(steps: seq<Step>, id: U8)
    ensures Stamped(StampChildren(steps, id), id)
    ensures SameExceptLinks(steps, StampChildren(steps, id))
  {
  }

  /** Stamping twice with the same id is stamping once; a later stamp
      overrides an earlier one. */
  lemma {:induction false} StampChildrenOverrides(steps: seq<Step>, first: U8, second: U8)
    ensures StampChildren(StampChildren(steps, first), second) == StampChildren(steps, second)
  {
    var once := StampChildren(steps, second);
    var twice := StampChildren(StampChildren(steps, first), second);
    assert |twice| == |once|;
    forall i | 0 <= i < |once|
      ensures twice[i] == once[i]
    {
      assert StampChildren(steps, first)[i] == steps[i].(childStepId := Some(first));
    }
  }

  /** Children that are already stamped with `id` are left as they are. */
  lemma {:induction false} StampChildrenFixed(steps: seq<Step>, id: U8)
    requires Stamped(steps, id)
    ensures StampChildren(steps, id) == steps
  {
    var r := StampChildren(steps, id);
    forall i | 0 <= i < |steps|
      ensures r[i] == steps[i]
    {
      assert steps[i].childStepId == Some(id);
    }
  }

  /** The group a constructor builds around already-stamped children. */
  function Assembled(stepId: U64, stepOrder: U8, childStepId: U8, numberOfIterations: U8, children: seq<Step>)
    : (g: RepeatGroupDTO)
    ensures g.stepId == stepId && g.stepOrder == stepOrder
    ensures g.childStepId == childStepId && g.numberOfIterations == numberOfIterations
    ensures g.workoutSteps == children
  {
    RepeatGroupDTO(
      stepId, stepOrder, StepTypes.StepType(StepTypes.Repeat), childStepId, numberOfIterations, children,
      numberOfIterations as real, None, None, EndConditions.EndCondition(EndConditions.Iterations, false),
      None, false)
  }

  /** What holds of every group the constructor builds: step kind repeat
      (id 6), an iterations end condition (id 7) that is not displayable, the
      iteration count as end-condition value, no preferred unit, comparison
      or rest-skipping, no smart repeat, and every child linked to the
      group's child-step id. */
  predicate GroupInvariant(g: RepeatGroupDTO) {
    && g.stepType.stepTypeKey == StepTypes.Repeat
    && g.endCondition == EndConditions.EndCondition(EndConditions.Iterations, false)
    && g.endConditionValue == g.numberOfIterations as real
    && g.preferredEndConditionUnit.None?
    && g.endConditionCompare.None?
    && g.skipLastRestStep.None?
    && !g.smartRepeat
    && Stamped(g.workoutSteps, g.childStepId)
  }

  /** A group assembled around stamped children keeps the invariant, and its
      step kind and end condition have the wire ids 6 and 7. */
  lemma AssembledInvariant(stepId: U64, stepOrder: U8, childStepId: U8, numberOfIterations: U8, steps: seq<Step>)
    ensures var g := Assembled(stepId, stepOrder, childStepId, numberOfIterations, StampChildren(steps, childStepId));
            && GroupInvariant(g)
            && StepTypes.StepTypeId(g.stepType) == 6
            && EndConditions.ConditionTypeId(g.endCondition) == 7
            && SameExceptLinks(steps, g.workoutSteps)
  {
    StampChildrenStamps(steps, childStepId);
  }

  /** The constructor: the children are taken over and each child's link is
      overwritten in turn with the group's child-step id; then the group is
      built around them. */
  method New(stepId: U64, stepOrder: U8, childStepId: U8, numberOfIterations: U8, workoutSteps: seq<Step>)
    returns (g: RepeatGroupDTO)
    ensures g == Assembled(stepId, stepOrder, childStepId, numberOfIterations, StampChildren(workoutSteps, childStepId))
    ensures GroupInvariant(g)
    ensures SameExceptLinks(workoutSteps, g.workoutSteps)
  {
    var steps := workoutSteps;
    var i := 0;
    while i < |steps|
      invariant 0 <= i <= |steps| == |workoutSteps|
      invariant forall k :: 0 <= k < i ==> steps[k] == workoutSteps[k].(childStepId := Some(childStepId))
      invariant forall k :: i <= k < |steps| ==> steps[k] == workoutSteps[k]
    {
      steps := steps[i := steps[i].(childStepId := Some(childStepId))];
      i := i + 1;
    }
    assert steps == StampChildren(workoutSteps, childStepId);
    g := Assembled(stepId, stepOrder, childStepId, numberOfIterations, steps);
    AssembledInvariant(stepId, stepOrder, childStepId, numberOfIterations, workoutSteps);
  }

  // Wire form.

  /** Every executable step reads back as written. */
  lemma StepCodec()
    ensures forall s: Step :: ExecutableSteps.Deserialize(ExecutableSteps.Serialize(s)) == Some(s)
  {
    forall s: Step
      ensures ExecutableSteps.Deserialize(ExecutableSteps.Serialize(s)) == Some(s)
    {
      ExecutableSteps.RoundTrip(s);
    }
  }

  /** The children, written as an array of executable steps. */
  function WriteSteps(steps: seq<Step>): Json {
    JArray(WriteArray(steps, ExecutableSteps.Serialize))
  }

  /** The children read back in order, as long as each is readable. */
  lemma ReadWriteSteps(steps: seq<Step>)
    ensures ReadSteps(WriteSteps(steps)) == Some(steps)
  {
    StepCodec();
    ArrayRoundTrip(steps, ExecutableSteps.Serialize, ExecutableSteps.Deserialize);
  }

  /** The children read from a JSON array: every element as an executable
      step, in order. */
  function ReadSteps(v: Json): (r: Option<seq<Step>>)
    ensures r.Some? ==> v.JArray? && |r.value| == |v.items|
    ensures r.Some? ==> forall i :: 0 <= i < |v.items| ==> ExecutableSteps.Deserialize(v.items[i]) == Some(r.value[i])
  {
    if v.JArray? then ReadArray(v.items, ExecutableSteps.Deserialize) else None
  }

  /** The wire names of a repeat group's fields, in emission order. */
  const RepeatGroupFields: seq<string> := [
    "type", "stepId", "stepOrder", "stepType", "childStepId", "numberOfIterations", "workoutSteps",
    "endConditionValue", "preferredEndConditionUnit", "endConditionCompare", "endCondition",
    "skipLastRestStep", "smartRepeat"]

  /** The wire discriminator of a repeat group. */
  const RepeatGroupTag := "RepeatGroupDTO"

  lemma RepeatGroupFieldsDistinct()
    ensures Distinct(RepeatGroupFields)
  {
  }

  /** The values written for a group, one per field name: the tag, then two
      groups of six. */
  function Values(g: RepeatGroupDTO): (v: seq<Json>)
    ensures |v| == |RepeatGroupFields|
  {
    [JString(RepeatGroupTag)] + HeadValues(g) + TailValues(g)
  }

  /** The values of stepId through workoutSteps. */
  function HeadValues(g: RepeatGroupDTO): (v: seq<Json>)
    ensures |v| == 6
  {
    [ JInt(g.stepId),
      JInt(g.stepOrder),
      StepTypes.Serialize(g.stepType),
      JInt(g.childStepId),
      JInt(g.numberOfIterations),
      WriteSteps(g.workoutSteps) ]
  }

  /** The values of endConditionValue through smartRepeat. */
  function TailValues(g: RepeatGroupDTO): (v: seq<Json>)
    ensures |v| == 6
  {
    [ JFloat(g.endConditionValue),
      Nullable(g.preferredEndConditionUnit, Units.Serialize),
      Nullable(g.endConditionCompare, WriteBool),
      EndConditions.Serialize(g.endCondition),
      Nullable(g.skipLastRestStep, WriteBool),
      JBool(g.smartRepeat) ]
  }

  /** The derived serialiser: the tag, then every field in declaration
      order, the children as an array of executable steps. */
  function Serialize(g: RepeatGroupDTO): (j: Json)
    ensures j.JObject? && Keys(j.fields) == RepeatGroupFields
    ensures j.fields[0].1 == JString(RepeatGroupTag)
  {
    KeysZip(RepeatGroupFields, Values(g));
    JObject(Zip(RepeatGroupFields, Values(g)))
  }

  /** The derived deserialiser: every field is read by name, the tag is not
      consulted; a missing, repeated or ill-shaped field fails the read. */
  function Deserialize(j: Json): (r: Option<RepeatGroupDTO>)
    ensures r.Some? ==> j.JObject?
    ensures r.Some? ==> Find(j.fields, "stepId") == Found(JInt(r.value.stepId))
  {
    if !j.JObject? then None
    else
      var f := j.fields;
      var stepId := RequiredField(f, "stepId", ReadU64);
      var stepOrder := RequiredField(f, "stepOrder", ReadU8);
      var stepType := RequiredField(f, "stepType", StepTypes.Deserialize);
      var childStepId := RequiredField(f, "childStepId", ReadU8);
      var iterations := RequiredField(f, "numberOfIterations", ReadU8);
      var steps := RequiredField(f, "workoutSteps", ReadSteps);
      var value := RequiredField(f, "endConditionValue", ReadF32);
      var unit := OptionalField(f, "preferredEndConditionUnit", Units.Deserialize);
      var compare := OptionalField(f, "endConditionCompare", ReadBool);
      var endCondition := RequiredField(f, "endCondition", EndConditions.Deserialize);
      var skip := OptionalField(f, "skipLastRestStep", ReadBool);
      var smart := RequiredField(f, "smartRepeat", ReadBool);
      if && stepId.Some? && stepOrder.Some? && stepType.Some? && childStepId.Some? && iterations.Some?
         && steps.Some? && value.Some? && unit.Some? && compare.Some? && endCondition.Some? && skip.Some?
         && smart.Some?
      then Some(RepeatGroupDTO(
        stepId.value, stepOrder.value, stepType.value, childStepId.value, iterations.value, steps.value,
        value.value, unit.value, compare.value, endCondition.value, skip.value, smart.value))
      else None
  }

  /** Every field written is read back under its own name. */
  lemma {:induction false} FieldsReadBack(g: RepeatGroupDTO, k: nat)
    requires k < |RepeatGroupFields|
    ensures Find(Serialize(g).fields, RepeatGroupFields[k]) == Found(Values(g)[k])
  {
    RepeatGroupFieldsDistinct();
    ZipFind(RepeatGroupFields, Values(g), k);
  }

  /** A required field reads back as the value its reader recovers. */
  lemma RequiredReadBack<T>(g: RepeatGroupDTO, k: nat, name: string, x: T, read: Json -> Option<T>)
    requires k < |RepeatGroupFields| && RepeatGroupFields[k] == name
    requires read(Values(g)[k]) == Some(x)
    ensures RequiredField(Serialize(g).fields, name, read) == Some(x)
  {
    RepeatGroupFieldsDistinct();
    RequiredAt(RepeatGroupFields, Values(g), k, read, x);
  }

  /** An optional field reads back as `None` from `null`, else as its reader recovers it. */
  lemma OptionalReadBack<T>(g: RepeatGroupDTO, k: nat, name: string, o: Option<T>, read: Json -> Option<T>)
    requires k < |RepeatGroupFields| && RepeatGroupFields[k] == name
    requires o.None? ==> Values(g)[k] == JNull
    requires o.Some? ==> Values(g)[k] != JNull && read(Values(g)[k]) == Some(o.value)
    ensures OptionalField(Serialize(g).fields, name, read) == Some(o)
  {
    RepeatGroupFieldsDistinct();
    OptionalAt(RepeatGroupFields, Values(g), k, read, o);
  }

  /** Reading back a written group recovers it exactly, children included. */
  lemma {:induction false} RoundTrip(g: RepeatGroupDTO)
    ensures Deserialize(Serialize(g)) == Some(g)
  {
    ReadBackStepId(g);
    ReadBackStepOrder(g);
    ReadBackStepType(g);
    ReadBackChildStepId(g);
    ReadBackNumberOfIterations(g);
    ReadBackWorkoutSteps(g);
    ReadBackEndConditionValue(g);
    ReadBackPreferredEndConditionUnit(g);
    ReadBackEndConditionCompare(g);
    ReadBackEndCondition(g);
    ReadBackSkipLastRestStep(g);
    ReadBackSmartRepeat(g);
  }

  lemma ReadBackStepId(g: RepeatGroupDTO)
    ensures RequiredField(Serialize(g).fields, "stepId", ReadU64) == Some(g.stepId)
  {
    assert Values(g)[1] == HeadValues(g)[0];
    RequiredReadBack(g, 1, "stepId", g.stepId, ReadU64);
  }

  lemma ReadBackStepOrder(g: RepeatGroupDTO)
    ensures RequiredField(Serialize(g).fields, "stepOrder", ReadU8) == Some(g.stepOrder)
  {
    assert Values(g)[2] == HeadValues(g)[1];
    RequiredReadBack(g, 2, "stepOrder", g.stepOrder, ReadU8);
  }

  lemma ReadBackStepType(g: RepeatGroupDTO)
    ensures RequiredField(Serialize(g).fields, "stepType", StepTypes.Deserialize) == Some(g.stepType)
  {
    StepTypes.RoundTrip(g.stepType);
    assert Values(g)[3] == HeadValues(g)[2];
    RequiredReadBack(g, 3, "stepType", g.stepType, StepTypes.Deserialize);
  }

  lemma ReadBackChildStepId(g: RepeatGroupDTO)
    ensures RequiredField(Serialize(g).fields, "childStepId", ReadU8) == Some(g.childStepId)
  {
    assert Values(g)[4] == HeadValues(g)[3];
    RequiredReadBack(g, 4, "childStepId", g.childStepId, ReadU8);
  }

  lemma ReadBackNumberOfIterations(g: RepeatGroupDTO)
    ensures RequiredField(Serialize(g).fields, "numberOfIterations", ReadU8) == Some(g.numberOfIterations)
  {
    assert Values(g)[5] == HeadValues(g)[4];
    RequiredReadBack(g, 5, "numberOfIterations", g.numberOfIterations, ReadU8);
  }

  lemma ReadBackWorkoutSteps(g: RepeatGroupDTO)
    ensures RequiredField(Serialize(g).fields, "workoutSteps", ReadSteps) == Some(g.workoutSteps)
  {
    assert Values(g)[6] == HeadValues(g)[5] == WriteSteps(g.workoutSteps);
    ReadWriteSteps(g.workoutSteps);
    RequiredReadBack(g, 6, "workoutSteps", g.workoutSteps, ReadSteps);
  }

  lemma ReadBackEndConditionValue(g: RepeatGroupDTO)
    ensures RequiredField(Serialize(g).fields, "endConditionValue", ReadF32) == Some(g.endConditionValue)
  {
    assert Values(g)[7] == TailValues(g)[0];
    RequiredReadBack(g, 7, "endConditionValue", g.endConditionValue, ReadF32);
  }

  lemma ReadBackPreferredEndConditionUnit(g: RepeatGroupDTO)
    ensures OptionalField(Serialize(g).fields, "preferredEndConditionUnit", Units.Deserialize) == Some(g.preferredEndConditionUnit)
  {
    if g.preferredEndConditionUnit.Some? {
      Units.RoundTrip(g.preferredEndConditionUnit.value);
    }
    assert Values(g)[8] == TailValues(g)[1];
    OptionalReadBack(g, 8, "preferredEndConditionUnit", g.preferredEndConditionUnit, Units.Deserialize);
  }

  lemma ReadBackEndConditionCompare(g: RepeatGroupDTO)
    ensures OptionalField(Serialize(g).fields, "endConditionCompare", ReadBool) == Some(g.endConditionCompare)
  {
    assert Values(g)[9] == TailValues(g)[2];
    OptionalReadBack(g, 9, "endConditionCompare", g.endConditionCompare, ReadBool);
  }

  lemma ReadBackEndCondition(g: RepeatGroupDTO)
    ensures RequiredField(Serialize(g).fields, "endCondition", EndConditions.Deserialize) == Some(g.endCondition)
  {
    EndConditions.RoundTrip(g.endCondition);
    assert Values(g)[10] == TailValues(g)[3];
    RequiredReadBack(g, 10, "endCondition", g.endCondition, EndConditions.Deserialize);
  }

  lemma ReadBackSkipLastRestStep(g: RepeatGroupDTO)
    ensures OptionalField(Serialize(g).fields, "skipLastRestStep", ReadBool) == Some(g.skipLastRestStep)
  {
    assert Values(g)[11] == TailValues(g)[4];
    OptionalReadBack(g, 11, "skipLastRestStep", g.skipLastRestStep, ReadBool);
  }

  lemma ReadBackSmartRepeat(g: RepeatGroupDTO)
    ensures RequiredField(Serialize(g).fields, "smartRepeat", ReadBool) == Some(g.smartRepeat)
  {
    assert Values(g)[12] == TailValues(g)[5];
    RequiredReadBack(g, 12, "smartRepeat", g.smartRepeat, ReadBool);
  }

  lemma GroupLinkWritten(g: RepeatGroupDTO)
    ensures Find(Serialize(g).fields, "childStepId") == Found(JInt(g.childStepId))
  {
    FieldsReadBack(g, 4);
    assert Values(g)[4] == HeadValues(g)[3];
  }

  /** In the wire form of a group that keeps the invariant, every child's
      `childStepId` field holds the same number as the group's own. */
  lemma {:induction false} ChildLinksWritten(g: RepeatGroupDTO)
    requires GroupInvariant(g)
    ensures Find(Serialize(g).fields, "childStepId") == Found(JInt(g.childStepId))
    ensures forall i :: 0 <= i < |g.workoutSteps| ==>
              && WriteSteps(g.workoutSteps).items[i].JObject?
              && Find(WriteSteps(g.workoutSteps).items[i].fields, "childStepId") == Found(JInt(g.childStepId))
  {
    GroupLinkWritten(g);
    forall i | 0 <= i < |g.workoutSteps|
      ensures && WriteSteps(g.workoutSteps).items[i].JObject?
              && Find(WriteSteps(g.workoutSteps).items[i].fields, "childStepId") == Found(JInt(g.childStepId))
    {
      assert g.workoutSteps[i].childStepId == Some(g.childStepId);
      assert WriteSteps(g.workoutSteps).items[i] == ExecutableSteps.Serialize(g.workoutSteps[i]);
      ExecutableSteps.LinkWritten(g.workoutSteps[i]);
    }
  }

  // The fixtures.

  /** The single-child fixture: a 400 m freestyle warm-up at order 3 in a
      group of eight repetitions. */
  function WarmupChild(): Step {
    ExecutableSteps.ActiveStep(9615001364, 3, StepTypes.StepType(StepTypes.Warmup), None, None,
                               EndConditions.EndCondition(EndConditions.Distance, true), 400.0, None,
                               StrokeTypes.StrokeType(Some(StrokeTypes.Free)))
  }

  /** Building that group stores its numbers and links the child to 1. */
  lemma BuildGroupFixture()
    ensures var g := Assembled(9615001366, 3, 1, 8, StampChildren([WarmupChild()], 1));
            && g.stepId == 9615001366 && g.stepOrder == 3 && g.childStepId == 1 && g.numberOfIterations == 8
            && |g.workoutSteps| == 1 && g.workoutSteps[0].childStepId == Some(1)
  {
  }

  /** The two children of the wire fixture: a 100 m freestyle main step and a
      15-unit fixed rest. */
  function FixtureChildren(): seq<Step> {
    [ ExecutableSteps.ActiveStep(9615001367, 4, StepTypes.StepType(StepTypes.Main), None, None,
                                 EndConditions.EndCondition(EndConditions.Distance, true), 100.0, None,
                                 StrokeTypes.StrokeType(Some(StrokeTypes.Free))),
      ExecutableSteps.RestStep(9615001368, 5, None, None,
                               EndConditions.EndCondition(EndConditions.FixedRest, true), 15.0) ]
  }

  /** The group of the wire fixture: eight repetitions of the two children. */
  function FixtureGroup(): RepeatGroupDTO {
    Assembled(9615001366, 3, 1, 8, StampChildren(FixtureChildren(), 1))
  }

  /** The values the main child is written with, once linked to 1. */
  const MainChildValues: seq<Json> := [
    JString("ExecutableStepDTO")]
    + [JInt(9615001367), JInt(4),
       JObject([("stepTypeId", JInt(8)), ("stepTypeKey", JString("main")), ("displayOrder", JInt(8))]),
       JInt(1), JNull]
    + [JObject([("conditionTypeId", JInt(3)), ("conditionTypeKey", JString("distance")),
                ("displayOrder", JInt(3)), ("displayable", JBool(true))]),
       JFloat(100.0),
       JObject([("unitId", JInt(1)), ("unitKey", JString("meter")), ("factor", JFloat(100.0))]),
       JNull]
    + [JObject([("workoutTargetTypeId", JInt(1)), ("workoutTargetTypeKey", JString("no.target")),
                ("displayOrder", JInt(1))]),
       JNull, JNull, JNull, JNull]
    + [JNull, JNull, JNull, JNull, JNull, JNull]
    + [JObject([("strokeTypeId", JInt(6)), ("strokeTypeKey", JString("free")), ("displayOrder", JInt(6))]),
       JObject([("equipmentTypeId", JInt(0)), ("equipmentTypeKey", JNull), ("displayOrder", JInt(0))]),
       JNull, JNull, JNull, JNull, JNull, JNull]

  /** The values the rest child is written with, once linked to 1: no
      preferred unit, no stroke (id 0, key `null`). */
  const RestChildValues: seq<Json> := [
    JString("ExecutableStepDTO")]
    + [JInt(9615001368), JInt(5),
       JObject([("stepTypeId", JInt(5)), ("stepTypeKey", JString("rest")), ("displayOrder", JInt(5))]),
       JInt(1), JNull]
    + [JObject([("conditionTypeId", JInt(8)), ("conditionTypeKey", JString("fixed.rest")),
                ("displayOrder", JInt(8)), ("displayable", JBool(true))]),
       JFloat(15.0),
       JNull,
       JNull]
    + [JObject([("workoutTargetTypeId", JInt(1)), ("workoutTargetTypeKey", JString("no.target")),
                ("displayOrder", JInt(1))]),
       JNull, JNull, JNull, JNull]
    + [JNull, JNull, JNull, JNull, JNull, JNull]
    + [JObject([("strokeTypeId", JInt(0)), ("strokeTypeKey", JNull), ("displayOrder", JInt(0))]),
       JObject([("equipmentTypeId", JInt(0)), ("equipmentTypeKey", JNull), ("displayOrder", JInt(0))]),
       JNull, JNull, JNull, JNull, JNull, JNull]

  /** The values the fixture group is written with. */
  const FixtureGroupValues: seq<Json> := [
    JString("RepeatGroupDTO"),
    JInt(9615001366),
    JInt(3),
    JObject([("stepTypeId", JInt(6)), ("stepTypeKey", JString("repeat")), ("displayOrder", JInt(6))]),
    JInt(1),
    JInt(8),
    JArray([JObject(Zip(ExecutableSteps.ExecutableStepFields, MainChildValues)),
            JObject(Zip(ExecutableSteps.ExecutableStepFields, RestChildValues))]),
    JFloat(8.0),
    JNull,
    JNull,
    JObject([("conditionTypeId", JInt(7)), ("conditionTypeKey", JString("iterations")),
             ("displayOrder", JInt(7)), ("displayable", JBool(false))]),
    JNull,
    JBool(false)]

  lemma MainChildWritten()
    ensures ExecutableSteps.Serialize(StampChildren(FixtureChildren(), 1)[0])
         == JObject(Zip(ExecutableSteps.ExecutableStepFields, MainChildValues))
  {
    var c := StampChildren(FixtureChildren(), 1)[0];
    assert ExecutableSteps.IdentityValues(c) == MainChildValues[1..6];
    assert ExecutableSteps.EndValues(c) == MainChildValues[6..10];
    assert ExecutableSteps.PrimaryTargetValues(c) == MainChildValues[10..15];
    assert ExecutableSteps.SecondaryTargetValues(c) == MainChildValues[15..21];
    assert ExecutableSteps.ExerciseValues(c) == MainChildValues[21..];
    assert ExecutableSteps.Values(c) == MainChildValues;
  }

  lemma RestChildWritten()
    ensures ExecutableSteps.Serialize(StampChildren(FixtureChildren(), 1)[1])
         == JObject(Zip(ExecutableSteps.ExecutableStepFields, RestChildValues))
  {
    var c := StampChildren(FixtureChildren(), 1)[1];
    assert ExecutableSteps.IdentityValues(c) == RestChildValues[1..6];
    assert ExecutableSteps.EndValues(c) == RestChildValues[6..10];
    assert ExecutableSteps.PrimaryTargetValues(c) == RestChildValues[10..15];
    assert ExecutableSteps.SecondaryTargetValues(c) == RestChildValues[15..21];
    assert ExecutableSteps.ExerciseValues(c) == RestChildValues[21..];
    assert ExecutableSteps.Values(c) == RestChildValues;
  }

  /** The serialiser's fixture: the group is written with step kind repeat
      (id 6), link 1, eight iterations as the end-condition value 8.0, both
      children linked to 1, a non-displayable iterations end condition (id 7)
      and `null`/`false` for the remaining options. */
  lemma SerializeFixtureGroup()
    ensures Serialize(FixtureGroup()) == JObject(Zip(RepeatGroupFields, FixtureGroupValues))
  {
    var g := FixtureGroup();
    FixtureHeadWritten();
    FixtureTailWritten();
    assert Values(g) == FixtureGroupValues;
  }

  lemma FixtureHeadWritten()
    ensures HeadValues(FixtureGroup()) == FixtureGroupValues[1..7]
  {
    var g := FixtureGroup();
    MainChildWritten();
    RestChildWritten();
    assert WriteSteps(g.workoutSteps).items == FixtureGroupValues[6].items;
  }

  lemma FixtureTailWritten()
    ensures TailValues(FixtureGroup()) == FixtureGroupValues[7..]
  {
  }

  /** The deserialiser's fixture: the same object reads back as the group,
      with two children of which the second is linked to 1. */
  lemma DeserializeFixtureGroup()
    ensures var r := Deserialize(JObject(Zip(RepeatGroupFields, FixtureGroupValues)));
            && r == Some(FixtureGroup())
            && r.value.stepId == 9615001366
            && |r.value.workoutSteps| == 2 && r.value.workoutSteps[1].childStepId == Some(1)
  {
    SerializeFixtureGroup();
    RoundTrip(FixtureGroup());
  }
}
