/** A single executable workout step as the platform's import schema spells
    it, its constructors, and its wire form. The constructors take a few
    inputs and fill every derived or default field; the child-step link is a
    plain field that a repeat group overwrites later. */
module ExecutableSteps {
  import opened Base
  import opened Json
  import StepTypes
  import EndConditions
  import StrokeTypes
  import TargetTypes
  import Units = PreferredEndConditionUnits

  /** The equipment object. Its numbers are stored, not computed. */
  datatype EquipmentType = EquipmentType(equipmentTypeId: U8, equipmentTypeKey: Option<string>, displayOrder: U8)

  /** The default equipment: id 0, no key, display order 0. */
  function DefaultEquipment(): (e: EquipmentType)
    ensures e.equipmentTypeId == 0 && e.equipmentTypeKey.None? && e.displayOrder == 0
  {
    EquipmentType(0, None, 0)
  }

  const EquipmentFields: seq<string> := ["equipmentTypeId", "equipmentTypeKey", "displayOrder"]

  /** The derived serialiser of the equipment object: its fields in
      declaration order. */
  function SerializeEquipment(e: EquipmentType): (j: Json)
    ensures j.JObject? && Keys(j.fields) == EquipmentFields
  {
    JObject([
      ("equipmentTypeId", JInt(e.equipmentTypeId)),
      ("equipmentTypeKey", Nullable(e.equipmentTypeKey, WriteString)),
      ("displayOrder", JInt(e.displayOrder))])
  }

  /** The derived deserialiser of the equipment object: each field by name,
      the key as an `Option`. */
  function DeserializeEquipment(j: Json): (r: Option<EquipmentType>)
    ensures r.Some? ==> j.JObject?
    ensures r.Some? ==> Find(j.fields, "equipmentTypeId") == Found(JInt(r.value.equipmentTypeId))
    ensures r.Some? ==> Find(j.fields, "displayOrder") == Found(JInt(r.value.displayOrder))
    ensures r.Some? && r.value.equipmentTypeKey.Some? ==>
              Find(j.fields, "equipmentTypeKey") == Found(JString(r.value.equipmentTypeKey.value))
    ensures r.Some? && r.value.equipmentTypeKey.None? ==>
              Find(j.fields, "equipmentTypeKey") in {Missing, Found(JNull)}
  {
    if !j.JObject? then None
    else
      var id := RequiredField(j.fields, "equipmentTypeId", ReadU8);
      var key := OptionalField(j.fields, "equipmentTypeKey", ReadString);
      var order := RequiredField(j.fields, "displayOrder", ReadU8);
      if id.Some? && key.Some? && order.Some? then Some(EquipmentType(id.value, key.value, order.value)) else None
  }

  /** Conversely, any object whose two numbers are found once as in-range
      integers and whose key is missing, `null` or found once as a string
      reads as that equipment, whatever other fields it has. */
  lemma DeserializeEquipmentAccepts(j: Json, e: EquipmentType)
    requires j.JObject?
    requires Find(j.fields, "equipmentTypeId") == Found(JInt(e.equipmentTypeId))
    requires Find(j.fields, "displayOrder") == Found(JInt(e.displayOrder))
    requires e.equipmentTypeKey.Some? ==> Find(j.fields, "equipmentTypeKey") == Found(JString(e.equipmentTypeKey.value))
    requires e.equipmentTypeKey.None? ==> Find(j.fields, "equipmentTypeKey") in {Missing, Found(JNull)}
    ensures DeserializeEquipment(j) == Some(e)
  {
  }

  lemma {:induction false} EquipmentRoundTrip(e: EquipmentType)
    ensures DeserializeEquipment(SerializeEquipment(e)) == Some(e)
  {
    var fields := SerializeEquipment(e).fields;
    FindDistinct(fields, 0);
    FindDistinct(fields, 1);
    FindDistinct(fields, 2);
  }

  /** An executable step, its fields in the order the struct declares them
      (which is the order they are written in). `f32` values are reals. */
  datatype ExecutableStepDTO = ExecutableStepDTO(
    stepId: U64,
    stepOrder: U8,
    stepType: StepTypes.StepType,
    childStepId: Option<U8>,
    description: Option<string>,
    endCondition: EndConditions.EndCondition,
    endConditionValue: real,
    preferredEndConditionUnit: Option<Units.PreferredEndConditionUnit>,
    endConditionCompare: Option<bool>,
    targetType: TargetTypes.TargetType,
    targetValueOne: Option<real>,
    targetValueTwo: Option<real>,
    targetValueUnit: Option<string>,
    zoneNumber: Option<U8>,
    secondaryTargetType: Option<TargetTypes.TargetType>,
    secondaryTargetValueOne: Option<real>,
    secondaryTargetValueTwo: Option<real>,
    secondaryTargetValueUnit: Option<string>,
    secondaryZoneNumber: Option<U8>,
    endConditionZone: Option<string>,
    strokeType: StrokeTypes.StrokeType,
    equipmentType: EquipmentType,
    category: Option<string>,
    exerciseName: Option<string>,
    workoutProvider: Option<string>,
    providerExerciseSourceId: Option<U32>,
    weightValue: Option<real>,
    weightUnit: Option<string>)

  /** Every optional field that the constructors do not take as input is
      absent: the comparison, the target values and unit, the zones, the whole
      secondary target, the end-condition zone, and the exercise metadata. */
  predicate NoOptionalMetadata(s: ExecutableStepDTO) {
    && s.endConditionCompare.None?
    && s.targetValueOne.None? && s.targetValueTwo.None? && s.targetValueUnit.None?
    && s.zoneNumber.None?
    && s.secondaryTargetType.None?
    && s.secondaryTargetValueOne.None? && s.secondaryTargetValueTwo.None? && s.secondaryTargetValueUnit.None?
    && s.secondaryZoneNumber.None?
    && s.endConditionZone.None?
    && s.category.None? && s.exerciseName.None?
    && s.workoutProvider.None? && s.providerExerciseSourceId.None?
    && s.weightValue.None? && s.weightUnit.None?
  }

  /** The general constructor. A missing target becomes the default "no
      target"; the preferred unit is present (the meter) exactly when the step
      is not a rest step; the equipment is the default; every other optional
      field is absent; everything else is stored as given. */
  function New(
    stepId: U64,
    stepOrder: U8,
    stepType: StepTypes.StepType,
    childStepId: Option<U8>,
    description: Option<string>,
    endCondition: EndConditions.EndCondition,
    endConditionValue: real,
    targetType: Option<TargetTypes.TargetType>,
    strokeType: StrokeTypes.StrokeType,
    isRestStep: bool): (r: ExecutableStepDTO)
    ensures r.stepId == stepId && r.stepOrder == stepOrder && r.stepType == stepType
    ensures r.childStepId == childStepId && r.description == description
    ensures r.endCondition == endCondition && r.endConditionValue == endConditionValue
    ensures r.strokeType == strokeType
    ensures targetType.Some? ==> r.targetType == targetType.value
    ensures targetType.None? ==> r.targetType.workoutTargetTypeKey == TargetTypes.NoTarget
    ensures r.preferredEndConditionUnit.None? <==> isRestStep
    ensures r.preferredEndConditionUnit.Some? ==>
              Units.UnitId(r.preferredEndConditionUnit.value) == 1 && Units.Factor(r.preferredEndConditionUnit.value) == 100.0
    ensures r.equipmentType == DefaultEquipment()
    ensures NoOptionalMetadata(r)
  {
    var targetTypeDefined := match targetType
      case None => TargetTypes.Default()
      case Some(t) => t;
    var preferredEndConditionUnit := if isRestStep then None else Some(Units.Default());
    ExecutableStepDTO(
      stepId, stepOrder, stepType, childStepId, description, endCondition, endConditionValue,
      preferredEndConditionUnit, None, targetTypeDefined, None, None, None, None,
      None, None, None, None, None, None,
      strokeType, DefaultEquipment(), None, None, None, None, None, None)
  }

  /** An active (non-rest) step: the general constructor with a preferred
      unit, which is the meter. */
  function ActiveStep(
    stepId: U64,
    stepOrder: U8,
    stepType: StepTypes.StepType,
    childStepId: Option<U8>,
    description: Option<string>,
    endCondition: EndConditions.EndCondition,
    endConditionValue: real,
    targetType: Option<TargetTypes.TargetType>,
    strokeType: StrokeTypes.StrokeType): (r: ExecutableStepDTO)
    ensures r == New(stepId, stepOrder, stepType, childStepId, description, endCondition, endConditionValue,
                     targetType, strokeType, false)
    ensures r.preferredEndConditionUnit == Some(Units.Default())
  {
    New(stepId, stepOrder, stepType, childStepId, description, endCondition, endConditionValue,
        targetType, strokeType, false)
  }

  /** A rest step: step kind rest (id 5), no stroke (id 0), no target given
      (so "no target"), and no preferred unit. */
  function RestStep(
    stepId: U64,
    stepOrder: U8,
    childStepId: Option<U8>,
    description: Option<string>,
    endCondition: EndConditions.EndCondition,
    endConditionValue: real): (r: ExecutableStepDTO)
    ensures r.stepType.stepTypeKey == StepTypes.Rest && StepTypes.StepTypeId(r.stepType) == 5
    ensures r.strokeType.strokeTypeKey.None? && StrokeTypes.StrokeTypeId(r.strokeType) == 0
    ensures r.targetType == TargetTypes.Default()
    ensures r.preferredEndConditionUnit.None?
    ensures r.stepId == stepId && r.stepOrder == stepOrder && r.childStepId == childStepId
    ensures r.description == description && r.endCondition == endCondition && r.endConditionValue == endConditionValue
    ensures r.equipmentType == DefaultEquipment() && NoOptionalMetadata(r)
  {
    New(stepId, stepOrder, StepTypes.StepType(StepTypes.Rest), childStepId, description, endCondition,
        endConditionValue, None, StrokeTypes.StrokeType(None), true)
  }

  /** A written step has `null` for its preferred unit exactly when it was
      built as a rest step; otherwise the unit object carries the factor 100. */
  lemma {:induction false} PreferredUnitNullIffRest(
    stepId: U64, stepOrder: U8, stepType: StepTypes.StepType, childStepId: Option<U8>,
    description: Option<string>, endCondition: EndConditions.EndCondition, endConditionValue: real,
    targetType: Option<TargetTypes.TargetType>, strokeType: StrokeTypes.StrokeType, isRestStep: bool)
    ensures var s := New(stepId, stepOrder, stepType, childStepId, description, endCondition, endConditionValue,
                         targetType, strokeType, isRestStep);
            var unit := Find(Serialize(s).fields, "preferredEndConditionUnit");
            && unit.Found?
            && (unit.value == JNull <==> isRestStep)
            && (!isRestStep ==> unit.value == Units.Serialize(Units.Default()) && unit.value.fields[2].1 == JFloat(100.0))
  {
    var s := New(stepId, stepOrder, stepType, childStepId, description, endCondition, endConditionValue,
                 targetType, strokeType, isRestStep);
    FieldsReadBack(s, 8);
  }

  /** A written step's `childStepId` field is the link it carries, `null`
      when it has none. */
  lemma LinkWritten(s: ExecutableStepDTO)
    ensures s.childStepId.None? ==> Find(Serialize(s).fields, "childStepId") == Found(JNull)
    ensures s.childStepId.Some? ==> Find(Serialize(s).fields, "childStepId") == Found(JInt(s.childStepId.value))
  {
    FieldsReadBack(s, 4);
  }

  /** The warm-up step of the fixtures: 400 m freestyle, no target given. */
  function WarmupStep(): ExecutableStepDTO {
    ActiveStep(9615001364, 1, StepTypes.StepType(StepTypes.Warmup), None, None,
               EndConditions.EndCondition(EndConditions.Distance, true), 400.0, None,
               StrokeTypes.StrokeType(Some(StrokeTypes.Free)))
  }

  /** The constructor fixture: ids stored, and the missing target became
      "no target", id 1. */
  lemma WarmupStepFields()
    ensures WarmupStep().stepId == 9615001364 && WarmupStep().stepOrder == 1
    ensures TargetTypes.WorkoutTargetTypeId(WarmupStep().targetType) == 1
  {
  }

  /** The values the warm-up step is written with, one per field name. */
  const WarmupStepValues: seq<Json> := [
    JString("ExecutableStepDTO")]
    + [JInt(9615001364), JInt(1),
       JObject([("stepTypeId", JInt(1)), ("stepTypeKey", JString("warmup")), ("displayOrder", JInt(1))]),
       JNull, JNull]
    + [JObject([("conditionTypeId", JInt(3)), ("conditionTypeKey", JString("distance")),
                ("displayOrder", JInt(3)), ("displayable", JBool(true))]),
       JFloat(400.0),
       JObject([("unitId", JInt(1)), ("unitKey", JString("meter")), ("factor", JFloat(100.0))]),
       JNull]
    + [JObject([("workoutTargetTypeId", JInt(1)), ("workoutTargetTypeKey", JString("no.target")),
                ("displayOrder", JInt(1))]),
       JNull, JNull, JNull, JNull]
    + [JNull, JNull, JNull, JNull, JNull, JNull]
    + [JObject([("strokeTypeId", JInt(6)), ("strokeTypeKey", JString("free")), ("displayOrder", JInt(6))]),
       JObject([("equipmentTypeId", JInt(0)), ("equipmentTypeKey", JNull), ("displayOrder", JInt(0))]),
       JNull, JNull, JNull, JNull, JNull, JNull]

  /** The serialiser's fixture: the warm-up step is written as the tag
      "ExecutableStepDTO", step kind id 1, a distance condition (id 3), a
      meter unit with factor 100, "no target", freestyle (id 6), the default
      equipment, and `null` everywhere else. */
  lemma SerializeWarmupStep()
    ensures Serialize(WarmupStep()) == JObject(Zip(ExecutableStepFields, WarmupStepValues))
  {
    var s := WarmupStep();
    assert IdentityValues(s) == WarmupStepValues[1..6];
    assert EndValues(s) == WarmupStepValues[6..10];
    assert PrimaryTargetValues(s) == WarmupStepValues[10..15];
    assert SecondaryTargetValues(s) == WarmupStepValues[15..21];
    assert ExerciseValues(s) == WarmupStepValues[21..];
    assert Values(s) == WarmupStepValues;
  }

  /** The deserialiser's fixture: the same object reads back as the warm-up
      step, with its ids and the default equipment key. */
  lemma DeserializeWarmupStep()
    ensures var r := Deserialize(JObject(Zip(ExecutableStepFields, WarmupStepValues)));
            && r == Some(WarmupStep())
            && r.value.stepId == 9615001364 && r.value.stepOrder == 1
            && r.value.equipmentType.equipmentTypeKey.None?
  {
    SerializeWarmupStep();
    RoundTrip(WarmupStep());
  }

  /** The wire names of an executable step's fields, in emission order: the
      tag and the step's identity, end condition and primary target ... */
  const LeadingFields: seq<string> := [
    "type", "stepId", "stepOrder", "stepType", "childStepId", "description", "endCondition",
    "endConditionValue", "preferredEndConditionUnit", "endConditionCompare", "targetType",
    "targetValueOne", "targetValueTwo", "targetValueUnit", "zoneNumber"]

  /** ... then the secondary target, stroke, equipment and exercise metadata. */
  const TrailingFields: seq<string> := [
    "secondaryTargetType", "secondaryTargetValueOne", "secondaryTargetValueTwo",
    "secondaryTargetValueUnit", "secondaryZoneNumber", "endConditionZone", "strokeType",
    "equipmentType", "category", "exerciseName", "workoutProvider", "providerExerciseSourceId",
    "weightValue", "weightUnit"]

  const ExecutableStepFields: seq<string> := LeadingFields + TrailingFields

  /** The wire discriminator of an executable step. */
  const ExecutableStepTag: string := "ExecutableStepDTO"

  lemma LeadingFieldsDistinct()
    ensures Distinct(LeadingFields)
  {
  }

  lemma TrailingFieldsDistinct()
    ensures Distinct(TrailingFields)
  {
  }

  lemma LeadingTrailingDisjoint()
    ensures Disjoint(LeadingFields, TrailingFields)
  {
  }

  /** No field name of an executable step is written twice. */
  lemma ExecutableStepFieldsDistinct()
    ensures Distinct(ExecutableStepFields)
  {
    LeadingFieldsDistinct();
    TrailingFieldsDistinct();
    LeadingTrailingDisjoint();
    DistinctConcat(LeadingFields, TrailingFields);
  }

  /** The derived serialiser: the `type` tag first, then every field in
      declaration order, absent values as `null`; the catalog sub-objects are
      written by their own serialisers. */
  function Serialize(s: ExecutableStepDTO): (j: Json)
    ensures j.JObject? && Keys(j.fields) == ExecutableStepFields
    ensures j.fields[0].1 == JString(ExecutableStepTag)
  {
    KeysZip(ExecutableStepFields, Values(s));
    JObject(Zip(ExecutableStepFields, Values(s)))
  }

  /** The values written, in field order: the tag, then five groups. */
  function Values(s: ExecutableStepDTO): (v: seq<Json>)
    ensures |v| == |ExecutableStepFields|
  {
    [JString(ExecutableStepTag)] + IdentityValues(s) + EndValues(s) + PrimaryTargetValues(s)
    + SecondaryTargetValues(s) + ExerciseValues(s)
  }

  /** The values of stepId through description. */
  function IdentityValues(s: ExecutableStepDTO): (v: seq<Json>)
    ensures |v| == 5
  {
    [
      JInt(s.stepId),
      JInt(s.stepOrder),
      StepTypes.Serialize(s.stepType),
      Nullable(s.childStepId, WriteU8),
      Nullable(s.description, WriteString)
    ]
  }

  /** The values of the end condition, its value, preferred unit and comparison flag. */
  function EndValues(s: ExecutableStepDTO): (v: seq<Json>)
    ensures |v| == 4
  {
    [
      EndConditions.Serialize(s.endCondition),
      JFloat(s.endConditionValue),
      Nullable(s.preferredEndConditionUnit, Units.Serialize),
      Nullable(s.endConditionCompare, WriteBool)
    ]
  }

  /** The values of the primary target. */
  function PrimaryTargetValues(s: ExecutableStepDTO): (v: seq<Json>)
    ensures |v| == 5
  {
    [
      TargetTypes.Serialize(s.targetType),
      Nullable(s.targetValueOne, WriteF32),
      Nullable(s.targetValueTwo, WriteF32),
      Nullable(s.targetValueUnit, WriteString),
      Nullable(s.zoneNumber, WriteU8)
    ]
  }

  /** The values of the secondary target and endConditionZone. */
  function SecondaryTargetValues(s: ExecutableStepDTO): (v: seq<Json>)
    ensures |v| == 6
  {
    [
      Nullable(s.secondaryTargetType, TargetTypes.Serialize),
      Nullable(s.secondaryTargetValueOne, WriteF32),
      Nullable(s.secondaryTargetValueTwo, WriteF32),
      Nullable(s.secondaryTargetValueUnit, WriteString),
      Nullable(s.secondaryZoneNumber, WriteU8),
      Nullable(s.endConditionZone, WriteString)
    ]
  }

  /** The values of stroke, equipment and exercise metadata. */
  function ExerciseValues(s: ExecutableStepDTO): (v: seq<Json>)
    ensures |v| == 8
  {
    [
      StrokeTypes.Serialize(s.strokeType),
      SerializeEquipment(s.equipmentType),
      Nullable(s.category, WriteString),
      Nullable(s.exerciseName, WriteString),
      Nullable(s.workoutProvider, WriteString),
      Nullable(s.providerExerciseSourceId, WriteU32),
      Nullable(s.weightValue, WriteF32),
      Nullable(s.weightUnit, WriteString)
    ]
  }

  /** The derived deserialiser: every field is read by name; the `type` tag,
      like any unknown field, is not consulted. Any field that is missing
      (and not an `Option`), repeated or of the wrong shape makes the whole
      read fail. The fields are read in five groups, in declaration order. */
  function Deserialize(j: Json): (r: Option<ExecutableStepDTO>)
    ensures r.Some? ==> j.JObject?
    ensures r.Some? ==> Find(j.fields, "stepId") == Found(JInt(r.value.stepId))
    ensures r.Some? ==> Find(j.fields, "stepOrder") == Found(JInt(r.value.stepOrder))
  {
    if !j.JObject? then None
    else
      var f := j.fields;
      match (ReadIdentity(f), ReadEnd(f), ReadPrimaryTarget(f), ReadSecondaryTarget(f), ReadExercise(f))
      case (Some(a), Some(b), Some(c), Some(d), Some(e)) =>
        Some(ExecutableStepDTO(
          a.0, a.1, a.2, a.3, a.4,
          b.0, b.1, b.2, b.3,
          c.0, c.1, c.2, c.3, c.4,
          d.0, d.1, d.2, d.3, d.4, d.5,
          e.0, e.1, e.2, e.3, e.4, e.5, e.6, e.7))
      case _ => None
  }

  /** stepId, stepOrder, stepType, childStepId, description. */
  function ReadIdentity(f: seq<(string, Json)>): (r: Option<(U64, U8, StepTypes.StepType, Option<U8>, Option<string>)>)
    ensures r.Some? ==> Find(f, "stepId") == Found(JInt(r.value.0)) && Find(f, "stepOrder") == Found(JInt(r.value.1))
  {
    var stepId := RequiredField(f, "stepId", ReadU64);
    var stepOrder := RequiredField(f, "stepOrder", ReadU8);
    var stepType := RequiredField(f, "stepType", StepTypes.Deserialize);
    var childStepId := OptionalField(f, "childStepId", ReadU8);
    var description := OptionalField(f, "description", ReadString);
    if stepId.Some? && stepOrder.Some? && stepType.Some? && childStepId.Some? && description.Some?
    then Some((stepId.value, stepOrder.value, stepType.value, childStepId.value, description.value))
    else None
  }

  /** endCondition, endConditionValue, preferredEndConditionUnit, endConditionCompare. */
  function ReadEnd(f: seq<(string, Json)>): Option<(EndConditions.EndCondition, real, Option<Units.PreferredEndConditionUnit>, Option<bool>)> {
    var endCondition := RequiredField(f, "endCondition", EndConditions.Deserialize);
    var endConditionValue := RequiredField(f, "endConditionValue", ReadF32);
    var unit := OptionalField(f, "preferredEndConditionUnit", Units.Deserialize);
    var compare := OptionalField(f, "endConditionCompare", ReadBool);
    if endCondition.Some? && endConditionValue.Some? && unit.Some? && compare.Some?
    then Some((endCondition.value, endConditionValue.value, unit.value, compare.value))
    else None
  }

  /** targetType, targetValueOne, targetValueTwo, targetValueUnit, zoneNumber. */
  function ReadPrimaryTarget(f: seq<(string, Json)>): Option<(TargetTypes.TargetType, Option<real>, Option<real>, Option<string>, Option<U8>)> {
    var targetType := RequiredField(f, "targetType", TargetTypes.Deserialize);
    var one := OptionalField(f, "targetValueOne", ReadF32);
    var two := OptionalField(f, "targetValueTwo", ReadF32);
    var unit := OptionalField(f, "targetValueUnit", ReadString);
    var zone := OptionalField(f, "zoneNumber", ReadU8);
    if targetType.Some? && one.Some? && two.Some? && unit.Some? && zone.Some?
    then Some((targetType.value, one.value, two.value, unit.value, zone.value))
    else None
  }

  /** The secondary target's five fields and endConditionZone. */
  function ReadSecondaryTarget(f: seq<(string, Json)>)
    : Option<(Option<TargetTypes.TargetType>, Option<real>, Option<real>, Option<string>, Option<U8>, Option<string>)>
  {
    var targetType := OptionalField(f, "secondaryTargetType", TargetTypes.Deserialize);
    var one := OptionalField(f, "secondaryTargetValueOne", ReadF32);
    var two := OptionalField(f, "secondaryTargetValueTwo", ReadF32);
    var unit := OptionalField(f, "secondaryTargetValueUnit", ReadString);
    var zone := OptionalField(f, "secondaryZoneNumber", ReadU8);
    var endConditionZone := OptionalField(f, "endConditionZone", ReadString);
    if targetType.Some? && one.Some? && two.Some? && unit.Some? && zone.Some? && endConditionZone.Some?
    then Some((targetType.value, one.value, two.value, unit.value, zone.value, endConditionZone.value))
    else None
  }

  /** strokeType, equipmentType and the exercise metadata. */
  function ReadExercise(f: seq<(string, Json)>)
    : Option<(StrokeTypes.StrokeType, EquipmentType, Option<string>, Option<string>, Option<string>, Option<U32>, Option<real>, Option<string>)>
  {
    var strokeType := RequiredField(f, "strokeType", StrokeTypes.Deserialize);
    var equipmentType := RequiredField(f, "equipmentType", DeserializeEquipment);
    var category := OptionalField(f, "category", ReadString);
    var exerciseName := OptionalField(f, "exerciseName", ReadString);
    var provider := OptionalField(f, "workoutProvider", ReadString);
    var sourceId := OptionalField(f, "providerExerciseSourceId", ReadU32);
    var weightValue := OptionalField(f, "weightValue", ReadF32);
    var weightUnit := OptionalField(f, "weightUnit", ReadString);
    if strokeType.Some? && equipmentType.Some? && category.Some? && exerciseName.Some? && provider.Some?
       && sourceId.Some? && weightValue.Some? && weightUnit.Some?
    then Some((strokeType.value, equipmentType.value, category.value, exerciseName.value, provider.value,
               sourceId.value, weightValue.value, weightUnit.value))
    else None
  }

  /** Every field written is read back under its own name. */
  lemma {:induction false} FieldsReadBack(s: ExecutableStepDTO, k: nat)
    requires k < |ExecutableStepFields|
    ensures Find(Serialize(s).fields, ExecutableStepFields[k]) == Found(Values(s)[k])
  {
    ExecutableStepFieldsDistinct();
    ZipFind(ExecutableStepFields, Values(s), k);
  }

  /** A required field reads back as the value its reader recovers. */
  lemma RequiredReadBack<T>(s: ExecutableStepDTO, k: nat, name: string, x: T, read: Json -> Option<T>)
    requires k < |ExecutableStepFields| && ExecutableStepFields[k] == name
    requires read(Values(s)[k]) == Some(x)
    ensures RequiredField(Serialize(s).fields, name, read) == Some(x)
  {
    ExecutableStepFieldsDistinct();
    RequiredAt(ExecutableStepFields, Values(s), k, read, x);
  }

  /** An optional field reads back as `None` from `null`, else as its reader recovers it. */
  lemma OptionalReadBack<T>(s: ExecutableStepDTO, k: nat, name: string, o: Option<T>, read: Json -> Option<T>)
    requires k < |ExecutableStepFields| && ExecutableStepFields[k] == name
    requires o.None? ==> Values(s)[k] == JNull
    requires o.Some? ==> Values(s)[k] != JNull && read(Values(s)[k]) == Some(o.value)
    ensures OptionalField(Serialize(s).fields, name, read) == Some(o)
  {
    ExecutableStepFieldsDistinct();
    OptionalAt(ExecutableStepFields, Values(s), k, read, o);
  }

  /** Reading back a written executable step recovers it exactly. */
  lemma {:induction false} RoundTrip(s: ExecutableStepDTO)
    ensures Deserialize(Serialize(s)) == Some(s)
  {
    ReadIdentityRoundTrip(s);
    ReadEndRoundTrip(s);
    ReadPrimaryTargetRoundTrip(s);
    ReadSecondaryTargetRoundTrip(s);
    ReadExerciseRoundTrip(s);
  }

  /** Reading the identity fields back recovers them. */
  lemma {:induction false} ReadIdentityRoundTrip(s: ExecutableStepDTO)
    ensures ReadIdentity(Serialize(s).fields) == Some((s.stepId, s.stepOrder, s.stepType, s.childStepId, s.description))
  {
    ReadBackStepId(s);
    ReadBackStepOrder(s);
    ReadBackStepType(s);
    ReadBackChildStepId(s);
    ReadBackDescription(s);
  }

  /** Reading the end-condition fields back recovers them. */
  lemma {:induction false} ReadEndRoundTrip(s: ExecutableStepDTO)
    ensures ReadEnd(Serialize(s).fields) == Some((s.endCondition, s.endConditionValue, s.preferredEndConditionUnit, s.endConditionCompare))
  {
    ReadBackEndCondition(s);
    ReadBackEndConditionValue(s);
    ReadBackPreferredEndConditionUnit(s);
    ReadBackEndConditionCompare(s);
  }

  /** Reading the primary target back recovers them. */
  lemma {:induction false} ReadPrimaryTargetRoundTrip(s: ExecutableStepDTO)
    ensures ReadPrimaryTarget(Serialize(s).fields) == Some((s.targetType, s.targetValueOne, s.targetValueTwo, s.targetValueUnit, s.zoneNumber))
  {
    ReadBackTargetType(s);
    ReadBackTargetValueOne(s);
    ReadBackTargetValueTwo(s);
    ReadBackTargetValueUnit(s);
    ReadBackZoneNumber(s);
  }

  /** Reading the secondary target back recovers them. */
  lemma {:induction false} ReadSecondaryTargetRoundTrip(s: ExecutableStepDTO)
    ensures ReadSecondaryTarget(Serialize(s).fields) == Some((s.secondaryTargetType, s.secondaryTargetValueOne, s.secondaryTargetValueTwo, s.secondaryTargetValueUnit, s.secondaryZoneNumber, s.endConditionZone))
  {
    ReadBackSecondaryTargetType(s);
    ReadBackSecondaryTargetValueOne(s);
    ReadBackSecondaryTargetValueTwo(s);
    ReadBackSecondaryTargetValueUnit(s);
    ReadBackSecondaryZoneNumber(s);
    ReadBackEndConditionZone(s);
  }

  /** Reading the exercise fields back recovers them. */
  lemma {:induction false} ReadExerciseRoundTrip(s: ExecutableStepDTO)
    ensures ReadExercise(Serialize(s).fields) == Some((s.strokeType, s.equipmentType, s.category, s.exerciseName, s.workoutProvider, s.providerExerciseSourceId, s.weightValue, s.weightUnit))
  {
    ReadBackStrokeType(s);
    ReadBackEquipmentType(s);
    ReadBackCategory(s);
    ReadBackExerciseName(s);
    ReadBackWorkoutProvider(s);
    ReadBackProviderExerciseSourceId(s);
    ReadBackWeightValue(s);
    ReadBackWeightUnit(s);
  }

  lemma ReadBackStepId(s: ExecutableStepDTO)
    ensures RequiredField(Serialize(s).fields, "stepId", ReadU64) == Some(s.stepId)
  {
    assert Values(s)[1] == IdentityValues(s)[0];
    RequiredReadBack(s, 1, "stepId", s.stepId, ReadU64);
  }

  lemma ReadBackStepOrder(s: ExecutableStepDTO)
    ensures RequiredField(Serialize(s).fields, "stepOrder", ReadU8) == Some(s.stepOrder)
  {
    assert Values(s)[2] == IdentityValues(s)[1];
    RequiredReadBack(s, 2, "stepOrder", s.stepOrder, ReadU8);
  }

  lemma ReadBackStepType(s: ExecutableStepDTO)
    ensures RequiredField(Serialize(s).fields, "stepType", StepTypes.Deserialize) == Some(s.stepType)
  {
    StepTypes.RoundTrip(s.stepType);
    assert Values(s)[3] == IdentityValues(s)[2];
    RequiredReadBack(s, 3, "stepType", s.stepType, StepTypes.Deserialize);
  }

  lemma ReadBackChildStepId(s: ExecutableStepDTO)
    ensures OptionalField(Serialize(s).fields, "childStepId", ReadU8) == Some(s.childStepId)
  {
    assert Values(s)[4] == IdentityValues(s)[3];
    OptionalReadBack(s, 4, "childStepId", s.childStepId, ReadU8);
  }

  lemma ReadBackDescription(s: ExecutableStepDTO)
    ensures OptionalField(Serialize(s).fields, "description", ReadString) == Some(s.description)
  {
    assert Values(s)[5] == IdentityValues(s)[4];
    OptionalReadBack(s, 5, "description", s.description, ReadString);
  }

  lemma ReadBackEndCondition(s: ExecutableStepDTO)
    ensures RequiredField(Serialize(s).fields, "endCondition", EndConditions.Deserialize) == Some(s.endCondition)
  {
    EndConditions.RoundTrip(s.endCondition);
    assert Values(s)[6] == EndValues(s)[0];
    RequiredReadBack(s, 6, "endCondition", s.endCondition, EndConditions.Deserialize);
  }

  lemma ReadBackEndConditionValue(s: ExecutableStepDTO)
    ensures RequiredField(Serialize(s).fields, "endConditionValue", ReadF32) == Some(s.endConditionValue)
  {
    assert Values(s)[7] == EndValues(s)[1];
    RequiredReadBack(s, 7, "endConditionValue", s.endConditionValue, ReadF32);
  }

  lemma ReadBackPreferredEndConditionUnit(s: ExecutableStepDTO)
    ensures OptionalField(Serialize(s).fields, "preferredEndConditionUnit", Units.Deserialize) == Some(s.preferredEndConditionUnit)
  {
    if s.preferredEndConditionUnit.Some? {
      Units.RoundTrip(s.preferredEndConditionUnit.value);
    }
    assert Values(s)[8] == EndValues(s)[2];
    OptionalReadBack(s, 8, "preferredEndConditionUnit", s.preferredEndConditionUnit, Units.Deserialize);
  }

  lemma ReadBackEndConditionCompare(s: ExecutableStepDTO)
    ensures OptionalField(Serialize(s).fields, "endConditionCompare", ReadBool) == Some(s.endConditionCompare)
  {
    assert Values(s)[9] == EndValues(s)[3];
    OptionalReadBack(s, 9, "endConditionCompare", s.endConditionCompare, ReadBool);
  }

  lemma ReadBackTargetType(s: ExecutableStepDTO)
    ensures RequiredField(Serialize(s).fields, "targetType", TargetTypes.Deserialize) == Some(s.targetType)
  {
    TargetTypes.RoundTrip(s.targetType);
    assert Values(s)[10] == PrimaryTargetValues(s)[0];
    RequiredReadBack(s, 10, "targetType", s.targetType, TargetTypes.Deserialize);
  }

  lemma ReadBackTargetValueOne(s: ExecutableStepDTO)
    ensures OptionalField(Serialize(s).fields, "targetValueOne", ReadF32) == Some(s.targetValueOne)
  {
    assert Values(s)[11] == PrimaryTargetValues(s)[1];
    OptionalReadBack(s, 11, "targetValueOne", s.targetValueOne, ReadF32);
  }

  lemma ReadBackTargetValueTwo(s: ExecutableStepDTO)
    ensures OptionalField(Serialize(s).fields, "targetValueTwo", ReadF32) == Some(s.targetValueTwo)
  {
    assert Values(s)[12] == PrimaryTargetValues(s)[2];
    OptionalReadBack(s, 12, "targetValueTwo", s.targetValueTwo, ReadF32);
  }

  lemma ReadBackTargetValueUnit(s: ExecutableStepDTO)
    ensures OptionalField(Serialize(s).fields, "targetValueUnit", ReadString) == Some(s.targetValueUnit)
  {
    assert Values(s)[13] == PrimaryTargetValues(s)[3];
    OptionalReadBack(s, 13, "targetValueUnit", s.targetValueUnit, ReadString);
  }

  lemma ReadBackZoneNumber(s: ExecutableStepDTO)
    ensures OptionalField(Serialize(s).fields, "zoneNumber", ReadU8) == Some(s.zoneNumber)
  {
    assert Values(s)[14] == PrimaryTargetValues(s)[4];
    OptionalReadBack(s, 14, "zoneNumber", s.zoneNumber, ReadU8);
  }

  lemma ReadBackSecondaryTargetType(s: ExecutableStepDTO)
    ensures OptionalField(Serialize(s).fields, "secondaryTargetType", TargetTypes.Deserialize) == Some(s.secondaryTargetType)
  {
    if s.secondaryTargetType.Some? {
      TargetTypes.RoundTrip(s.secondaryTargetType.value);
    }
    assert Values(s)[15] == SecondaryTargetValues(s)[0];
    OptionalReadBack(s, 15, "secondaryTargetType", s.secondaryTargetType, TargetTypes.Deserialize);
  }

  lemma ReadBackSecondaryTargetValueOne(s: ExecutableStepDTO)
    ensures OptionalField(Serialize(s).fields, "secondaryTargetValueOne", ReadF32) == Some(s.secondaryTargetValueOne)
  {
    assert Values(s)[16] == SecondaryTargetValues(s)[1];
    OptionalReadBack(s, 16, "secondaryTargetValueOne", s.secondaryTargetValueOne, ReadF32);
  }

  lemma ReadBackSecondaryTargetValueTwo(s: ExecutableStepDTO)
    ensures OptionalField(Serialize(s).fields, "secondaryTargetValueTwo", ReadF32) == Some(s.secondaryTargetValueTwo)
  {
    assert Values(s)[17] == SecondaryTargetValues(s)[2];
    OptionalReadBack(s, 17, "secondaryTargetValueTwo", s.secondaryTargetValueTwo, ReadF32);
  }

  lemma ReadBackSecondaryTargetValueUnit(s: ExecutableStepDTO)
    ensures OptionalField(Serialize(s).fields, "secondaryTargetValueUnit", ReadString) == Some(s.secondaryTargetValueUnit)
  {
    assert Values(s)[18] == SecondaryTargetValues(s)[3];
    OptionalReadBack(s, 18, "secondaryTargetValueUnit", s.secondaryTargetValueUnit, ReadString);
  }

  lemma ReadBackSecondaryZoneNumber(s: ExecutableStepDTO)
    ensures OptionalField(Serialize(s).fields, "secondaryZoneNumber", ReadU8) == Some(s.secondaryZoneNumber)
  {
    assert Values(s)[19] == SecondaryTargetValues(s)[4];
    OptionalReadBack(s, 19, "secondaryZoneNumber", s.secondaryZoneNumber, ReadU8);
  }

  lemma ReadBackEndConditionZone(s: ExecutableStepDTO)
    ensures OptionalField(Serialize(s).fields, "endConditionZone", ReadString) == Some(s.endConditionZone)
  {
    assert Values(s)[20] == SecondaryTargetValues(s)[5];
    OptionalReadBack(s, 20, "endConditionZone", s.endConditionZone, ReadString);
  }

  lemma ReadBackStrokeType(s: ExecutableStepDTO)
    ensures RequiredField(Serialize(s).fields, "strokeType", StrokeTypes.Deserialize) == Some(s.strokeType)
  {
    StrokeTypes.RoundTrip(s.strokeType);
    assert Values(s)[21] == ExerciseValues(s)[0];
    RequiredReadBack(s, 21, "strokeType", s.strokeType, StrokeTypes.Deserialize);
  }

  lemma ReadBackEquipmentType(s: ExecutableStepDTO)
    ensures RequiredField(Serialize(s).fields, "equipmentType", DeserializeEquipment) == Some(s.equipmentType)
  {
    EquipmentRoundTrip(s.equipmentType);
    assert Values(s)[22] == ExerciseValues(s)[1];
    RequiredReadBack(s, 22, "equipmentType", s.equipmentType, DeserializeEquipment);
  }

  lemma ReadBackCategory(s: ExecutableStepDTO)
    ensures OptionalField(Serialize(s).fields, "category", ReadString) == Some(s.category)
  {
    assert Values(s)[23] == ExerciseValues(s)[2];
    OptionalReadBack(s, 23, "category", s.category, ReadString);
  }

  lemma ReadBackExerciseName(s: ExecutableStepDTO)
    ensures OptionalField(Serialize(s).fields, "exerciseName", ReadString) == Some(s.exerciseName)
  {
    assert Values(s)[24] == ExerciseValues(s)[3];
    OptionalReadBack(s, 24, "exerciseName", s.exerciseName, ReadString);
  }

  lemma ReadBackWorkoutProvider(s: ExecutableStepDTO)
    ensures OptionalField(Serialize(s).fields, "workoutProvider", ReadString) == Some(s.workoutProvider)
  {
    assert Values(s)[25] == ExerciseValues(s)[4];
    OptionalReadBack(s, 25, "workoutProvider", s.workoutProvider, ReadString);
  }

  lemma ReadBackProviderExerciseSourceId(s: ExecutableStepDTO)
    ensures OptionalField(Serialize(s).fields, "providerExerciseSourceId", ReadU32) == Some(s.providerExerciseSourceId)
  {
    assert Values(s)[26] == ExerciseValues(s)[5];
    OptionalReadBack(s, 26, "providerExerciseSourceId", s.providerExerciseSourceId, ReadU32);
  }

  lemma ReadBackWeightValue(s: ExecutableStepDTO)
    ensures OptionalField(Serialize(s).fields, "weightValue", ReadF32) == Some(s.weightValue)
  {
    assert Values(s)[27] == ExerciseValues(s)[6];
    OptionalReadBack(s, 27, "weightValue", s.weightValue, ReadF32);
  }

  lemma ReadBackWeightUnit(s: ExecutableStepDTO)
    ensures OptionalField(Serialize(s).fields, "weightUnit", ReadString) == Some(s.weightUnit)
  {
    assert Values(s)[28] == ExerciseValues(s)[7];
    OptionalReadBack(s, 28, "weightUnit", s.weightUnit, ReadString);
  }
}
