# Workout-step wire format of a swim-workout exporter

This project models the part of the exporter that builds the steps of a
Garmin Connect swim workout and writes them as JSON:

- the small catalog objects: step kind, end condition, stroke, target and
  preferred end-condition unit, which a step refers to, and the sport of a
  workout, which no step field holds. Each one stores its key, and the end
  condition also stores a `displayable` flag. The numeric id and display
  order are derived from the key. Most are written as `{id, key,
  displayOrder}`. The end condition adds `displayable` as a fourth field, and
  the unit writes its factor in place of a display order;
- `ExecutableStepDTO`, a single swim, rest, warm-up or cool-down step, and
  its three constructors (`new`, `active_step`, `rest_step`);
- `RepeatGroupDTO`, a group of steps repeated a number of times, whose
  constructor stamps the group's child id into every step it owns;
- the workout-step union, whose variants are told apart by the `type` tag.

Serialisation becomes a function from each entity to a JSON value tree
(`Json.Json`). A JSON object is an ordered list of fields, so the order the
fields are written in is part of the modelled output. The derived serde
readers are modelled as the partner of each writer:
- fields are read by name and unknown fields are ignored;
- a field that appears twice is an error;
- a missing non-optional field is an error;
- a missing or `null` optional field reads as absent.

Every writer has a round-trip lemma (`Deserialize(Serialize(x)) == Some(x)`).
The source's own test fixtures are restated as lemmas about concrete values.

Modules: `Base` (Option, unsigned integer ranges), `Json` (values, field
lookup, primitive readers and writers), one module per source file
(`StepTypes`, `EndConditions`, `StrokeTypes`, `TargetTypes`,
`PreferredEndConditionUnits`, `SportTypes`, `ExecutableSteps`,
`RepeatGroups`), and `WorkoutSteps` for the union.

Rust's `u8`, `u32` and `u64` are the subset types `U8`, `U32` and `U64`, so
every stored number is in range by construction. `f32` is a `real`.

## Model

| member | source | states |
|---|---|---|
| StepTypes.ParseStep | src/garmin/workout_steps/step_type.rs:4-12 | a name is accepted only if it is the snake_case name of the step kind returned |
| StepTypes.ParseStepName | src/garmin/workout_steps/step_type.rs:4-12 | every step kind's wire name parses back to that kind |
| StepTypes.StepTypeId | src/garmin/workout_steps/step_type.rs:22-30 | the id is in 1..8 and identifies the step kind (the id table maps it back to the key) |
| StepTypes.DisplayOrder | src/garmin/workout_steps/step_type.rs:32-34 | the display order equals the id, so it also identifies the kind |
| StepTypes.StepTypeIdInjective | src/garmin/workout_steps/step_type.rs:22-30 | two step types have the same id exactly when they are equal |
| StepTypes.Serialize | src/garmin/workout_steps/step_type.rs:37-47 | writes stepTypeId, stepTypeKey, displayOrder in that order; the key is the kind's name, the id maps back to the kind, the display order repeats the id |
| StepTypes.Deserialize | src/garmin/workout_steps/step_type.rs:14-18 | a successful read found the key under stepTypeKey, written as the kind's name |
| StepTypes.DeserializeAccepts | src/garmin/workout_steps/step_type.rs:14-18 | conversely, any object whose stepTypeKey is found once as a kind's name reads as that kind, whatever other fields it has |
| StepTypes.RoundTrip | src/garmin/workout_steps/step_type.rs:37-47 | reading a written step type gives it back |
| StepTypes.DeserializeIgnoresNumbers | src/garmin/workout_steps/step_type.rs:14-18 | only the key is read: any stepTypeId and displayOrder values are ignored |
| StepTypes.SerializeCooldown | src/garmin/workout_steps/step_type.rs:70-78 | the serialise fixture: cooldown is written as id 2, "cooldown", display order 2 |
| StepTypes.DeserializeWarmup | src/garmin/workout_steps/step_type.rs:55-68 | the deserialise fixture: the warmup object reads as Warmup with id and display order 1 |
| EndConditions.ParseCondition | src/garmin/workout_steps/end_condition.rs:4-16 | a name is accepted only if it is the wire name (including the renamed "lap.button" and "fixed.rest") of the condition returned |
| EndConditions.ParseConditionName | src/garmin/workout_steps/end_condition.rs:4-16 | every condition's wire name parses back to it |
| EndConditions.New | src/garmin/workout_steps/end_condition.rs:28-30 | a new end condition has the given key and is displayable |
| EndConditions.ConditionTypeId | src/garmin/workout_steps/end_condition.rs:31-39 | the id is in 1..8 and identifies the condition |
| EndConditions.DisplayOrder | src/garmin/workout_steps/end_condition.rs:41-43 | the display order equals the id |
| EndConditions.ConditionTypeIdIgnoresDisplayable | src/garmin/workout_steps/end_condition.rs:31-39 | two end conditions share an id exactly when their keys agree, whatever their displayable flags |
| EndConditions.Serialize | src/garmin/workout_steps/end_condition.rs:47-59 | writes conditionTypeId, conditionTypeKey, displayOrder, displayable in that order, with the key's name, an id that maps back to it, and the flag |
| EndConditions.Deserialize | src/garmin/workout_steps/end_condition.rs:18-23 | a successful read found the key's name under conditionTypeKey and the flag under displayable |
| EndConditions.DeserializeAccepts | src/garmin/workout_steps/end_condition.rs:18-23 | conversely, any object with conditionTypeKey found once as a condition's name and displayable once as a boolean reads as that end condition, whatever other fields it has |
| EndConditions.RoundTrip | src/garmin/workout_steps/end_condition.rs:47-59 | reading a written end condition gives it back |
| EndConditions.SerializeLapButton | src/garmin/workout_steps/end_condition.rs:83-92 | the serialise fixture: lap button is written as id 1, "lap.button", 1, true |
| EndConditions.DeserializeDistance | src/garmin/workout_steps/end_condition.rs:66-81 | the deserialise fixture: the distance object reads as Distance, displayable |
| StrokeTypes.ParseStroke | src/garmin/workout_steps/stroke_type.rs:4-13 | a name is accepted only if it is the wire name of the stroke returned |
| StrokeTypes.ParseStrokeName | src/garmin/workout_steps/stroke_type.rs:4-13 | every stroke's wire name parses back to it |
| StrokeTypes.New | src/garmin/workout_steps/stroke_type.rs:25-27 | a new stroke type holds the given (possibly absent) stroke |
| StrokeTypes.StrokeTypeId | src/garmin/workout_steps/stroke_type.rs:28-38 | the id is 0 exactly when there is no stroke; otherwise it is at most 7 and identifies the stroke |
| StrokeTypes.DisplayOrder | src/garmin/workout_steps/stroke_type.rs:40-42 | the display order equals the id, and is 0 exactly when there is no stroke |
| StrokeTypes.StrokeTypeIdInjective | src/garmin/workout_steps/stroke_type.rs:28-38 | two stroke types have the same id exactly when they are equal |
| StrokeTypes.ReadStroke | src/garmin/workout_steps/stroke_type.rs:4-13 | a stroke value is read only from the string its writer produces |
| StrokeTypes.Serialize | src/garmin/workout_steps/stroke_type.rs:45-57 | writes strokeTypeId, strokeTypeKey, displayOrder; the id written is the stroke's id (0 exactly when there is no stroke), the key is the stroke's name or null exactly when there is none, the display order repeats the id |
| StrokeTypes.Deserialize | src/garmin/workout_steps/stroke_type.rs:16-20 | a read stroke was found under strokeTypeKey as its name; "no stroke" is read only when strokeTypeKey is missing or null |
| StrokeTypes.DeserializeAccepts | src/garmin/workout_steps/stroke_type.rs:16-20 | conversely, an object whose strokeTypeKey is found once as a stroke's name reads as that stroke, and one whose strokeTypeKey is missing or null reads as no stroke, whatever other fields it has |
| StrokeTypes.RoundTrip | src/garmin/workout_steps/stroke_type.rs:45-57 | reading a written stroke type gives it back, with and without a stroke |
| StrokeTypes.DeserializeMissingKey | src/garmin/workout_steps/stroke_type.rs:16-20 | an object without strokeTypeKey reads as "no stroke" |
| StrokeTypes.SerializeFixtures | src/garmin/workout_steps/stroke_type.rs:78-111 | the serialise fixtures: individual medley is written as 7/"individual_medley"/7, no stroke as 0/null/0 |
| StrokeTypes.DeserializeFixtures | src/garmin/workout_steps/stroke_type.rs:63-101 | the deserialise fixtures: the free object reads as Free, the null key as no stroke |
| TargetTypes.ParseTarget | src/garmin/workout_steps/target_type.rs:6-9 | a name is accepted only if it is the wire name ("no.target") of the target returned |
| TargetTypes.WorkoutTargetTypeId | src/garmin/workout_steps/target_type.rs:19-23 | the id is positive and identifies the target |
| TargetTypes.DisplayOrder | src/garmin/workout_steps/target_type.rs:25-27 | the display order equals the id |
| TargetTypes.Default | src/garmin/workout_steps/target_type.rs:29-35 | the default target is "no target", id 1 |
| TargetTypes.Serialize | src/garmin/workout_steps/target_type.rs:37-47 | writes workoutTargetTypeId, workoutTargetTypeKey, displayOrder, with the key's name, an id that maps back to it, and the id repeated |
| TargetTypes.Deserialize | src/garmin/workout_steps/target_type.rs:11-15 | a successful read found the key's name under workoutTargetTypeKey |
| TargetTypes.DeserializeAccepts | src/garmin/workout_steps/target_type.rs:11-15 | conversely, any object whose workoutTargetTypeKey is found once as a target's name reads as that target, whatever other fields it has |
| TargetTypes.RoundTrip | src/garmin/workout_steps/target_type.rs:37-47 | reading a written target type gives it back |
| TargetTypes.SerializeNoTarget | src/garmin/workout_steps/target_type.rs:70-78 | the serialise fixture: 1, "no.target", 1 |
| TargetTypes.DeserializeNoTarget | src/garmin/workout_steps/target_type.rs:55-68 | the deserialise fixture reads as no target, id and display order 1 |
| PreferredEndConditionUnits.ParseUnit | src/garmin/workout_steps/preferred_end_condition_unit.rs:4-8 | a name is accepted only if it is the wire name of the unit returned |
| PreferredEndConditionUnits.UnitId | src/garmin/workout_steps/preferred_end_condition_unit.rs:19-23 | the id is positive and identifies the unit |
| PreferredEndConditionUnits.Factor | src/garmin/workout_steps/preferred_end_condition_unit.rs:25-29 | the meter's factor is 100 |
| PreferredEndConditionUnits.Default | src/garmin/workout_steps/preferred_end_condition_unit.rs:34-40 | the default unit is the meter: id 1, factor 100 |
| PreferredEndConditionUnits.Serialize | src/garmin/workout_steps/preferred_end_condition_unit.rs:43-54 | writes unitId, unitKey, factor, with the key's name, an id that maps back to it, and the factor as a float |
| PreferredEndConditionUnits.Deserialize | src/garmin/workout_steps/preferred_end_condition_unit.rs:11-15 | a successful read found the key's name under unitKey |
| PreferredEndConditionUnits.DeserializeAccepts | src/garmin/workout_steps/preferred_end_condition_unit.rs:11-15 | conversely, any object whose unitKey is found once as a unit's name reads as that unit, whatever other fields it has |
| PreferredEndConditionUnits.RoundTrip | src/garmin/workout_steps/preferred_end_condition_unit.rs:43-54 | reading a written unit gives it back |
| PreferredEndConditionUnits.SerializeMeter | src/garmin/workout_steps/preferred_end_condition_unit.rs:75-83 | the serialise fixture: 1, "meter", 100.0 |
| PreferredEndConditionUnits.DeserializeMeter | src/garmin/workout_steps/preferred_end_condition_unit.rs:60-73 | the deserialise fixture reads as the meter, id 1, factor 100 |
| SportTypes.ParseSport | src/garmin/sport_type.rs:4-8 | a name is accepted only if it is the wire name of the sport returned |
| SportTypes.New | src/garmin/sport_type.rs:27-29 | a new sport type holds the given sport |
| SportTypes.SportTypeId | src/garmin/sport_type.rs:17-21 | the id is positive and identifies the sport |
| SportTypes.DisplayOrder | src/garmin/sport_type.rs:23-25 | the display order is one less than the id; the subtraction cannot underflow |
| SportTypes.SwimmingNumbers | src/garmin/sport_type.rs:49-63 | swimming has id 4 and display order 3 |
| SportTypes.Serialize | src/garmin/sport_type.rs:32-43 | writes sportTypeId, sportTypeKey, displayOrder, with the key's name, an id that maps back to it, and a display order one below the id |
| SportTypes.Deserialize | src/garmin/sport_type.rs:10-14 | a successful read found the key's name under sportTypeKey |
| SportTypes.DeserializeAccepts | src/garmin/sport_type.rs:10-14 | conversely, any object whose sportTypeKey is found once as a sport's name reads as that sport, whatever other fields it has |
| SportTypes.RoundTrip | src/garmin/sport_type.rs:32-43 | reading a written sport type gives it back |
| SportTypes.SerializeSwimming | src/garmin/sport_type.rs:65-80 | the serialise fixture: 4, "swimming", 3 |
| SportTypes.DeserializeSwimming | src/garmin/sport_type.rs:49-63 | the deserialise fixture reads as swimming with id 4 and display order 3 |
| ExecutableSteps.DefaultEquipment | src/garmin/workout_steps/executable_step_dto.rs:152-160 | the default equipment has id 0, no key and display order 0 |
| ExecutableSteps.SerializeEquipment | src/garmin/workout_steps/executable_step_dto.rs:144-150 | writes equipmentTypeId, equipmentTypeKey, displayOrder in declaration order |
| ExecutableSteps.DeserializeEquipment | src/garmin/workout_steps/executable_step_dto.rs:144-150 | a successful read took equipmentTypeId and displayOrder by name as the numbers returned, and the key from equipmentTypeKey (a string, or missing or null for no key) |
| ExecutableSteps.DeserializeEquipmentAccepts | src/garmin/workout_steps/executable_step_dto.rs:144-150 | conversely, any object with equipmentTypeId and displayOrder found once as in-range integers and equipmentTypeKey missing, null or found once as a string reads as that equipment, whatever other fields it has |
| ExecutableSteps.EquipmentRoundTrip | src/garmin/workout_steps/executable_step_dto.rs:144-150 | reading written equipment gives it back, with or without a key |
| ExecutableSteps.New | src/garmin/workout_steps/executable_step_dto.rs:44-94 | stores the given fields; a missing target becomes "no target"; the preferred unit is absent exactly for a rest step and is otherwise the meter with factor 100; default equipment; every other optional field absent |
| ExecutableSteps.ActiveStep | src/garmin/workout_steps/executable_step_dto.rs:96-119 | the general constructor with "not a rest step", so the preferred unit is the meter |
| ExecutableSteps.RestStep | src/garmin/workout_steps/executable_step_dto.rs:121-140 | step kind rest (id 5), no stroke (id 0), no target given (so "no target"), no preferred unit; the other arguments stored as given |
| ExecutableSteps.PreferredUnitNullIffRest | src/garmin/workout_steps/executable_step_dto.rs:59-62 | in the written step, preferredEndConditionUnit is null exactly for a rest step, and otherwise is the meter object with factor 100.0 |
| ExecutableSteps.LinkWritten | src/garmin/workout_steps/executable_step_dto.rs:16 | the childStepId field is written as null when unset and as the number when set |
| ExecutableSteps.WarmupStepFields | src/garmin/workout_steps/executable_step_dto.rs:238-261 | the instantiation fixture: step id 9615001364, order 1, target id 1 |
| ExecutableSteps.SerializeWarmupStep | src/garmin/workout_steps/executable_step_dto.rs:263-346 | the serialise fixture: the warm-up step is written as exactly the expected 29-field object |
| ExecutableSteps.DeserializeWarmupStep | src/garmin/workout_steps/executable_step_dto.rs:170-236 | the deserialise fixture: that object reads back as the warm-up step, id 9615001364, order 1, no equipment key |
| ExecutableSteps.ExecutableStepFieldsDistinct | src/garmin/workout_steps/executable_step_dto.rs:9-41 | the 29 written field names (the type tag plus the 28 fields) are pairwise distinct |
| ExecutableSteps.Serialize | src/garmin/workout_steps/executable_step_dto.rs:9-41 | writes the "type" tag first, then the fields in declaration order under their camelCase names |
| ExecutableSteps.Deserialize | src/garmin/workout_steps/executable_step_dto.rs:9-41 | a successful read found stepId and stepOrder under their names |
| ExecutableSteps.ReadIdentity | src/garmin/workout_steps/executable_step_dto.rs:13-17 | the identity fields are read by name: stepId and stepOrder as the values returned |
| ExecutableSteps.RoundTrip | src/garmin/workout_steps/executable_step_dto.rs:9-41 | reading a written executable step gives back every one of its 28 fields |
| ExecutableSteps.ReadIdentityRoundTrip | src/garmin/workout_steps/executable_step_dto.rs:13-17 | the first five fields read back as written |
| ExecutableSteps.ReadEndRoundTrip | src/garmin/workout_steps/executable_step_dto.rs:18-21 | the end-condition fields read back as written |
| ExecutableSteps.ReadPrimaryTargetRoundTrip | src/garmin/workout_steps/executable_step_dto.rs:22-26 | the primary target fields read back as written |
| ExecutableSteps.ReadSecondaryTargetRoundTrip | src/garmin/workout_steps/executable_step_dto.rs:27-32 | the secondary target fields and endConditionZone read back as written |
| ExecutableSteps.ReadExerciseRoundTrip | src/garmin/workout_steps/executable_step_dto.rs:33-40 | the stroke, equipment and exercise fields read back as written |
| RepeatGroups.StampChildren | src/garmin/workout_steps/repeat_group_dto.rs:35-37 | the same number of steps, each equal to the original with its child link set to the group's id |
| RepeatGroups.StampChildrenStamps | src/garmin/workout_steps/repeat_group_dto.rs:35-37 | after stamping every step links to the id and nothing but the link changed |
| RepeatGroups.StampChildrenOverrides | src/garmin/workout_steps/repeat_group_dto.rs:35-37 | stamping twice is stamping once with the second id: the old link is overwritten |
| RepeatGroups.StampChildrenFixed | src/garmin/workout_steps/repeat_group_dto.rs:35-37 | stamping steps that already link to the id changes nothing |
| RepeatGroups.Assembled | src/garmin/workout_steps/repeat_group_dto.rs:39-58 | the assembled group keeps the given ids, iteration count and children |
| RepeatGroups.AssembledInvariant | src/garmin/workout_steps/repeat_group_dto.rs:39-58 | an assembled group is a repeat step (id 6) ending after its iterations (condition id 7, not displayable), with end value equal to the iteration count, no unit, compare or skip flag, not smart, and every child linked to it and otherwise unchanged |
| RepeatGroups.New | src/garmin/workout_steps/repeat_group_dto.rs:27-59 | the loop stamps every child with the group's id; the result is the assembled group over the stamped children, keeps the group invariant, and changes nothing in the children except the link |
| RepeatGroups.ReadWriteSteps | src/garmin/workout_steps/repeat_group_dto.rs:17 | the written list of child steps reads back as the same list, in order |
| RepeatGroups.ReadSteps | src/garmin/workout_steps/repeat_group_dto.rs:17 | a list is read from a JSON array: one step per element, each element reading as the step at its position |
| RepeatGroups.RepeatGroupFieldsDistinct | src/garmin/workout_steps/repeat_group_dto.rs:8-24 | the 13 written field names are pairwise distinct |
| RepeatGroups.Serialize | src/garmin/workout_steps/repeat_group_dto.rs:8-24 | writes the "type" tag first, then the twelve fields in declaration order under their camelCase names |
| RepeatGroups.Deserialize | src/garmin/workout_steps/repeat_group_dto.rs:8-24 | a successful read found stepId under its name |
| RepeatGroups.RoundTrip | src/garmin/workout_steps/repeat_group_dto.rs:8-24 | reading a written repeat group gives back every field, its children included |
| RepeatGroups.GroupLinkWritten | src/garmin/workout_steps/repeat_group_dto.rs:15 | the group's childStepId is written as its number |
| RepeatGroups.ChildLinksWritten | src/garmin/workout_steps/repeat_group_dto.rs:35-37 | in a built group's JSON, the group and every written child carry the same childStepId number |
| RepeatGroups.BuildGroupFixture | src/garmin/workout_steps/repeat_group_dto.rs:68-97 | the build fixture: ids 9615001366/3/1/8 kept, and the first child now links to 1 |
| RepeatGroups.MainChildWritten | src/garmin/workout_steps/repeat_group_dto.rs:147-204 | the first stamped child of the serialise fixture is written as expected, childStepId 1 |
| RepeatGroups.RestChildWritten | src/garmin/workout_steps/repeat_group_dto.rs:205-255 | the rest child is written as expected: rest kind, null unit, no stroke, childStepId 1 |
| RepeatGroups.SerializeFixtureGroup | src/garmin/workout_steps/repeat_group_dto.rs:99-275 | the serialise fixture: the group is written as exactly the expected object |
| RepeatGroups.FixtureHeadWritten | src/garmin/workout_steps/repeat_group_dto.rs:136-256 | the first six fields of the fixture group are written as expected, children included |
| RepeatGroups.FixtureTailWritten | src/garmin/workout_steps/repeat_group_dto.rs:257-267 | the last six fields of the fixture group are written as expected |
| RepeatGroups.DeserializeFixtureGroup | src/garmin/workout_steps/repeat_group_dto.rs:277-420 | the deserialise fixture: step id 9615001366, two children, the second linking to 1 |
| WorkoutSteps.Serialize | src/garmin/workout_steps.rs:11-16 | each variant is written by its own writer, with its tag first under "type" |
| WorkoutSteps.Deserialize | src/garmin/workout_steps.rs:11-16 | a successful read found the variant's tag under "type" |
| WorkoutSteps.TagWritten | src/garmin/workout_steps.rs:11-16 | the written tag is found under "type", and it is the executable-step tag exactly for an executable step |
| WorkoutSteps.RoundTrip | src/garmin/workout_steps.rs:11-16 | reading a written workout step gives back its variant and contents |

## Left out

- workout_builder.rs, cursor_suggestion.rs, the older records directly under src/garmin, main.rs and core_workout4.rs are not part of this model.
- JSON text is not modelled: the value tree stands for the text, with no whitespace, escaping or number printing.
- Floating point: `f32` values are reals. The model has no rounding and no NaN or infinity.
- `Cell<Option<u8>>` for the child link becomes a plain field of a value. The interior mutability adds nothing in this single-threaded code.
- RepeatGroups.New: the owned `Vec` is stamped as a `seq` local to the method, one element per iteration. An in-place update through an iterator is not modelled. This is faithful because the vector is moved into the constructor.
- serde's alternative array form of a struct is not read.
- A unit enum value (a step kind, condition, stroke, target, unit or sport key) is read only as a bare string. serde_json's externally tagged map form, such as `{"warmup": null}`, is not read.
- The `type` tag is written but not checked when one struct is read on its own, since the derive ignores unknown fields. Only the union reader dispatches on it.
- The source's `WorkoutStep` enum (src/garmin/workout_steps.rs:11-16) has payload-less variants. The model gives each variant the DTO it names, so that the two-way dispatch on `type` can be stated.
- ExecutableSteps.New: the preferred unit follows the `is_rest_step` argument, as the code does, not the kind of end condition.
- Serde error values are not modelled. A failed read is `None`, with no message.
