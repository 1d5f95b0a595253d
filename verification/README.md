# MyHomeHub: a verified model of the hub's core

A Dafny model of the parts of the home-automation hub in which several pieces of state or several steps have to fit
together, with proofs over all inputs, all runs and all interleavings of atomic steps.

| files | what they model |
|---|---|
| `TriggerExpression.dfy`, `TriggerLogic.dfy`, `TriggerText.dfy` | the trigger-logic language of scenarios: tokenizer, parser over one shared token list, evaluator without precedence, validator |
| `Scenarios.dfy`, `Scheduler.dfy`, `ScenarioStore.dfy` | stored scenarios, group counters and the cron job registry, and the operations that keep them in step |
| `ScenarioInvariants.dfy`, `ScenarioRuns.dfy`, `ScenarioOutcomes.dfy` | what those operations keep, exactly when they do not, rollbacks, whole runs, the start of the hub, when each operation succeeds |
| `Execution.dfy`, `Cascade.dfy`, `CascadeCycles.dfy`, `CascadeExamples.dfy` | conditions, execution, and when cascades of device events are bounded or endless |
| `MixedRuns.dfy` | runs of operations, scheduled executions and cascades |
| `DeviceConfigs.dfy`, `PayloadValidator.dfy`, `PayloadMapper.dfy`, `MappedFields.dfy`, `DevicePayloads.dfy` | the payload pipeline: validation and sanitizing, names and values on the device, merging, reconciling, histories |
| `ConfigSync.dfy` | the collection of device configurations and its cache |
| `Zigbee.dfy` | friendly names on the hub and on the Zigbee bridge as a two-party protocol |
| `Topics.dfy`, `Pages.dfy` | MQTT topic substitution and extraction; page-by-page collection |
| `Options.dfy`, `Strings.dfy`, `Sequences.dfy`, `Chains.dfy`, `Descent.dfy`, `Values.dfy` | shared types and theories: optional values, split and join, sequences of states, bounds from lexicographic descent, payload values and payloads |

`dafny verify dfyconfig.toml` checks everything.

## How the model reads

* Database collections are maps from identifiers to documents, the scheduler's registry is a map from job names to jobs.
  Adding a job under a taken name and deleting a missing one throw, as in Nest's `SchedulerRegistry`. Every handler is one
  atomic step.
* Services whose methods change state are classes; each method performs a specification function in place
  (`ensures Effect(State(), outcome) == UpdateScenario(...)`), and the properties are lemmas about those functions.
* Thrown exceptions are outcomes; the state they leave behind is part of the effect.
* What libraries or the outside world decide is a parameter: cron parsing, document schemas (`Rules`), texts of numbers,
  regular expressions inside constraints (`Runtime`), brand checks (`Brand`), the order in which a database returns
  documents, sunrise and sunset.
* Loops over objects receive the object's fields as a list of entries with distinct names, in any order.

## Findings

The proofs show where the code does not do what one might expect. Each is stated as a lemma with the exact condition, except
for cascades with one condition for each side, and shown at a concrete input.

* Deleting a group together with its scenarios leaves their jobs in the registry. An update that then fails to schedule,
  because its new name is still registered, and that had moved the scenario to another group restores the scenario but
  not the two counters (`UpdateKeepsCountersIff`). A later update can stop at a counter that cannot go below zero, after
  the document is saved and before its job is replaced, so that an active scenario runs on the schedule of its earlier
  version (`UpdateKeepsJobsIff`; with valid documents and expressions throughout: `FailedMoveBreaksJobs`). If the schema
  accepts only expressions that parse and no active cron scenario is deleted with its group, none of this can happen
  (`RunStaysExact`).
* A failed update of an inactive cron scenario leaves a job behind (`StepLeavesNoStaleJobIff`,
  `FailedActivationLeavesJob`).
* Creating a scenario whose expression does not parse throws the error of the job that is missing when the scenario is
  removed again, not the one of the failed scheduling, and can leave an empty group (`AddIsDoneIff`).
* An accepted logic string is undefined exactly when its last operand before the first unmatched `)` is 0 and nothing in
  front of it decides the value (`UndefinedIffZeroIsExposed`); with operands named at most once, the last operand alone
  decides whether it is a boolean under all conditions (`BooleanIffLastOperandPositive`, `ZeroOperandIsAccepted`).
* A cascade of device events need not end when scenarios are not counted down. It is bounded, from every queue and state of
  the devices, if no such scenarios feed each other in a cycle, where one feeds another if an action updates a source device
  of the other and can leave the devices in a state in which the other is executed (`AcyclicIsBounded`). It can go on for ever
  if states of the devices lead round a cycle and back (`LoopIsEndless`), and such a loop always is a cycle (`LoopIsCycle`).
  "When the lamp is on, switch it on" is executed for ever (`KeptOnIsEndless`), "when the lamp is off, switch it on" is not
  (`SwitchedOnIsBounded`). The two conditions leave a gap: scenarios can feed each other in a cycle that no states lead round
  (`CycleWithoutLoop`).
* Creating a device stores fields its validation dropped, and `$override` itself, unless the flag is set
  (`CreatedPayloadIsValidIff`, `CreationRestoresInvalidField`, `CreationStoresOverride`).
* Handling a bridge list publishes a rename back exactly for drifted devices that the list shows as not eligible and whose
  listed names can be saved in their turn (`ListHandled`, `IneligibleIsRenamedBack`). Listed names cannot always be saved:
  swapped ones stay apart under the unique index on stored names (`SyncAlignsIff`, `SwappedNamesStayApart`).

## Model

| member | source | states |
|---|---|---|
| TriggerExpression.ParseTriggerExpression | src/common/services/conditions-evaluator.service.ts:49-75 | the recursive method that shifts tokens off one shared stream computes `Parse` and leaves exactly its rest |
| TriggerExpression.EvaluateExpression | src/common/services/conditions-evaluator.service.ts:77-101 | the loop over `result` and `operator` computes `Eval`, `undefined` included |
| TriggerExpression.ParseInvertsPrint | src/common/services/conditions-evaluator.service.ts:49-75 | parsing the printed tokens of any AND/OR expression gives exactly its tree and consumes exactly its tokens and the unmatched `)` behind them |
| TriggerExpression.PrintIsInjective | src/common/services/conditions-evaluator.service.ts:49-75 | two expressions with the same printed tokens are the same expression |
| TriggerExpression.ParseThenEvalIsMeaning | src/common/services/conditions-evaluator.service.ts:39-43 | evaluating the parsed tokens of an expression gives its left-associative boolean meaning, no precedence between AND and OR |
| TriggerExpression.ParseDependsOnPrefixOnly | src/common/services/conditions-evaluator.service.ts:49-75 | on arbitrary tokens the result depends only on those before the first unmatched `)`, and exactly those behind it are left |
| TriggerExpression.ParseIgnoresTrailingCloses | src/common/services/conditions-evaluator.service.ts:49-75 | appending any number of `)` to any token list never changes the parsed expression |
| TriggerLogic.EvaluateLogic | src/common/services/conditions-evaluator.service.ts:39-47 | tokenizing, parsing and evaluating in sequence computes `EvaluateTriggerExpression`, which throws without a token |
| TriggerLogic.OperandsAreTokenNumbers | src/scenarios/schemas/scenario.validators.ts:60-63 | for every string, the operands the validator counts are the numbers the tokenizer delivers, in order |
| TriggerLogic.AcceptedTokens | src/scenarios/schemas/scenario.validators.ts:55-58 | the tokens of every string matching the validator's pattern alternate operands and operators, parentheses aside |
| TriggerLogic.AcceptedShape | src/common/services/conditions-evaluator.service.ts:49-75 | such tokens, balanced or not, parse to non-empty groups that alternate operand and operator on every level, over exactly the operands of the evaluated prefix in order |
| TriggerLogic.AcceptedLogicYieldsBoolean | src/scenarios/schemas/scenario.validators.ts:55-65 | a stored logic string whose last evaluated operand is not 0 evaluates to a boolean, never to undefined |
| TriggerLogic.PositiveOperandsYieldBoolean | src/scenarios/schemas/scenario.validators.ts:55-65 | operands of at least 1 throughout are enough |
| TriggerLogic.UndefinedIffZeroIsExposed | src/scenarios/schemas/scenario.validators.ts:55-65 | for every stored logic string and all conditions: undefined iff the last operand before the first unmatched `)` is 0 and no part in front of it, on any level around it, decides the value |
| TriggerLogic.AlwaysBooleanIff | src/scenarios/schemas/scenario.validators.ts:55-65 | boolean under all conditions iff that operand is at least 1 or under all conditions some part in front of it decides, however often operands are named |
| TriggerLogic.BooleanIffLastOperandPositive | src/scenarios/schemas/scenario.validators.ts:55-65 | with operands named at most once: boolean under all conditions iff the last operand before the first unmatched `)` is at least 1 |
| TriggerLogic.ZeroOperandIsAccepted | src/scenarios/schemas/scenario.validators.ts:60-65 | the validator accepts the operand 0, whose value is undefined |
| TriggerText.PatternLanguage | src/scenarios/schemas/scenario.validators.ts:55-58 | token lists are those of accepted strings iff operands and operators alternate |
| TriggerText.WrittenExpressionEvaluates | src/common/services/conditions-evaluator.service.ts:39-101 | every expression written as a string matches the validator's pattern, and evaluating the string gives the expression's meaning |
| TriggerText.WrittenExpressionIsAcceptedIff | src/scenarios/schemas/scenario.validators.ts:55-65 | the validator takes a written expression iff it names as many numbers as there are sources and none beyond them, and never objects to its format |
| Scheduler.AdjustCron | src/scheduler/scheduler.service.ts:75-86 | the adjusted expression splits into the new minute and hour and the last three fields of the original, which are its day, month and weekday with or without seconds |
| Scheduler.AdjustedFields | src/scheduler/scheduler.service.ts:75-86 | an adjusted expression is the minute and hour of sunrise or sunset, as asked for, followed by the day fields of the original, with or without seconds |
| Scheduler.AdjustingAgain | src/scheduler/scheduler.service.ts:55-61 | adjusting an adjusted expression forgets only the earlier time |
| Scenarios.AdjustingSourcesAgain | src/scenarios/scenarios.service.ts:124-127 | the same for the sources of a trigger, of which only the first cron source changes |
| ScenarioStore.Hub.Add | src/scenarios/scenarios.service.ts:93-109 | performs `AddScenario` in place, including the removal on failure |
| ScenarioStore.Hub.Update | src/scenarios/scenarios.service.ts:111-143 | performs `UpdateScenario` in place, including the rollback |
| ScenarioStore.Hub.Remove | src/scenarios/scenarios.service.ts:145-153 | performs `RemoveScenario` in place: delete, count, then unschedule whenever active |
| ScenarioStore.Hub.OnModuleInit | src/scenarios/scenarios.service.ts:155-160 | schedules the active scenarios in order and stops at the first failure |
| ScenarioStore.Hub.Delete | src/scenarios/scenario-groups.service.ts:47-67 | performs `DeleteGroup` in place in its three modes |
| ScenarioStore.Hub.UpsertGroupCount | src/scenarios/scenario-groups.service.ts:97-109 | performs `UpsertGroup` in place; a negative count or a bad name throws |
| ScenarioInvariants.RescheduleEffect | src/scenarios/scenarios.service.ts:130-143 | a saved update the counters allow never unschedules a missing job; scenarios, groups and registry afterwards, for success and failure |
| ScenarioInvariants.AddEffect | src/scenarios/scenarios.service.ts:93-109 | creating a scenario: the whole store and the outcome, also when scheduling fails |
| ScenarioInvariants.StepKeepsScheduled | src/scenarios/scenarios.service.ts:93-184 | every operation keeps a job with its own expression for each active cron scenario, unless a saved update meets a counter that cannot go down |
| ScenarioInvariants.UpdateKeepsJobsIff | src/scenarios/scenarios.service.ts:129-142 | the exact condition under which an update keeps those jobs |
| ScenarioRuns.UpdateKeepsCountersIff | src/scenarios/scenario-groups.service.ts:76-88 | counters agree with the scenarios after an update iff it is not a failed move out of a group; no decrement goes below zero |
| ScenarioRuns.RemoveKeepsCounters | src/scenarios/scenario-groups.service.ts:90-95 | removing keeps counters in agreement and never counts below zero |
| ScenarioRuns.StepKeepsCounters | src/scenarios/scenario-groups.service.ts:39-109 | every operation except a failed move keeps each group's count equal to the number of scenarios naming it, and every named group existing |
| ScenarioRuns.StepLeavesNoStaleJobIff | src/scenarios/scenarios.service.ts:93-184 | an operation leaves no job without its active cron scenario iff it neither fails from an inactive scenario nor deletes scheduled scenarios with their group |
| ScenarioRuns.RemoveEffect | src/scenarios/scenarios.service.ts:145-153 | removal always deletes and counts; with an exact registry it throws afterwards exactly for active scenarios without a cron source |
| ScenarioRuns.UpdateTouchesOnlyItsScenario | src/scenarios/scenarios.service.ts:111-143 | whatever the store and the outcome, other scenarios and jobs under other names are unchanged |
| ScenarioRuns.UpdateStoresSubmitted | src/scenarios/scenarios.service.ts:116-129 | a successful update stores every submitted value and keeps the others; of the sources of a submitted trigger only the expression of the first cron source changes, if it is adjusted |
| ScenarioRuns.FailedUpdateRollsBack | src/scenarios/scenarios.service.ts:136-141 | an active cron scenario that cannot be rescheduled: registry and other scenarios as before, every field it had restored one by one, and the whole store as before iff no absent field was set and the group did not change |
| ScenarioRuns.RunKeepsScheduled | src/scenarios/scenarios.service.ts:93-184 | over every run without such a counter, every active cron scenario has its job |
| ScenarioRuns.RunKeepsCounters | src/scenarios/scenario-groups.service.ts:39-109 | over every run without a failed move, counters agree and therefore jobs do |
| ScenarioRuns.RunKeepsRegistryExact | src/scheduler/scheduler.service.ts:29-38 | if moreover nothing leaves a job behind, the registry holds exactly the jobs of the active cron scenarios |
| ScenarioRuns.ExactRegistryNeverFails | src/scenarios/scenarios.service.ts:162-184 | with an exact registry and a schema that accepts only expressions that parse, no update fails while moving a scenario or activating it |
| ScenarioRuns.RunStaysExact | src/scenarios/scenarios.service.ts:93-184 | with such a schema, jobs and counters stay exact over every run in which no active cron scenario is deleted with its group |
| ScenarioRuns.RunWithoutDeletionsStaysExact | src/scenarios/scenario-groups.service.ts:47-67 | in particular over every run that never deletes a group together with its scenarios |
| ScenarioRuns.StartSchedulesExactly | src/scenarios/scenarios.service.ts:155-160 | starting over any well-formed database succeeds iff every active cron expression parses, and then the registry is exact |
| ScenarioRuns.FailedMoveBreaksJobs | src/scenarios/scenarios.service.ts:129-142 | a concrete run over valid documents and expressions from an exact store to one in which an active cron scenario has the job of its earlier version |
| ScenarioRuns.FailedActivationLeavesJob | src/scenarios/scenarios.service.ts:136-141 | a concrete run after which an inactive scenario has a job it did not have before |
| ScenarioOutcomes.UpdateIsDoneIff | src/scenarios/scenarios.service.ts:111-143 | from every exact store: an update succeeds iff it is admitted, every submitted field is accepted, no other scenario has the resulting name, and an expression that would have to run parses; a refused one changes nothing, a failing one leaves every field the scenario had |
| ScenarioOutcomes.SendingBackChangesNothing | src/scenarios/scenarios.service.ts:116-133 | sending a scenario's own fields back succeeds and leaves the store as it was, unless its trigger follows a time of day that has moved |
| ScenarioOutcomes.StoredTriggerIsSettled | src/scenarios/scenarios.service.ts:124-127 | a trigger without a time of day to follow does not move, nor does one that has just been stored |
| ScenarioOutcomes.UpdatingTwice | src/scenarios/scenarios.service.ts:111-143 | performing a successful update again succeeds and changes nothing more |
| ScenarioOutcomes.AddIsDoneIff | src/scenarios/scenarios.service.ts:93-109 | creating succeeds iff the name is free, the scenario admitted, its fields accepted and its expression parses if it has to run; otherwise scenarios and jobs stay and at most an empty group is left |
| ScenarioOutcomes.DeleteIsDoneIff | src/scenarios/scenario-groups.service.ts:47-67 | deleting a group succeeds iff it exists and no scenario names it or it is said what becomes of those; exactly these are deleted or lose their group, and nothing else changes |
| ScenarioOutcomes.CreateIsDoneIff | src/scenarios/scenario-groups.service.ts:39-45 | a group is created, with count 0, iff its name is new and acceptable |
| ScenarioOutcomes.JobsOfExactStore | src/scenarios/scenarios.service.ts:163-184 | the jobs of an exact store are those of its active scenarios with cron sources, each under the scenario's name and with the expression of its first cron source |
| Execution.ScenariosExecution.ExtractConditions | src/scenarios/scenarios-execution.service.ts:72-93 | the loop over the sources collects `Conditions`, or fails on an unknown device |
| Execution.DeviceConditionHolds | src/common/services/conditions-evaluator.service.ts:18-37 | a condition holds iff every field it declares for controls, measurements and commands shows, strictly equal, in the device's controls, its measurements and the command; a missing payload meets no declared section |
| Execution.OneSectionDecides | src/common/services/conditions-evaluator.service.ts:32-36 | a condition on one section does not depend on the payloads of the other two |
| Execution.ConditionsAre | src/scenarios/scenarios-execution.service.ts:72-93 | for all sources, devices and events: one condition per source, in order, each what its source says; none iff a source names an unknown device |
| Execution.ExecutedIffExpressionHolds | src/scenarios/scenarios-execution.service.ts:44-59 | a scenario with a written AND/OR expression is executed iff its devices are known and the expression is true of what its sources say |
| Execution.RequestsInOrder | src/scenarios/scenarios-execution.service.ts:114-125 | the requests of a list of actions are those of its parts in order |
| Execution.RequestsOfOne | src/scenarios/scenarios-execution.service.ts:116-124 | an action with controls requests exactly these of its device, another one nothing |
| Execution.ScenariosExecution.EmitAndCount | src/scenarios/scenarios-execution.service.ts:114-141 | emits the update requests of the actions in order and counts one execution down |
| Execution.ScenariosExecution.OnDeviceUpdateCompleted | src/scenarios/scenarios-execution.service.ts:32-37 | executes the scenarios found for the device only if something was updated |
| Execution.ScenariosExecution.OnDeviceCommandExecuted | src/scenarios/scenarios-execution.service.ts:39-42 | executes the scenarios found for the device, with the command's payload as a condition |
| Cascade.SpendingSucceeds | src/scenarios/scenarios-execution.service.ts:132-141 | counting an execution down never fails, deactivates at the last one, and keeps jobs and counters in step |
| Cascade.CarryingOutUpdates | src/devices/devices.service.ts:55-65 | a carried out request is an update of the device by the hub, validated and merged as such |
| Cascade.CarryingOutSets | src/devices-control/devices-control.service.ts:107-111 | the device then has every requested value, and no other device changes |
| Cascade.CompletionUpdatesIff | src/devices/dto/update-device.dto.ts:155-161 | a carried out request counts as an update of the controls iff it has a field to set |
| Cascade.StepFollows | src/scenarios/scenarios-execution.service.ts:61-70 | handling any queued event keeps jobs, groups and counters as right as they were and takes executions of limited scenarios from the budget one for one; without unlimited scenarios it lowers the potential |
| Cascade.CascadeTerminates | src/scenarios/scenarios-execution.service.ts:32-42 | every cascade is bounded by the potential of its first state, executes at most the sum of the remaining `repeatTimes`, and executions plus remaining budget are constant |
| CascadeCycles.AcyclicIsBounded | src/scenarios/scenarios-execution.service.ts:32-42 | for every stored state, queue and state of the devices: cascades have a greatest length if no scenarios that are not counted down feed each other in a cycle |
| CascadeCycles.StepDescends | src/scenarios/scenarios-execution.service.ts:61-70 | handling any event lowers, in the order of a cycle-free graph, what some scenario has still to expect: enabling requests first, then triggering events while its conditions hold |
| CascadeCycles.LoopIsEndless | src/scenarios/scenarios-execution.service.ts:114-130 | if states of the devices lead round a cycle of such scenarios, cascades from any stop of it execute any number of scenarios |
| CascadeCycles.LoopIsCycle | src/scenarios/scenarios-execution.service.ts:114-130 | such a loop is a cycle in which each scenario feeds the next |
| CascadeExamples.KeptOnIsEndless | src/scenarios/scenarios-execution.service.ts:127-129 | a scenario that switches on a lamp when it is on is executed any number of times |
| CascadeExamples.SwitchedOnIsBounded | src/devices-control/devices-control.service.ts:107-111 | one that switches on a lamp when it is off is not, whatever the devices, brands and configurations |
| CascadeExamples.CycleWithoutLoop | src/common/services/conditions-evaluator.service.ts:18-37 | two scenarios that feed each other in a cycle that no states of the devices lead round |
| Descent.DescentLowersHeight | src/scenarios/scenarios-execution.service.ts:61-70 | the bound behind it: a step that lowers one of finitely many ordered pairs, or the size and no pair, lowers one number |
| MixedRuns.MixedRunStaysExact | src/scenarios/scenarios-execution.service.ts:127-141 | over every run of operations, scheduled executions and cascades without such a group deletion, jobs and counters stay exact |
| DeviceConfigs.ParsedDefaultsAreValid | src/device-configs/device-configs-parser.service.ts:138-151 | defaults of parsed items pass the checks of their own items, whatever the file declares |
| DeviceConfigs.DefaultIsKeptIff | src/device-configs/device-configs-parser.service.ts:138-151 | a declared default is kept iff the item's declaration describes it, and nothing else of the item changes |
| DeviceConfigs.PassesIffObeys | src/device-configs/validators/device-config-item.validators.ts:41-112 | a value passes iff there is none or it is what the declaration describes: a boolean, a number within its bounds and whole where declared, a text within its lengths that matches pattern and format, a declared name, a plain object |
| DeviceConfigs.FirstBrokenRuleIsReported | src/device-configs/validators/device-config-item.validators.ts:41-112 | the reported error is the first broken rule in the order in which the item's type checks them |
| PayloadValidator.CollectErrors | src/device-configs/device-configs-validator.service.ts:154-170 | the loop lists the field errors in order, then the missing required items |
| PayloadValidator.ValidateSection | src/device-configs/device-configs-validator.service.ts:38-49 | both policies, including undeclared sections, compute `Validated` |
| PayloadValidator.NoErrorsIffRulesKept | src/device-configs/device-configs-validator.service.ts:154-193 | the error list is empty iff every field passes and every required item is present |
| PayloadValidator.FieldPassesIff | src/device-configs/device-configs-validator.service.ts:172-182 | a field passes iff the first item of its name describes its value; one that is not declared iff the configuration says it is not strict; `$override` never |
| PayloadValidator.ReportedErrors | src/device-configs/device-configs-validator.service.ts:154-193 | reported are exactly the problems of the fields and the required items that are missing or empty |
| PayloadValidator.FieldErrorsInOrder | src/device-configs/device-configs-validator.service.ts:156-164 | problems are listed in the order of the fields, at most one for each |
| PayloadValidator.RequiredErrorsInOrder | src/device-configs/device-configs-validator.service.ts:184-193 | missing items are listed in the order of the items |
| PayloadValidator.SanitizeIsLargest | src/device-configs/device-configs-validator.service.ts:124-143 | apart from `$override`, sanitizing returns the largest part of the payload without field errors |
| PayloadValidator.SanitizeIsIdempotent | src/device-configs/device-configs-validator.service.ts:124-152 | sanitizing twice is sanitizing once, the normalized flag included |
| PayloadValidator.PoliciesAgree | src/device-configs/device-configs-validator.service.ts:113-122 | rejection happens iff a rule is broken, and otherwise both policies return the same payload |
| PayloadMapper.MapPayloadToDevice | src/device-configs/device-configs-mapper.service.ts:23-43 | the loop over the fields computes `ToDevice`, later fields of a name winning |
| PayloadMapper.MapPayloadFromDevice | src/device-configs/device-configs-mapper.service.ts:48-65 | the loop over the fields computes `FromDevice` |
| PayloadMapper.RoundTrip | src/device-configs/device-configs-mapper.service.ts:23-65 | mapping a controls payload to the device and back is the identity for unambiguous controls and carried values |
| PayloadMapper.CarriedValueReturns | src/device-configs/device-configs-mapper.service.ts:120-146 | the same for single values, and the item recognizes what was sent for it |
| PayloadMapper.PathHidesValue | src/device-configs/device-configs-mapper.service.ts:125 | an item with a path that is neither boolean nor enum is sent as its path: at most one value can come back, for strings exactly the path |
| PayloadMapper.CategorizeAndMap | src/device-configs/device-configs-mapper.service.ts:71-102 | the loop puts each field into the first section that takes it, or drops it |
| PayloadMapper.CategorizedExactlyOnce | src/device-configs/device-configs-mapper.service.ts:93-118 | with distinct names each field is dropped or found in exactly one section, none is overwritten, and nothing else is found |
| PayloadMapper.CategorizedValueIsKept | src/device-configs/device-configs-mapper.service.ts:128-140 | a categorized boolean or enum value passes its item's checks, so sanitizing keeps it |
| MappedFields.FieldIsSent | src/device-configs/device-configs-mapper.service.ts:24-43 | commands are asked before controls; a declared field is sent under its path or name with the path of its declared value, another one as it is |
| MappedFields.PayloadIsSent | src/device-configs/device-configs-mapper.service.ts:33-43 | unless two fields are sent under one name, every field of a payload arrives and nothing else |
| MappedFields.FieldIsReceived | src/device-configs/device-configs-mapper.service.ts:53-65 | what arrives is named after the first item that recognizes it, other fields stay as they are |
| MappedFields.ValueIsReceived | src/device-configs/device-configs-mapper.service.ts:128-146 | declared values are found by path, then by name, and a boolean item is true iff the name spells "true" in any case; a number as text becomes a number; other values stay |
| MappedFields.FieldGoesToFirst | src/device-configs/device-configs-mapper.service.ts:93-118 | a field goes to the first command that recognizes it, else to the first such control, else to the first such measurement, else nowhere |
| MappedFields.ReportedNumberIsKeptIff | src/device-configs/device-configs-mapper.service.ts:140-143 | a reported number, as text or not, is stored as a number iff it is within the bounds of its item |
| DevicePayloads.DeviceDocument.Update | src/devices/devices.service.ts:330-353 | updating controls, then measurements, computes `Updated`; it is saved iff neither section is refused |
| DevicePayloads.UpdateMergesOrIsRefused | src/devices/devices.service.ts:330-357 | for either origin: an update leaves the device as it was iff it is refused, and otherwise merges each submitted section field by field |
| DevicePayloads.ReportIsStored | src/devices/devices.service.ts:340-357 | a report of the device is never refused for what it contains: every valid field is stored, whatever else there is |
| DevicePayloads.RequestIsAllOrNothing | src/devices/devices.service.ts:340-357 | a request of the API that breaks a rule in either section changes nothing, another one is stored as a whole |
| DevicePayloads.DeviceDocument.ApplyConfigDefaults | src/devices-control/devices-control.service.ts:43-47 | stored values win over the configured defaults, new names have the default of their item or null, and there is nothing else |
| DevicePayloads.DefaultsFillIn | src/devices-control/devices-control.service.ts:43-47 | the same for both sections and any configuration, and applying the defaults twice is applying them once |
| DevicePayloads.DeviceDocument.Reconcile | src/devices/devices.service.ts:283-323 | building and applying the reconcile operation |
| DevicePayloads.MergedFields | src/devices-control/devices-control.service.ts:107-111 | field by field: submitted valid values win, stored ones stay unless `$override` is `true` or `"true"`, nothing else appears |
| DevicePayloads.HistoryKeepsValid | src/devices-control/devices-control.service.ts:43-68 | over any history of updates of either origin, config syncs and applied defaults under a strict config, stored fields stay declared and valid and `$override` is never stored |
| DevicePayloads.HistoryStaysWithinDeclarations | src/devices-control/devices-control.service.ts:43-68 | after any such history every stored value is one its item's declaration describes, every stored number within the bounds of its item |
| DevicePayloads.DefaultsKeepValidity | src/devices-control/devices-control.service.ts:43-47 | filling in defaults gives a valid payload iff the stored one was valid |
| DevicePayloads.ReconcileSection | src/devices/devices.service.ts:294-316 | a reconciled section has exactly the declared names, keeps retained values, gives new names the default of the last item of that name or null; no items, no change; nothing to do the second time |
| DevicePayloads.ReconciledDevice | src/devices/devices.service.ts:294-323 | both sections of a device are reconciled, each with its own items |
| DevicePayloads.ReconcileTwice | src/devices/devices.service.ts:318-322 | a second reconciliation of a device yields no operation |
| DevicePayloads.CreatedPayloadIsValidIff | src/devices/devices.service.ts:155 | what creating a device stores is valid iff the payload overrides, or has neither an invalid field nor `$override` |
| DevicePayloads.CreationStoresOverride | src/devices/devices.service.ts:155 | a concrete rejecting creation that stores `$override: false` |
| DevicePayloads.CreationRestoresInvalidField | src/devices/devices.service.ts:155 | a concrete sanitizing creation that stores the field it dropped |
| ConfigSync.DeviceConfigsService.GetConfig | src/device-configs/device-configs.service.ts:55-63 | returns what the database would answer and keeps every cached entry, misses included, in agreement with it |
| ConfigSync.DeviceConfigsService.SyncToDatabase | src/device-configs/device-configs.service.ts:121-169 | upserts, prunes and clears the cache |
| ConfigSync.HashIsInjective | src/device-configs/device-configs.service.ts:113-115 | keys of colon-free words never share a cache entry |
| ConfigSync.SyncForgetsThePast | src/device-configs/device-configs.service.ts:121-169 | after a sync the collection depends on the parsed configurations alone, and syncing again changes nothing |
| ConfigSync.SyncedAnswers | src/device-configs/device-configs.service.ts:129-169 | with distinct keys every query is answered from the parsed files, section by section, whatever their order |
| Zigbee.ZigbeeHub.Update | src/devices/devices.service.ts:166-196 | saves a changed name if the schema and the unique index accept it, for devices with an IEEE address only, and publishes a rename iff the snapshot has another name |
| Zigbee.ZigbeeHub.OnConnectedDevicesListChange | src/zigbee/zigbee.controller.ts:41-46 | replaces the snapshot, then aligns the stored names |
| Zigbee.NameUpdateEffect | src/devices/devices.service.ts:166-196 | a paired device takes a new name iff it is valid and no other device has it; the bridge is asked to take it unless the snapshot has it; nothing else changes |
| Zigbee.ResponseEffect | src/zigbee/zigbee.service.ts:53-63 | the hub stores the new name for the device it has under the old one, on the same terms |
| Zigbee.PairingEffect | src/devices/devices.service.ts:140-164 | only devices of the snapshot are paired, under a valid name no other device has, and the bridge is told the name |
| Zigbee.RemovalEffect | src/devices/devices.service.ts:211-218 | a removed device is unpaired from the bridge |
| Zigbee.SnapshotOf | src/zigbee/store/zigbee-pairable-devices.ts:18-37 | the snapshot holds the names of exactly the supported devices in use whose interview has succeeded |
| Zigbee.ListHandled | src/zigbee/zigbee.service.ts:69-91 | for every list: a device the list shows as eligible is never renamed back; a connected hub publishes renames exactly for drifted devices listed as not eligible whose listed names save in their turn |
| Zigbee.AlignableListHandled | src/zigbee/zigbee.service.ts:69-91 | if all listed names can be saved, every listed device ends up with its listed name |
| Zigbee.IneligibleIsRenamedBack | src/zigbee/zigbee.service.ts:69-91 | a concrete list after which the hub publishes a rename back |
| Zigbee.SyncAlignsIff | src/zigbee/zigbee.service.ts:73-90 | each listed eligible device ends up with its listed name iff that name is not refused in its turn |
| Zigbee.NamesAgreeWhenQuiet | src/zigbee/zigbee.controller.ts:41-46 | over every interleaving of updates, pairings, bridge changes and messages, names of eligible devices agree whenever both channels are empty, except for devices whose listed names the last list handled could not save in their turn |
| Zigbee.AlignableRunAgrees | src/zigbee/zigbee.controller.ts:41-46 | without exceptions if every list handled can be saved as it is |
| Zigbee.FirstListIsConsistent | src/zigbee/store/zigbee-pairable-devices.ts:18-37 | a hub that has seen nothing is consistent once the first list is under way |
| Zigbee.SwappedNamesStayApart | src/devices/schemas/device.schema.ts:76-85 | swapped names cannot be aligned one by one under the unique index |
| Topics.CompleteTopic | src/mqtt/mqtt.service.ts:9-12 | folding the replacement over the parameters computes `Substitute`, replacement patterns included |
| Topics.ExtractWildcards | src/mqtt/mqtt.service.ts:14-24 | the loop over the pattern's levels collects the values at its wildcards |
| Topics.ValueAtWildcard | src/mqtt/mqtt.service.ts:14-24 | for any pattern and topic: one value for each wildcard, in order, the topic's level at its place or undefined where there is none |
| Topics.ExtractInvertsPublish | src/mqtt/mqtt.service.ts:9-24 | extracting from a published topic gives back the parameters in order, whatever they contain besides `/` and `+`, if each `$` is doubled |
| Topics.DollarParamsAreLost | src/mqtt/mqtt.service.ts:10 | undoubled, the replacement patterns put the wildcard or the topic around it in place of the parameter |
| Pages.GetAllDevices | src/devices/devices.service.ts:95-110 | collecting pages 1 to ceil(total/size) gives every item once and in order, for every page size |
| Pages.PagesJoin | src/common/dto/pagination-response.dto.ts:21-33 | the pages 1 to ceil(total/size) of a collection, cut by skip and limit, concatenate to the collection |
| Pages.NextPage | src/common/dto/pagination-response.dto.ts:21-33 | each page continues exactly where the pages before it end |

## Left out

- HTTP, MQTT, Tuya and Cast transports, brand control services, discovery, logging, authentication, registration: thin
  wrappers or input and output.
- The interleaving of asynchronous handlers inside one step, such as a configuration read while a sync is running or an
  execution working on an outdated scenario: every handler is one step.
- YAML parsing and the structural normalization of items other than their defaults; parsed items are the input.
- Trimming, upper-casing and length limits applied by document schemas before or beside the modelled checks. Names and
  groups are compared as they are stored.
- The rule of at most one cron source per scenario and the checks of single trigger sources: short case analyses. The first
  cron source is used throughout, as in the code.
- Command execution outside of cascades.
- What else changes devices while a cascade lasts: within a cascade the devices change by the requested updates alone, each
  of which may also be refused, as when the device does not answer.
- CascadeCycles.AcyclicIsBounded: not an equivalence. Whether a cycle that is no loop is endless depends on which of the
  requests that are under way at the same time can be combined, and the two conditions do not decide it.
- Numbers are mathematical reals and naturals; operands beyond the range of double-precision numbers are not rounded.
- Strings are sequences of characters; lower-casing covers the Latin letters A to Z.
- Filters of the paginated queries; `Pages` takes the filtered collection as given and unchanged while it is collected.
- PayloadMapper.RoundTrip: boolean items hold booleans, enum items texts, number items numbers, because the mapping converts other values on the way back.
- Zigbee.NamesAgreeWhenQuiet: the hub is connected, listed names are not empty and the bridge carries out every rename of a device it knows and publishes its list, because otherwise no message would tell the hub.
