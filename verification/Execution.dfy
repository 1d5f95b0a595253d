/**
 * Executing scenarios on device events (scenarios/scenarios-execution.service.ts): conditions, the update requests of
 * the actions, and the remaining number of executions.
 */
module Execution {
  import opened Options
  import opened Values
  import opened Scheduler
  import opened Scenarios
  import opened ScenarioStore
  import Sequences
  import TriggerExpression
  import TriggerLogic
  import TriggerText

  datatype Context = Context(scheduled: Option<bool>, commands: Option<Payload>)

  datatype Event =
    | UpdateRequested(deviceId: string, controls: Payload)
    | UpdateCompleted(deviceId: string, controlsUpdated: bool, measurementsUpdated: bool)
    | CommandExecuted(deviceId: string, commands: Payload)

  // ---------------------------------------------------------------------------------------------
  // Conditions
  // ---------------------------------------------------------------------------------------------

  predicate MeetsConditions(conditions: Option<Payload>, payload: Option<Payload>) {
    conditions.Some? ==>
      && payload.Some?
      && forall f :: f in conditions.value ==> StrictlyEqual(Field(payload.value, f), conditions.value[f])
  }

  predicate DeviceConditionIsMet(source: TriggerSource, device: Device, commands: Option<Payload>)
    requires source.DeviceSource?
  {
    && MeetsConditions(source.controls, device.controls)
    && MeetsConditions(source.measurements, device.measurements)
    && MeetsConditions(source.commands, commands)
  }

  /** One condition per source in order; looking up a device that does not exist throws. */
  function Conditions(sources: seq<TriggerSource>, devices: map<string, Device>, context: Context): Option<seq<bool>> {
    if sources == [] then Some([])
    else if sources[0].DeviceSource? && sources[0].externalId !in devices then None
    else
      var first := Condition(sources[0], devices, context);
      var rest := Conditions(sources[1..], devices, context);
      if rest.None? then None else Some([first] + rest.value)
  }

  lemma ConditionsFrom(sources: seq<TriggerSource>, i: nat, devices: map<string, Device>, context: Context)
    requires i < |sources|
    ensures var source, rest := sources[i], Conditions(sources[i + 1..], devices, context);
            Conditions(sources[i..], devices, context)
            == if (source.DeviceSource? && source.externalId !in devices) || rest.None? then None
               else Some([Condition(source, devices, context)] + rest.value)
  {
    assert sources[i..][0] == sources[i] && sources[i..][1..] == sources[i + 1..];
  }

  predicate Condition(source: TriggerSource, devices: map<string, Device>, context: Context)
    requires source.DeviceSource? ==> source.externalId in devices
  {
    if source.CronSource? then GetOr(context.scheduled, false)
    else DeviceConditionIsMet(source, devices[source.externalId], context.commands)
  }

  /** Errors while evaluating are caught, an undefined value is falsy: only `true` executes the scenario. */
  predicate ShouldExecute(s: Scenario, devices: map<string, Device>, context: Context) {
    var conditions := Conditions(s.trigger.sources, devices, context);
    && conditions.Some?
    && TriggerLogic.EvaluateTriggerExpression(s.trigger.logic, conditions.value)
       == TriggerLogic.Result(TriggerExpression.Known(true))
  }

  // ---------------------------------------------------------------------------------------------
  // What the conditions mean
  // ---------------------------------------------------------------------------------------------

  /** The payload has the field with this value; objects and NaN are never the same value in two documents. */
  ghost predicate Shows(payload: Option<Payload>, field: string, value: Value) {
    && payload.Some? && value != NaN && !value.Object?
    && if field in payload.value then payload.value[field] == value else value == Undefined
  }

  /** There is such a payload, and every declared field shows in it. */
  ghost predicate ShowsAll(payload: Option<Payload>, declared: Payload) {
    payload.Some? && forall f :: f in declared ==> Shows(payload, f, declared[f])
  }

  /** Every declared section shows in the payload of that section. */
  ghost predicate Holds(source: TriggerSource, device: Device, commands: Option<Payload>)
    requires source.DeviceSource?
  {
    && (source.controls.Some? ==> ShowsAll(device.controls, source.controls.value))
    && (source.measurements.Some? ==> ShowsAll(device.measurements, source.measurements.value))
    && (source.commands.Some? ==> ShowsAll(commands, source.commands.value))
  }

  lemma DeviceConditionHolds(source: TriggerSource, device: Device, commands: Option<Payload>)
    requires source.DeviceSource?
    ensures DeviceConditionIsMet(source, device, commands) <==> Holds(source, device, commands)
  {
  }

  /** A condition on one section does not depend on the payloads of the others. */
  lemma OneSectionDecides(device: Device, other: Device, externalId: string, conditions: Payload,
                          commands: Option<Payload>, others: Option<Payload>)
    ensures var source := DeviceSource(externalId, Some(conditions), None, None);
            device.controls == other.controls ==>
              DeviceConditionIsMet(source, device, commands) == DeviceConditionIsMet(source, other, others)
    ensures var source := DeviceSource(externalId, None, Some(conditions), None);
            device.measurements == other.measurements ==>
              DeviceConditionIsMet(source, device, commands) == DeviceConditionIsMet(source, other, others)
    ensures var source := DeviceSource(externalId, None, None, Some(conditions));
            commands == others ==>
              DeviceConditionIsMet(source, device, commands) == DeviceConditionIsMet(source, other, others)
  {
  }

  ghost predicate AllKnown(sources: seq<TriggerSource>, devices: map<string, Device>) {
    forall i :: 0 <= i < |sources| && sources[i].DeviceSource? ==> sources[i].externalId in devices
  }

  /** What source `i` of a scenario says at an event: a cron source holds exactly during a scheduled execution. */
  ghost predicate SourceHolds(sources: seq<TriggerSource>, devices: map<string, Device>, context: Context, i: nat)
    requires i < |sources| && AllKnown(sources, devices)
  {
    match sources[i]
    case CronSource(_, _) => context.scheduled == Some(true)
    case DeviceSource(externalId, _, _, _) => Holds(sources[i], devices[externalId], context.commands)
  }

  /**
   * The conditions of a scenario are exactly what its sources say, one after the other; they cannot be evaluated iff a
   * source names an unknown device.
   */
  lemma {:induction false} ConditionsAre(sources: seq<TriggerSource>, devices: map<string, Device>, context: Context)
    ensures Conditions(sources, devices, context).Some? <==> AllKnown(sources, devices)
    ensures AllKnown(sources, devices) ==>
              var conditions := Conditions(sources, devices, context).value;
              && |conditions| == |sources|
              && forall i :: 0 <= i < |sources| ==> (conditions[i] <==> SourceHolds(sources, devices, context, i))
    decreases |sources|
  {
    if sources == [] {
    } else {
      var rest := sources[1..];
      ConditionsAre(rest, devices, context);
      assert forall i :: 1 <= i < |sources| ==> sources[i] == rest[i - 1];
      assert AllKnown(sources, devices) <==>
               AllKnown(rest, devices) && (sources[0].DeviceSource? ==> sources[0].externalId in devices) by {
        assert forall i :: 0 <= i < |rest| ==> rest[i] == sources[i + 1];
      }
      if AllKnown(sources, devices) {
        if sources[0].DeviceSource? {
          DeviceConditionHolds(sources[0], devices[sources[0].externalId], context.commands);
        }
        forall i | 1 <= i < |sources|
          ensures SourceHolds(sources, devices, context, i) <==> SourceHolds(rest, devices, context, i - 1)
        {
        }
      }
    }
  }

  /**
   * A scenario whose logic is a written AND/OR expression over its sources is executed iff its devices are known and
   * the expression is true of what its sources say.
   */
  lemma ExecutedIffExpressionHolds(s: Scenario, e: TriggerExpression.Expr, facts: seq<bool>,
                                   devices: map<string, Device>, context: Context)
    requires s.trigger.logic == TriggerText.Write(TriggerExpression.Print(e))
    requires TriggerExpression.OperandsWithin(e, |s.trigger.sources|)
    requires AllKnown(s.trigger.sources, devices) ==>
               && |facts| == |s.trigger.sources|
               && forall i :: 0 <= i < |facts| ==> facts[i] == SourceHolds(s.trigger.sources, devices, context, i)
    ensures ShouldExecute(s, devices, context) <==>
              AllKnown(s.trigger.sources, devices) && TriggerExpression.Meaning(e, facts)
  {
    ConditionsAre(s.trigger.sources, devices, context);
    if AllKnown(s.trigger.sources, devices) {
      assert Conditions(s.trigger.sources, devices, context).value == facts;
      TriggerText.WrittenExpressionEvaluates(e, facts);
    }
  }

  // ---------------------------------------------------------------------------------------------
  // Executing
  // ---------------------------------------------------------------------------------------------

  /** No trigger is submitted with a new execution count, so no time of day matters. */
  const NO_TIMES := DayTimePoints(TimePoint("0", "0"), TimePoint("0", "0"))

  function Requests(actions: seq<Action>): seq<Event> {
    if actions == [] then []
    else (if actions[0].controls.Some? then [UpdateRequested(actions[0].externalId, actions[0].controls.value)] else [])
         + Requests(actions[1..])
  }

  /** Requests come in the order of the actions. */
  lemma {:induction false} RequestsInOrder(before: seq<Action>, behind: seq<Action>)
    ensures Requests(before + behind) == Requests(before) + Requests(behind)
    decreases |before|
  {
    if before == [] {
      assert before + behind == behind;
    } else {
      assert (before + behind)[0] == before[0] && (before + behind)[1..] == before[1..] + behind;
      RequestsInOrder(before[1..], behind);
      Sequences.Associate(Requests([before[0]]), Requests(before[1..]), Requests(behind));
      RequestsOfFirst(before);
      RequestsOfFirst(before + behind);
    }
  }

  lemma RequestsOfFirst(actions: seq<Action>)
    requires actions != []
    ensures Requests(actions) == Requests([actions[0]]) + Requests(actions[1..])
  {
    assert [actions[0]][1..] == [];
  }

  /** An action with controls requests exactly these of its device; another one requests nothing. */
  lemma RequestsOfOne(a: Action)
    ensures Requests([a]) == if a.controls == None then [] else [UpdateRequested(a.externalId, a.controls.value)]
  {
    assert [a][1..] == [];
  }

  function RepeatTimesUpdate(count: int): UpdateDto {
    if count - 1 == 0 then NO_UPDATE.(active := Some(false), repeatTimes := RepeatTimes.Null)
    else NO_UPDATE.(repeatTimes := Times(count - 1))
  }

  /** The store, the events not handled yet, and how many scenarios have been executed. */
  datatype Progress = Progress(store: Store, queue: seq<Event>, executed: nat)

  function ExecuteScenario(rules: Rules, p: Progress, id: string, s: Scenario): Progress {
    Progress(
      if s.repeatTimes.Times?
      then UpdateScenario(rules, p.store, id, RepeatTimesUpdate(s.repeatTimes.count), NO_TIMES, true).store
      else p.store,
      p.queue + Requests(s.actions),
      p.executed + 1)
  }

  function Execute(rules: Rules, p: Progress, devices: map<string, Device>, id: string, s: Scenario,
                   context: Context): Progress
  {
    if ShouldExecute(s, devices, context) then ExecuteScenario(rules, p, id, s) else p
  }

  predicate HasSourceFor(sources: seq<TriggerSource>, deviceId: string) {
    exists source :: source in sources && source.DeviceSource? && source.externalId == deviceId
  }

  predicate TriggeredBy(s: Scenario, deviceId: string) {
    s.active && HasSourceFor(s.trigger.sources, deviceId)
  }

  /** Executing the scenarios found for an event, as they were found, in the order the database returned them. */
  function ExecuteAll(rules: Rules, p: Progress, devices: map<string, Device>, ids: seq<string>,
                      found: map<string, Scenario>, context: Context): Progress
    requires forall id :: id in ids ==> id in found
    decreases |ids|
  {
    if ids == [] then p
    else ExecuteAll(rules, Execute(rules, p, devices, ids[0], found[ids[0]], context), devices, ids[1..], found,
                    context)
  }

  /** `ids` enumerates the scenarios a device event triggers. */
  ghost predicate Triggered(scenarios: map<string, Scenario>, deviceId: string, ids: seq<string>) {
    && (forall i, j :: 0 <= i < j < |ids| ==> ids[i] != ids[j])
    && (forall id :: id in ids <==> id in scenarios && TriggeredBy(scenarios[id], deviceId))
  }

  // ---------------------------------------------------------------------------------------------
  // The service
  // ---------------------------------------------------------------------------------------------

  class ScenariosExecution {
    const hub: Hub
    var devices: map<string, Device>
    var queue: seq<Event>
    ghost var executed: nat

    ghost function State(): Progress
      reads this, hub
    {
      Progress(hub.State(), queue, executed)
    }

    constructor (hub: Hub, devices: map<string, Device>)
      ensures this.hub == hub && this.devices == devices && queue == [] && executed == 0
    {
      this.hub, this.devices, this.queue, this.executed := hub, devices, [], 0;
    }

    method ExtractConditions(sources: seq<TriggerSource>, context: Context) returns (conditions: Option<seq<bool>>)
      ensures conditions == Conditions(sources, devices, context)
    {
      var collected: seq<bool> := [];
      for i := 0 to |sources|
        invariant Conditions(sources, devices, context).Some? <==> Conditions(sources[i..], devices, context).Some?
        invariant Conditions(sources, devices, context).Some? ==>
                    Conditions(sources, devices, context).value
                      == collected + Conditions(sources[i..], devices, context).value
      {
        ghost var before := collected;
        ConditionsFrom(sources, i, devices, context);
        match sources[i] {
          case CronSource(_, _) =>
            collected := collected + [GetOr(context.scheduled, false)];
          case DeviceSource(externalId, _, _, _) =>
            if externalId !in devices {
              return None;
            }
            collected := collected + [DeviceConditionIsMet(sources[i], devices[externalId], context.commands)];
        }
        ghost var rest := Conditions(sources[i + 1..], devices, context);
        if rest.Some? {
          Sequences.Associate(before, [Condition(sources[i], devices, context)], rest.value);
        }
      }
      assert sources[|sources|..] == [] && collected + [] == collected;
      return Some(collected);
    }

    method EmitAndCount(id: string, s: Scenario)
      modifies this, hub
      ensures State() == ExecuteScenario(hub.rules, old(State()), id, s) && devices == old(devices)
    {
      for i := 0 to |s.actions|
        invariant hub.State() == old(hub.State()) && devices == old(devices) && executed == old(executed)
        invariant queue + Requests(s.actions[i..]) == old(queue) + Requests(s.actions)
      {
        assert s.actions[i..][0] == s.actions[i] && s.actions[i..][1..] == s.actions[i + 1..];
        if s.actions[i].controls != None {
          queue := queue + [UpdateRequested(s.actions[i].externalId, s.actions[i].controls.value)];
        }
      }
      assert s.actions[|s.actions|..] == [];
      executed := executed + 1;
      if s.repeatTimes.Times? {
        var executionsLeft := s.repeatTimes.count - 1;
        var payload;
        if executionsLeft == 0 {
          payload := NO_UPDATE.(active := Some(false), repeatTimes := RepeatTimes.Null);
        } else {
          payload := NO_UPDATE.(repeatTimes := Times(executionsLeft));
        }
        var _ := hub.Update(id, payload, NO_TIMES, true);
      }
    }

    method ExecuteIfMet(id: string, s: Scenario, context: Context)
      modifies this, hub
      ensures State() == Execute(hub.rules, old(State()), devices, id, s, context) && devices == old(devices)
    {
      var conditions := ExtractConditions(s.trigger.sources, context);
      if conditions.Some? {
        var evaluation := TriggerLogic.EvaluateLogic(s.trigger.logic, conditions.value);
        if evaluation == TriggerLogic.Result(TriggerExpression.Known(true)) {
          EmitAndCount(id, s);
        }
      }
    }

    /** `ids`: what the database finds for the device. */
    method TriggerDeviceRelatedScenarios(deviceId: string, context: Context, ids: seq<string>)
      requires Triggered(hub.scenarios, deviceId, ids)
      modifies this, hub
      ensures State() == ExecuteAll(hub.rules, old(State()), devices, ids, old(hub.scenarios), context)
      ensures devices == old(devices)
    {
      var found := hub.scenarios;
      for i := 0 to |ids|
        invariant devices == old(devices)
        invariant ExecuteAll(hub.rules, State(), devices, ids[i..], found, context)
                  == ExecuteAll(hub.rules, old(State()), devices, ids, found, context)
      {
        assert ids[i..][0] == ids[i] && ids[i..][1..] == ids[i + 1..];
        ExecuteIfMet(ids[i], found[ids[i]], context);
      }
      assert ids[|ids|..] == [];
    }

    method OnDeviceUpdateCompleted(event: Event, ids: seq<string>)
      requires event.UpdateCompleted? && Triggered(hub.scenarios, event.deviceId, ids)
      modifies this, hub
      ensures devices == old(devices)
      ensures State() ==
              if event.controlsUpdated || event.measurementsUpdated
              then ExecuteAll(hub.rules, old(State()), devices, ids, old(hub.scenarios), Context(None, None))
              else old(State())
    {
      if event.controlsUpdated || event.measurementsUpdated {
        TriggerDeviceRelatedScenarios(event.deviceId, Context(None, None), ids);
      }
    }

    method OnDeviceCommandExecuted(event: Event, ids: seq<string>)
      requires event.CommandExecuted? && Triggered(hub.scenarios, event.deviceId, ids)
      modifies this, hub
      ensures devices == old(devices)
      ensures State()
              == ExecuteAll(hub.rules, old(State()), devices, ids, old(hub.scenarios),
                            Context(None, Some(event.commands)))
    {
      TriggerDeviceRelatedScenarios(event.deviceId, Context(None, Some(event.commands)), ids);
    }
  }
}
