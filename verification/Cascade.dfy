/**
 * Cascades of device events: an executed scenario requests device updates, a completed update triggers scenarios.
 * With a remaining number of executions on every device-triggered scenario, every cascade comes to an end.
 */
module Cascade {
  import opened Options
  import opened Values
  import opened Scenarios
  import opened ScenarioStore
  import opened ScenarioInvariants
  import opened Execution
  import opened Chains
  import DeviceConfigs
  import DevicePayloads
  import ScenarioRuns

  // ---------------------------------------------------------------------------------------------
  // Steps
  // ---------------------------------------------------------------------------------------------

  /** What a cascade does not change: the store's rules, and of each device its brand's checks and configuration. */
  datatype Setting = Setting(
    rules: Rules,
    rt: DeviceConfigs.Runtime,
    brand: string -> DevicePayloads.Brand,
    config: string -> Option<DeviceConfigs.Config>)

  datatype World = World(progress: Progress, devices: map<string, Device>)

  /** The devices behind carrying out a request, unless the device is unknown or its merged controls are rejected. */
  ghost function CarriedOut(env: Setting, devices: map<string, Device>, deviceId: string, controls: Payload):
    Option<map<string, Device>>
  {
    if deviceId !in devices then None
    else
      var merged := DevicePayloads.MergeValidate(env.rt, env.config(deviceId), DeviceConfigs.Controls,
                                                 env.brand(deviceId).controls, controls, devices[deviceId].controls,
                                                 DevicePayloads.PolicyOf(DevicePayloads.FromApi));
      if merged.None? then None else Some(devices[deviceId := Device(merged, devices[deviceId].measurements)])
  }

  /** A carried out request is an update of the device from the hub's own side. */
  lemma CarryingOutUpdates(env: Setting, devices: map<string, Device>, deviceId: string, controls: Payload)
    requires CarriedOut(env, devices, deviceId, controls).Some?
    ensures var update := DevicePayloads.DeviceUpdate(Some(controls), None);
            CarriedOut(env, devices, deviceId, controls).value ==
            devices[deviceId := DevicePayloads.Updated(env.rt, env.brand(deviceId), env.config(deviceId),
                                                       devices[deviceId], update, DevicePayloads.FromApi)]
  {
  }

  /** The device then has what was requested, and no other device changes. */
  lemma CarryingOutSets(env: Setting, devices: map<string, Device>, deviceId: string, controls: Payload, name: string)
    requires CarriedOut(env, devices, deviceId, controls).Some?
    requires name in controls && name != DevicePayloads.PayloadValidator.OVERRIDE
    ensures var after := CarriedOut(env, devices, deviceId, controls).value;
            && deviceId in after && after[deviceId].controls.Some?
            && Field(after[deviceId].controls.value, name) == controls[name]
            && after - {deviceId} == devices - {deviceId}
  {
  }

  /** Where no configuration copies the payload, merging removes the override key from the submitted one. */
  function ControlsUpdated(env: Setting, deviceId: string, controls: Payload): bool {
    var config := env.config(deviceId);
    if config.Some? && config.value.controls.Some? then controls != map[]
    else controls - {DevicePayloads.PayloadValidator.OVERRIDE} != map[]
  }

  function Completion(env: Setting, deviceId: string, controls: Payload): Event {
    UpdateCompleted(deviceId, ControlsUpdated(env, deviceId, controls), false)
  }

  /** Requests without any field to set are completed without an update, and so trigger nothing. */
  lemma CompletionUpdatesIff(env: Setting, deviceId: string, controls: Payload)
    ensures var completion, config := Completion(env, deviceId, controls), env.config(deviceId);
            var checked := config.Some? && config.value.controls.Some?;
            && completion.UpdateCompleted? && completion.deviceId == deviceId && !completion.measurementsUpdated
            && (completion.controlsUpdated <==> exists name :: name in controls && (checked || name != "$override"))
  {
    var fields := controls - {DevicePayloads.PayloadValidator.OVERRIDE};
    if name :| name in controls && name != "$override" {
      assert name in fields;
    }
    if name :| name in fields {
      assert name in controls && name != "$override";
    }
  }

  /** Handling the event at position `i` of the queue, whatever the order of delivery. */
  ghost predicate Step(env: Setting, w: World, w': World, i: nat)
    requires i < |w.progress.queue|
  {
    var p := w.progress;
    var rest := p.(queue := p.queue[..i] + p.queue[i + 1..]);
    match p.queue[i]
    case UpdateRequested(deviceId, controls) =>
      // the device is gone or does not take the update, or the update is carried out
      || (w'.progress == rest && w'.devices == w.devices)
      || (&& CarriedOut(env, w.devices, deviceId, controls) == Some(w'.devices)
          && w'.progress == rest.(queue := rest.queue + [Completion(env, deviceId, controls)]))
    case UpdateCompleted(deviceId, controlsUpdated, measurementsUpdated) =>
      && w'.devices == w.devices
      && if controlsUpdated || measurementsUpdated
         then Triggers(env.rules, w.devices, deviceId, Context(None, None), rest, w'.progress)
         else w'.progress == rest
    case CommandExecuted(deviceId, commands) =>
      && w'.devices == w.devices
      && Triggers(env.rules, w.devices, deviceId, Context(None, Some(commands)), rest, w'.progress)
  }

  ghost predicate Triggers(rules: Rules, devices: map<string, Device>, deviceId: string, context: Context,
                           p: Progress, p': Progress)
  {
    exists ids :: Triggered(p.store.scenarios, deviceId, ids)
               && p' == ExecuteAll(rules, p, devices, ids, p.store.scenarios, context)
  }

  ghost predicate Next(env: Setting, w: World, w': World) {
    exists i: nat :: i < |w.progress.queue| && Step(env, w, w', i)
  }

  ghost function NextIn(env: Setting): (World, World) -> bool { (w, w') => Next(env, w, w') }

  /** A sequence of worlds, each behind the handling of one more event. */
  ghost predicate IsCascade(env: Setting, ws: seq<World>) { IsChain(NextIn(env), ws) }

  // ---------------------------------------------------------------------------------------------
  // Limited and unlimited scenarios
  // ---------------------------------------------------------------------------------------------

  predicate DeviceTriggered(s: Scenario) {
    s.active && exists source :: source in s.trigger.sources && source.DeviceSource?
  }

  /** A number of executions is left, at least 1 as every request must say. */
  predicate Limited(s: Scenario) { s.repeatTimes.Times? && s.repeatTimes.count >= 1 }

  /** Every scenario a device can trigger has a number of executions left. */
  ghost predicate Budgeted(scenarios: map<string, Scenario>) {
    forall id :: id in scenarios && DeviceTriggered(scenarios[id]) ==> Limited(scenarios[id])
  }

  /** The scenarios devices can trigger without a limit, up to what an execution may change of them. */
  function Unlimited(scenarios: map<string, Scenario>): map<string, Scenario> {
    map id | id in scenarios && DeviceTriggered(scenarios[id]) && !Limited(scenarios[id]) ::
      scenarios[id].(repeatTimes := Unset)
  }

  lemma NoUnlimitedIffBudgeted(scenarios: map<string, Scenario>)
    ensures Unlimited(scenarios) == map[] <==> Budgeted(scenarios)
  {
    forall id | id in scenarios && DeviceTriggered(scenarios[id]) && !Limited(scenarios[id])
      ensures id in Unlimited(scenarios)
    {
    }
  }

  function Remaining(s: Scenario): nat {
    if DeviceTriggered(s) && Limited(s) then s.repeatTimes.count else 0
  }

  // ---------------------------------------------------------------------------------------------
  // Weights
  // ---------------------------------------------------------------------------------------------

  /** A request and its completion are one event each. */
  function EventWeight(event: Event): nat { if event.UpdateRequested? then 2 else 1 }

  function Weight(queue: seq<Event>): nat {
    if queue == [] then 0 else EventWeight(queue[0]) + Weight(queue[1..])
  }

  /** What one execution of the scenario adds to the queue. */
  function Cost(s: Scenario): nat { Weight(Requests(s.actions)) }

  function RemainingCost(s: Scenario): nat { Remaining(s) * Cost(s) }

  ghost function Total(scenarios: map<string, Scenario>, f: Scenario -> nat): nat
    decreases |scenarios|
  {
    if scenarios == map[] then 0
    else
      var id :| id in scenarios;
      assert |scenarios - {id}| < |scenarios| by { RemovedIsSmaller(scenarios, id); }
      f(scenarios[id]) + Total(scenarios - {id}, f)
  }

  lemma RemovedIsSmaller(scenarios: map<string, Scenario>, id: string)
    requires id in scenarios
    ensures |scenarios - {id}| == |scenarios| - 1
  {
    assert (scenarios - {id}).Keys == scenarios.Keys - {id};
  }

  /** Remaining executions of all scenarios. */
  ghost function Budget(p: Progress): nat { Total(p.store.scenarios, Remaining) }

  /** An upper bound on the events still to be handled when all scenarios are limited. */
  ghost function Potential(p: Progress): nat { Weight(p.queue) + Total(p.store.scenarios, RemainingCost) }

  lemma {:induction false} TotalWithout(scenarios: map<string, Scenario>, f: Scenario -> nat, id: string)
    requires id in scenarios
    ensures Total(scenarios, f) == f(scenarios[id]) + Total(scenarios - {id}, f)
    decreases |scenarios|
  {
    var first :| first in scenarios && Total(scenarios, f) == f(scenarios[first]) + Total(scenarios - {first}, f);
    if first != id {
      RemovedIsSmaller(scenarios, first);
      RemovedIsSmaller(scenarios, id);
      TotalWithout(scenarios - {first}, f, id);
      TotalWithout(scenarios - {id}, f, first);
      assert scenarios - {first} - {id} == scenarios - {id} - {first};
    }
  }

  lemma TotalUpdate(scenarios: map<string, Scenario>, f: Scenario -> nat, id: string, s: Scenario)
    requires id in scenarios
    ensures Total(scenarios[id := s], f) + f(scenarios[id]) == Total(scenarios, f) + f(s)
  {
    TotalWithout(scenarios, f, id);
    TotalWithout(scenarios[id := s], f, id);
    assert scenarios[id := s] - {id} == scenarios - {id};
  }

  lemma {:induction false} WeightAppend(a: seq<Event>, more: seq<Event>)
    ensures Weight(a + more) == Weight(a) + Weight(more)
  {
    if a == [] {
      assert a + more == more;
    } else {
      assert (a + more)[1..] == a[1..] + more;
      WeightAppend(a[1..], more);
    }
  }

  lemma WeightWithout(queue: seq<Event>, i: nat)
    requires i < |queue|
    ensures Weight(queue) == Weight(queue[..i] + queue[i + 1..]) + EventWeight(queue[i])
  {
    WeightAppend(queue[..i], queue[i + 1..]);
    assert queue == queue[..i] + queue[i..];
    WeightAppend(queue[..i], queue[i..]);
    assert queue[i..][1..] == queue[i + 1..];
  }

  // ---------------------------------------------------------------------------------------------
  // One execution
  // ---------------------------------------------------------------------------------------------

  /** The scenario behind an execution that is counted. */
  function Spent(s: Scenario): Scenario
    requires s.repeatTimes.Times?
  {
    if s.repeatTimes.count - 1 == 0 then s.(active := false, repeatTimes := RepeatTimes.Null)
    else s.(repeatTimes := Times(s.repeatTimes.count - 1))
  }

  /** Counting an execution never fails: the stored document is valid and its expression could be scheduled before. */
  lemma SpendingSucceeds(rules: Rules, st: Store, id: string)
    requires Scheduled(rules, st) && id in st.scenarios
    requires st.scenarios[id].active && st.scenarios[id].repeatTimes.Times?
    ensures var dto := RepeatTimesUpdate(st.scenarios[id].repeatTimes.count);
            var e := UpdateScenario(rules, st, id, dto, NO_TIMES, true);
            && e.outcome.Done?
            && e.store.scenarios == st.scenarios[id := Spent(st.scenarios[id])]
            && e.store.groups == st.groups
            && Scheduled(rules, e.store)
  {
    var s := st.scenarios[id];
    var dto := RepeatTimesUpdate(s.repeatTimes.count);
    assert Assign(s, dto, NO_TIMES) == Spent(s);
    forall other | other in st.scenarios - {id}
      ensures st.scenarios[other].name != s.name
    {
    }
    assert Saves(rules, st, id, dto, NO_TIMES, true);
    if NeedsJob(s) {
      assert HasJob(st.jobs, id, s);
    }
    RescheduleEffect(rules, st, id, Spent(s));
    UpdateKeepsScheduled(rules, st, id, dto, NO_TIMES, true);
  }

  /** Counting an execution moves no scenario to another group and activates none, so it fails neither way. */
  lemma SpendingKeepsExact(rules: Rules, st: Store, id: string)
    requires Scheduled(rules, st) && CountersAgree(st) && id in st.scenarios
    requires st.scenarios[id].active && st.scenarios[id].repeatTimes.Times?
    ensures var dto := RepeatTimesUpdate(st.scenarios[id].repeatTimes.count);
            var e := UpdateScenario(rules, st, id, dto, NO_TIMES, true);
            CountersAgree(e.store) && (NoStaleJobs(st) ==> NoStaleJobs(e.store))
  {
    var dto := RepeatTimesUpdate(st.scenarios[id].repeatTimes.count);
    assert Assign(st.scenarios[id], dto, NO_TIMES).group == st.scenarios[id].group;
    ScenarioRuns.UpdateKeepsCountersIff(rules, st, id, dto, NO_TIMES, true);
    if NoStaleJobs(st) {
      ScenarioRuns.UpdateLeavesNoStaleJobIff(rules, st, id, dto, NO_TIMES, true);
    }
  }

  /** The scenario behind an execution. */
  function Executed(s: Scenario): Scenario {
    if s.repeatTimes.Times? then Spent(s) else s
  }

  /** What executions keep of the store: jobs, groups and counters stay as right as they were. */
  ghost predicate Keeps(rules: Rules, st: Store, st': Store) {
    && Scheduled(rules, st') && st'.groups == st.groups
    && (CountersAgree(st) ==> CountersAgree(st'))
    && (CountersAgree(st) && NoStaleJobs(st) ==> NoStaleJobs(st'))
    && Unlimited(st'.scenarios) == Unlimited(st.scenarios)
    && Total(st'.scenarios, Cost) == Total(st.scenarios, Cost)
  }

  /** An execution changes nothing in the store but the number of executions left of its scenario. */
  lemma ExecutionSpends(rules: Rules, p: Progress, id: string)
    requires Scheduled(rules, p.store) && id in p.store.scenarios && p.store.scenarios[id].active
    ensures var p' := ExecuteScenario(rules, p, id, p.store.scenarios[id]);
            && Scheduled(rules, p'.store)
            && p'.store.scenarios == p.store.scenarios[id := Executed(p.store.scenarios[id])]
            && p'.store.groups == p.store.groups
            && (CountersAgree(p.store) ==> CountersAgree(p'.store))
            && (CountersAgree(p.store) && NoStaleJobs(p.store) ==> NoStaleJobs(p'.store))
  {
    if p.store.scenarios[id].repeatTimes.Times? {
      SpendingSucceeds(rules, p.store, id);
      if CountersAgree(p.store) {
        SpendingKeepsExact(rules, p.store, id);
      }
    } else {
      assert p.store.scenarios[id := p.store.scenarios[id]] == p.store.scenarios;
    }
  }

  /** Unlimited scenarios stay unlimited, limited ones limited or inactive. */
  lemma ExecutionKeepsUnlimited(scenarios: map<string, Scenario>, after: map<string, Scenario>, id: string)
    requires id in scenarios && DeviceTriggered(scenarios[id]) && after == scenarios[id := Executed(scenarios[id])]
    ensures after - {id} == scenarios - {id} && Unlimited(after) == Unlimited(scenarios)
  {
    var s := scenarios[id];
    assert s.trigger == Executed(s).trigger;
    assert !Limited(s) ==> DeviceTriggered(Executed(s)) && !Limited(Executed(s));
    assert Limited(s) && DeviceTriggered(Executed(s)) ==> Limited(Executed(s));
  }

  /** An execution of a limited scenario is paid for by the executions it has left. */
  lemma ExecutionTotals(scenarios: map<string, Scenario>, after: map<string, Scenario>, id: string)
    requires id in scenarios && DeviceTriggered(scenarios[id]) && after == scenarios[id := Executed(scenarios[id])]
    ensures var s := scenarios[id];
            && Total(after, Cost) == Total(scenarios, Cost)
            && Total(after, Remaining) + (if Limited(s) then 1 else 0) == Total(scenarios, Remaining)
            && Total(after, RemainingCost) + (if Limited(s) then Cost(s) else 0) == Total(scenarios, RemainingCost)
  {
    var s := scenarios[id];
    RemainingAfter(s);
    TotalUpdate(scenarios, Cost, id, Executed(s));
    TotalUpdate(scenarios, Remaining, id, Executed(s));
    TotalUpdate(scenarios, RemainingCost, id, Executed(s));
  }

  lemma RemainingAfter(s: Scenario)
    requires DeviceTriggered(s)
    ensures Cost(Executed(s)) == Cost(s)
    ensures Remaining(Executed(s)) + (if Limited(s) then 1 else 0) == Remaining(s)
    ensures RemainingCost(Executed(s)) + (if Limited(s) then Cost(s) else 0) == RemainingCost(s)
  {
    if Limited(s) {
      OneLess(Remaining(s), Cost(s));
    }
  }

  lemma OneLess(n: nat, c: nat)
    requires n >= 1
    ensures (n - 1) * c + c == n * c
  {
  }

  /** One execution, or none if the conditions are not met; `paid`: it counts down a limited scenario. */
  ghost predicate Progresses(rules: Rules, p: Progress, p': Progress, id: string, fires: bool)
    requires id in p.store.scenarios
  {
    && Keeps(rules, p.store, p'.store)
    && p'.store.scenarios - {id} == p.store.scenarios - {id}
    && AccountsForOne(p, p', p.store.scenarios[id], fires)
  }

  ghost predicate AccountsForOne(p: Progress, p': Progress, s: Scenario, fires: bool) {
    var paid := fires && Limited(s);
    && p'.queue == p.queue + (if fires then Requests(s.actions) else [])
    && p'.executed == p.executed + (if fires then 1 else 0)
    && Budget(p') + (if paid then 1 else 0) == Budget(p)
    && Total(p'.store.scenarios, RemainingCost) + (if paid then Cost(s) else 0)
       == Total(p.store.scenarios, RemainingCost)
  }

  lemma SpendingProgresses(rules: Rules, p: Progress, p': Progress, id: string)
    requires id in p.store.scenarios && DeviceTriggered(p.store.scenarios[id])
    requires Scheduled(rules, p'.store) && p'.store.groups == p.store.groups
    requires CountersAgree(p.store) ==> CountersAgree(p'.store)
    requires CountersAgree(p.store) && NoStaleJobs(p.store) ==> NoStaleJobs(p'.store)
    requires p'.store.scenarios == p.store.scenarios[id := Executed(p.store.scenarios[id])]
    requires p'.queue == p.queue + Requests(p.store.scenarios[id].actions) && p'.executed == p.executed + 1
    ensures Progresses(rules, p, p', id, true)
  {
    ExecutionKeepsUnlimited(p.store.scenarios, p'.store.scenarios, id);
    ExecutionTotals(p.store.scenarios, p'.store.scenarios, id);
  }

  lemma OneExecution(rules: Rules, p: Progress, devices: map<string, Device>, id: string, context: Context)
    requires Scheduled(rules, p.store) && id in p.store.scenarios && DeviceTriggered(p.store.scenarios[id])
    ensures var s := p.store.scenarios[id];
            Progresses(rules, p, Execute(rules, p, devices, id, s, context), id, ShouldExecute(s, devices, context))
  {
    var s := p.store.scenarios[id];
    if ShouldExecute(s, devices, context) {
      ExecutionSpends(rules, p, id);
      SpendingProgresses(rules, p, ExecuteScenario(rules, p, id, s), id);
    } else {
      assert p.queue + [] == p.queue;
    }
  }

  // ---------------------------------------------------------------------------------------------
  // All executions of one event
  // ---------------------------------------------------------------------------------------------

  /** The scenarios found for an event on a device, as long as they are as they were found. */
  ghost predicate AsFound(scenarios: map<string, Scenario>, deviceId: string, ids: seq<string>,
                          found: map<string, Scenario>)
  {
    && (forall i, j :: 0 <= i < j < |ids| ==> ids[i] != ids[j])
    && (forall id :: id in ids ==> id in found && TriggeredBy(found[id], deviceId))
    && (forall id :: id in ids ==> id in scenarios && scenarios[id] == found[id])
  }

  lemma StillAsFound(scenarios: map<string, Scenario>, after: map<string, Scenario>, deviceId: string,
                     ids: seq<string>, found: map<string, Scenario>)
    requires ids != [] && AsFound(scenarios, deviceId, ids, found) && after - {ids[0]} == scenarios - {ids[0]}
    ensures AsFound(after, deviceId, ids[1..], found)
  {
    forall id | id in ids[1..]
      ensures id in after && after[id] == found[id]
    {
      assert id in ids && id in scenarios - {ids[0]};
    }
  }

  lemma FirstIsTriggered(scenarios: map<string, Scenario>, deviceId: string, ids: seq<string>,
                         found: map<string, Scenario>)
    requires ids != [] && AsFound(scenarios, deviceId, ids, found)
    ensures ids[0] in scenarios && scenarios[ids[0]] == found[ids[0]] && ids[0] !in ids[1..]
    ensures DeviceTriggered(found[ids[0]]) && HasSourceFor(found[ids[0]].trigger.sources, deviceId)
  {
    assert ids[0] in ids;
  }

  /** The requests of the found scenarios that are executed. */
  function Emitted(devices: map<string, Device>, ids: seq<string>, found: map<string, Scenario>, context: Context):
    seq<Event>
    requires forall id :: id in ids ==> id in found
  {
    if ids == [] then []
    else
      (if ShouldExecute(found[ids[0]], devices, context) then Requests(found[ids[0]].actions) else [])
      + Emitted(devices, ids[1..], found, context)
  }

  /** Some limited scenario among the found ones is executed. */
  ghost predicate SomePaid(
    devices: map<string, Device>, ids: seq<string>, found: map<string, Scenario>, context: Context)
    requires forall id :: id in ids ==> id in found
  {
    exists id :: id in ids && Limited(found[id]) && ShouldExecute(found[id], devices, context)
  }

  /** What an event does to the store, the queue and the budget through the scenarios it executes. */
  ghost predicate Executes(rules: Rules, p: Progress, p': Progress, emitted: seq<Event>, somePaid: bool) {
    Keeps(rules, p.store, p'.store) && Accounts(p, p', emitted, somePaid)
  }

  ghost predicate Accounts(p: Progress, p': Progress, emitted: seq<Event>, somePaid: bool) {
    && p'.queue == p.queue + emitted
    && Budget(p') + (if somePaid then 1 else 0) <= Budget(p)
    && p'.executed + Budget(p') >= p.executed + Budget(p)
    && (Unlimited(p.store.scenarios) == map[] ==>
          && p'.executed + Budget(p') == p.executed + Budget(p)
          && Weight(emitted) + Total(p'.store.scenarios, RemainingCost) == Total(p.store.scenarios, RemainingCost))
  }

  lemma KeepsFrom(rules: Rules, first: Store, second: Store, third: Store)
    requires Keeps(rules, first, second) && Keeps(rules, second, third)
    ensures Keeps(rules, first, third)
  {
  }

  lemma AccountsMore(p: Progress, next: Progress, p': Progress, id: string, fires: bool, emitted: seq<Event>,
                     somePaid: bool)
    requires id in p.store.scenarios && DeviceTriggered(p.store.scenarios[id])
    requires Unlimited(next.store.scenarios) == Unlimited(p.store.scenarios)
    requires AccountsForOne(p, next, p.store.scenarios[id], fires) && Accounts(next, p', emitted, somePaid)
    ensures var s := p.store.scenarios[id];
            Accounts(p, p', (if fires then Requests(s.actions) else []) + emitted, somePaid || (fires && Limited(s)))
  {
    var requests := if fires then Requests(p.store.scenarios[id].actions) else [];
    assert p.queue + requests + emitted == p.queue + (requests + emitted);
    WeightAppend(requests, emitted);
    if !Limited(p.store.scenarios[id]) {
      assert id in Unlimited(p.store.scenarios);
    }
  }

  lemma {:induction false} AllExecutions(rules: Rules, p: Progress, devices: map<string, Device>, deviceId: string,
                                         ids: seq<string>, found: map<string, Scenario>, context: Context)
    requires Scheduled(rules, p.store) && AsFound(p.store.scenarios, deviceId, ids, found)
    ensures Executes(rules, p, ExecuteAll(rules, p, devices, ids, found, context),
                     Emitted(devices, ids, found, context), SomePaid(devices, ids, found, context))
    decreases |ids|
  {
    if ids == [] {
      assert p.queue + [] == p.queue;
    } else {
      var id, s := ids[0], found[ids[0]];
      var fires := ShouldExecute(s, devices, context);
      var next := Execute(rules, p, devices, id, s, context);
      FirstIsTriggered(p.store.scenarios, deviceId, ids, found);
      OneExecution(rules, p, devices, id, context);
      StillAsFound(p.store.scenarios, next.store.scenarios, deviceId, ids, found);
      AllExecutions(rules, next, devices, deviceId, ids[1..], found, context);
      assert forall other :: other in ids <==> other == id || other in ids[1..];
      var p' := ExecuteAll(rules, p, devices, ids, found, context);
      KeepsFrom(rules, p.store, next.store, p'.store);
      AccountsMore(p, next, p', id, fires, Emitted(devices, ids[1..], found, context),
                   SomePaid(devices, ids[1..], found, context));
    }
  }

  // ---------------------------------------------------------------------------------------------
  // Whole cascades
  // ---------------------------------------------------------------------------------------------

  /** What handling events keeps, and what it does to the budget; `steps` is how many events at least it takes away. */
  ghost predicate Follows(rules: Rules, p: Progress, p': Progress, steps: nat) {
    && Keeps(rules, p.store, p'.store)
    && Budget(p') <= Budget(p)
    && p'.executed + Budget(p') >= p.executed + Budget(p)
    && (Unlimited(p.store.scenarios) == map[] ==>
          p'.executed + Budget(p') == p.executed + Budget(p) && Potential(p') + steps <= Potential(p))
  }

  lemma FollowsFrom(rules: Rules, p: Progress, q: Progress, r: Progress, first: nat, second: nat)
    requires Follows(rules, p, q, first) && Follows(rules, q, r, second)
    ensures Follows(rules, p, r, first + second)
  {
  }

  lemma TriggersExecute(rules: Rules, devices: map<string, Device>, deviceId: string, context: Context, p: Progress,
                        p': Progress)
    returns (ids: seq<string>)
    requires Scheduled(rules, p.store) && Triggers(rules, devices, deviceId, context, p, p')
    ensures Triggered(p.store.scenarios, deviceId, ids)
    ensures Executes(rules, p, p', Emitted(devices, ids, p.store.scenarios, context),
                     SomePaid(devices, ids, p.store.scenarios, context))
  {
    ids :| Triggered(p.store.scenarios, deviceId, ids)
        && p' == ExecuteAll(rules, p, devices, ids, p.store.scenarios, context);
    AllExecutions(rules, p, devices, deviceId, ids, p.store.scenarios, context);
  }

  lemma TriggersFollow(rules: Rules, devices: map<string, Device>, deviceId: string, context: Context, p: Progress,
                       p': Progress)
    requires Scheduled(rules, p.store) && Triggers(rules, devices, deviceId, context, p, p')
    ensures Follows(rules, p, p', 0)
  {
    var ids := TriggersExecute(rules, devices, deviceId, context, p, p');
    WeightAppend(p.queue, Emitted(devices, ids, p.store.scenarios, context));
  }

  lemma TakingFollows(rules: Rules, p: Progress, i: nat)
    requires Scheduled(rules, p.store) && i < |p.queue|
    ensures Follows(rules, p, p.(queue := p.queue[..i] + p.queue[i + 1..]), EventWeight(p.queue[i]))
  {
    WeightWithout(p.queue, i);
  }

  /**
   * Handling one event keeps jobs, groups and counters as right as they were, and what it executes is taken from the
   * budget unless it is unlimited; without unlimited scenarios it lowers the potential.
   */
  lemma StepFollows(env: Setting, w: World, w': World, i: nat)
    requires Scheduled(env.rules, w.progress.store) && i < |w.progress.queue| && Step(env, w, w', i)
    ensures Follows(env.rules, w.progress, w'.progress, 1)
  {
    var p := w.progress;
    var rest := p.(queue := p.queue[..i] + p.queue[i + 1..]);
    TakingFollows(env.rules, p, i);
    if w'.progress != rest {
      match p.queue[i]
      case UpdateRequested(deviceId, controls) =>
        WeightAppend(rest.queue, [Completion(env, deviceId, controls)]);
        assert Weight([Completion(env, deviceId, controls)]) == 1;
      case UpdateCompleted(deviceId, controlsUpdated, measurementsUpdated) =>
        TriggersFollow(env.rules, w.devices, deviceId, Context(None, None), rest, w'.progress);
        FollowsFrom(env.rules, p, rest, w'.progress, 1, 0);
      case CommandExecuted(deviceId, commands) =>
        TriggersFollow(env.rules, w.devices, deviceId, Context(None, Some(commands)), rest, w'.progress);
        FollowsFrom(env.rules, p, rest, w'.progress, 1, 0);
    }
  }

  lemma NextFollows(env: Setting, w: World, w': World)
    requires Scheduled(env.rules, w.progress.store) && Next(env, w, w')
    ensures Follows(env.rules, w.progress, w'.progress, 1)
  {
    var i: nat :| i < |w.progress.queue| && Step(env, w, w', i);
    StepFollows(env, w, w', i);
  }

  lemma {:induction false} CascadeFollows(env: Setting, ws: seq<World>)
    requires IsCascade(env, ws) && Scheduled(env.rules, ws[0].progress.store)
    ensures Follows(env.rules, ws[0].progress, ws[|ws| - 1].progress, |ws| - 1)
    decreases |ws|
  {
    if |ws| == 1 {
    } else {
      RestOfChain(NextIn(env), ws);
      NextFollows(env, ws[0], ws[1]);
      CascadeFollows(env, ws[1..]);
      assert ws[1..][|ws| - 2] == ws[|ws| - 1];
      FollowsFrom(env.rules, ws[0].progress, ws[1].progress, ws[|ws| - 1].progress, 1, |ws| - 2);
    }
  }

  /**
   * With executions left on every scenario that devices trigger, every cascade is finite: it executes at most as many
   * scenarios as there are executions left, and what it executes is exactly what it takes from the budget.
   */
  lemma CascadeTerminates(env: Setting, ws: seq<World>)
    requires IsCascade(env, ws) && Scheduled(env.rules, ws[0].progress.store)
    requires Budgeted(ws[0].progress.store.scenarios)
    ensures var first, last := ws[0].progress, ws[|ws| - 1].progress;
            && |ws| - 1 + Potential(last) <= Potential(first)
            && last.executed + Budget(last) == first.executed + Budget(first)
            && last.executed - first.executed <= Budget(first)
            && Budgeted(last.store.scenarios)
            && Keeps(env.rules, first.store, last.store)
  {
    NoUnlimitedIffBudgeted(ws[0].progress.store.scenarios);
    CascadeFollows(env, ws);
    NoUnlimitedIffBudgeted(ws[|ws| - 1].progress.store.scenarios);
  }
}
