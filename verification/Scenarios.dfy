/** Stored scenarios and the requests that create and change them (scenarios/interfaces, scenarios/dto). */
module Scenarios {
  import opened Options
  import opened Values
  import opened Scheduler

  datatype TriggerSource =
    | CronSource(cron: string, adjustTo: Option<AdjustOption>)
    | DeviceSource(externalId: string, controls: Option<Payload>, measurements: Option<Payload>,
                   commands: Option<Payload>)

  datatype Trigger = Trigger(sources: seq<TriggerSource>, logic: string)

  datatype Action = Action(externalId: string, controls: Option<Payload>)

  /** A field that may be missing, null or an integer. */
  datatype RepeatTimes = Unset | Null | Times(count: int)

  datatype Scenario = Scenario(
    name: string, description: Option<string>, group: Option<string>, active: bool,
    repeatTimes: RepeatTimes, trigger: Trigger, actions: seq<Action>)

  datatype UpdateDto = UpdateDto(
    name: Option<string>, description: Option<string>, group: Option<string>, active: Option<bool>,
    repeatTimes: RepeatTimes, trigger: Option<Trigger>, actions: Option<seq<Action>>)

  const NO_UPDATE := UpdateDto(None, None, None, None, Unset, None, None)

  /** The cron expression of the first cron source. */
  function CronOf(sources: seq<TriggerSource>): Option<string> {
    if sources == [] then None
    else if sources[0].CronSource? then Some(sources[0].cron)
    else CronOf(sources[1..])
  }

  function Cron(s: Scenario): Option<string> { CronOf(s.trigger.sources) }

  /** An active scenario with a cron source: the scheduler must know it. */
  predicate NeedsJob(s: Scenario) { s.active && Cron(s).Some? }

  /** The group a scenario counts for: an empty group name is falsy. */
  function GroupOf(s: Scenario): Option<string> {
    if s.group == Some("") then None else s.group
  }

  /** Moves the first cron source to the time of day it is adjusted to. */
  function AdjustSources(sources: seq<TriggerSource>, times: DayTimePoints): seq<TriggerSource> {
    if sources == [] then []
    else if sources[0].CronSource? then
      var source := sources[0];
      [if source.adjustTo.Some? then source.(cron := UpdateCronTime(source.cron, source.adjustTo.value, times))
       else source]
      + sources[1..]
    else [sources[0]] + AdjustSources(sources[1..], times)
  }

  function AdjustTrigger(trigger: Trigger, times: DayTimePoints): Trigger {
    trigger.(sources := AdjustSources(trigger.sources, times))
  }

  /**
   * The nightly job adjusts triggers that the update then adjusts again: only the latest time of day remains,
   * everything else about the sources stays as submitted.
   */
  lemma {:induction false} AdjustingSourcesAgain(sources: seq<TriggerSource>, earlier: DayTimePoints,
                                                 later: DayTimePoints)
    requires earlier.Valid() && later.Valid()
    ensures AdjustSources(AdjustSources(sources, earlier), later) == AdjustSources(sources, later)
    ensures |AdjustSources(sources, later)| == |sources|
    ensures forall i :: 0 <= i < |sources| ==>
              var before, after := sources[i], AdjustSources(sources, later)[i];
              && (before.DeviceSource? ==> after == before)
              && (before.CronSource? ==> after.CronSource? && after.adjustTo == before.adjustTo)
              && (before.CronSource? && before.adjustTo.None? ==> after == before)
    decreases |sources|
  {
    if sources == [] {
    } else {
      if sources[0].CronSource? {
        if sources[0].adjustTo.Some? {
          AdjustingAgain(sources[0].cron, sources[0].adjustTo.value, earlier, sources[0].adjustTo.value, later);
        }
        assert AdjustSources(sources, earlier)[1..] == sources[1..];
      } else {
        AdjustingSourcesAgain(sources[1..], earlier, later);
        assert AdjustSources(sources, earlier)[1..] == AdjustSources(sources[1..], earlier);
      }
    }
  }

  predicate IsFirstCron(sources: seq<TriggerSource>, i: nat)
    requires i < |sources|
  {
    sources[i].CronSource? && forall j :: 0 <= j < i ==> sources[j].DeviceSource?
  }

  /** Only the expression of the first cron source changes, and only if it is adjusted to a time of day. */
  lemma {:induction false} AdjustedSource(sources: seq<TriggerSource>, times: DayTimePoints, i: nat)
    requires i < |sources|
    ensures |AdjustSources(sources, times)| == |sources|
    ensures AdjustSources(sources, times)[i] ==
            if IsFirstCron(sources, i) && sources[i].adjustTo.Some?
            then sources[i].(cron := UpdateCronTime(sources[i].cron, sources[i].adjustTo.value, times)) else sources[i]
    decreases |sources|
  {
    if sources[0].CronSource? {
      assert i > 0 ==> !IsFirstCron(sources, i);
    } else if |sources| == 1 {
      assert AdjustSources(sources[1..], times) == [];
    } else {
      AdjustedSource(sources[1..], times, if i == 0 then 0 else i - 1);
      if i > 0 {
        FirstCronOfRest(sources, i);
      }
    }
  }

  lemma FirstCronOfRest(sources: seq<TriggerSource>, i: nat)
    requires 0 < i < |sources| && sources[0].DeviceSource?
    ensures IsFirstCron(sources, i) <==> IsFirstCron(sources[1..], i - 1)
  {
    if IsFirstCron(sources[1..], i - 1) {
      forall j | 0 < j < i
        ensures sources[j].DeviceSource?
      {
        assert sources[1..][j - 1] == sources[j];
      }
    }
  }

  /** The document after assigning the submitted fields, with a submitted trigger adjusted. */
  function Assign(s: Scenario, dto: UpdateDto, times: DayTimePoints): Scenario {
    Scenario(
      GetOr(dto.name, s.name),
      OrElse(dto.description, s.description),
      OrElse(dto.group, s.group),
      GetOr(dto.active, s.active),
      if dto.repeatTimes == Unset || dto.repeatTimes == Times(0) then s.repeatTimes else dto.repeatTimes,
      if dto.trigger.Some? then AdjustTrigger(dto.trigger.value, times) else s.trigger,
      GetOr(dto.actions, s.actions))
  }

  /** Writing the fields of `old` back over `current`: a field absent from `old` keeps its current value. */
  function WriteBack(previous: Scenario, current: Scenario): Scenario {
    Scenario(
      previous.name,
      OrElse(previous.description, current.description),
      OrElse(previous.group, current.group),
      previous.active,
      if previous.repeatTimes == Unset then current.repeatTimes else previous.repeatTimes,
      previous.trigger,
      previous.actions)
  }
}
