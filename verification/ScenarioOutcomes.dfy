/** When the operations of the scenario store succeed, and what is left when they do not. */
module ScenarioOutcomes {
  import opened Options
  import opened Scheduler
  import opened Scenarios
  import opened ScenarioStore
  import opened ScenarioInvariants
  import opened ScenarioRuns

  // ---------------------------------------------------------------------------------------------
  // The first cron source
  // ---------------------------------------------------------------------------------------------

  lemma {:induction false} CronIsOfFirst(sources: seq<TriggerSource>, i: nat)
    requires i < |sources| && IsFirstCron(sources, i)
    ensures CronOf(sources) == Some(sources[i].cron)
  {
    if i == 0 {
    } else {
      assert sources[0].DeviceSource?;
      FirstCronOfRest(sources, i);
      CronIsOfFirst(sources[1..], i - 1);
    }
  }

  lemma {:induction false} FirstCron(sources: seq<TriggerSource>) returns (i: nat)
    requires CronOf(sources).Some?
    ensures i < |sources| && IsFirstCron(sources, i)
  {
    if sources[0].CronSource? {
      i := 0;
    } else {
      i := FirstCron(sources[1..]);
      i := i + 1;
      FirstCronOfRest(sources, i);
    }
  }

  /** The scenario is active, and `cron` is the expression of its first cron source. */
  ghost predicate RunsAt(s: Scenario, cron: string) {
    s.active && exists i :: 0 <= i < |s.trigger.sources| && IsFirstCron(s.trigger.sources, i)
                            && s.trigger.sources[i].cron == cron
  }

  lemma RunsAtItsCron(s: Scenario, cron: string)
    ensures RunsAt(s, cron) <==> NeedsJob(s) && Cron(s) == Some(cron)
  {
    var sources := s.trigger.sources;
    if RunsAt(s, cron) {
      var i :| 0 <= i < |sources| && IsFirstCron(sources, i) && sources[i].cron == cron;
      CronIsOfFirst(sources, i);
    }
    if NeedsJob(s) && Cron(s) == Some(cron) {
      var i := FirstCron(sources);
      CronIsOfFirst(sources, i);
    }
  }

  /** The jobs of an exact store are those of its active scenarios with cron sources, each under the scenario's name. */
  lemma JobsOfExactStore(rules: Rules, st: Store, name: string, job: Job)
    requires Exact(rules, st)
    ensures name in st.jobs && st.jobs[name] == job <==>
              && job.scenarioId in st.scenarios && st.scenarios[job.scenarioId].name == name
              && RunsAt(st.scenarios[job.scenarioId], job.cron)
  {
    if job.scenarioId in st.scenarios {
      var s := st.scenarios[job.scenarioId];
      RunsAtItsCron(s, job.cron);
      if NeedsJob(s) {
        assert HasJob(st.jobs, job.scenarioId, s);
      }
    }
  }

  /** The scheduler would have to run the scenario, but its expression does not parse. */
  ghost predicate CannotRun(rules: Rules, s: Scenario) {
    exists cron :: RunsAt(s, cron) && !rules.cronParses(cron)
  }

  lemma CannotRunIff(rules: Rules, s: Scenario)
    ensures CannotRun(rules, s) <==> NeedsJob(s) && !rules.cronParses(Cron(s).value)
  {
    forall cron
      ensures RunsAt(s, cron) <==> NeedsJob(s) && Cron(s) == Some(cron)
    {
      RunsAtItsCron(s, cron);
    }
  }

  // ---------------------------------------------------------------------------------------------
  // Updating
  // ---------------------------------------------------------------------------------------------

  ghost predicate HeldByAnother(scenarios: map<string, Scenario>, id: string, name: string) {
    exists other :: other in scenarios && other != id && scenarios[other].name == name
  }

  /** Every submitted field passes its own check; the empty group is not checked, and the trigger as it is stored. */
  predicate SubmittedAccepted(rules: Rules, dto: UpdateDto, next: Scenario) {
    && (dto.name.Some? ==> rules.name(dto.name.value))
    && (dto.description.Some? ==> rules.description(dto.description.value))
    && (dto.group.Some? && dto.group.value != "" ==> rules.groupName(dto.group.value))
    && (dto.trigger.Some? ==> rules.trigger(next.trigger))
    && (dto.actions.Some? ==> rules.actions(dto.actions.value))
  }

  lemma StoredTriggerIsUnique(submitted: Trigger, a: Trigger, b: Trigger, times: DayTimePoints)
    requires StoresTrigger(submitted, a, times) && StoresTrigger(submitted, b, times)
    ensures a == b
  {
    assert a.sources == b.sources;
  }

  lemma SubmittedIsAssigned(s: Scenario, dto: UpdateDto, times: DayTimePoints, next: Scenario)
    requires StoresSubmitted(s, dto, times, next)
    ensures next == Assign(s, dto, times)
  {
    AssignStoresSubmitted(s, dto, times);
    if dto.trigger.Some? {
      StoredTriggerIsUnique(dto.trigger.value, next.trigger, Assign(s, dto, times).trigger, times);
    }
  }

  /** Stored fields were accepted before, so only the submitted ones matter. */
  lemma AcceptedIffSubmittedAccepted(rules: Rules, s: Scenario, dto: UpdateDto, times: DayTimePoints, next: Scenario)
    requires SchemaAccepts(rules, s) && StoresSubmitted(s, dto, times, next)
    ensures SchemaAccepts(rules, next) <==> SubmittedAccepted(rules, dto, next)
  {
  }

  lemma HeldIffTaken(scenarios: map<string, Scenario>, id: string, name: string)
    ensures HeldByAnother(scenarios, id, name) <==> NameTaken(scenarios - {id}, name)
  {
    if HeldByAnother(scenarios, id, name) {
      var other :| other in scenarios && other != id && scenarios[other].name == name;
      assert other in scenarios - {id} && (scenarios - {id})[other].name == name;
    }
  }

  /** In an exact store a free name is free in the registry too, once the scenario's own job is gone. */
  lemma SchedulingFailsIff(rules: Rules, st: Store, id: string, next: Scenario)
    requires Exact(rules, st) && id in st.scenarios && !HeldByAnother(st.scenarios, id, next.name)
    ensures SchedulingFails(rules, st.jobs, st.scenarios[id], next) <==> CannotRun(rules, next)
  {
    CannotRunIff(rules, next);
    HeldIffTaken(st.scenarios, id, next.name);
    if next.name in st.jobs {
      OwnerOfTakenName(st, id, next.name);
    }
  }

  /** What an update leaves of a store, by outcome. */
  ghost predicate UpdateLeaves(rules: Rules, st: Store, id: string, next: Scenario, e: Effect)
    requires id in st.scenarios
  {
    match e.outcome
    case Done => e.store.scenarios == st.scenarios[id := next] && Exact(rules, e.store)
    case Threw(SchedulingFailed) =>
      && id in e.store.scenarios && e.store.scenarios - {id} == st.scenarios - {id}
      && HasFieldsOf(e.store.scenarios[id], st.scenarios[id])
      && (st.scenarios[id].active ==> e.store.jobs == st.jobs)
    case Threw(_) => e.store == st
  }

  /**
   * An update of a stored scenario succeeds iff it is admitted, every submitted field is accepted, no other scenario
   * has the resulting name, and an expression that would have to run parses. A refused update changes nothing, and one
   * whose scheduling fails leaves every field the scenario had and, if it was active, the registry.
   */
  lemma UpdateIsDoneIff(rules: Rules, st: Store, id: string, dto: UpdateDto, times: DayTimePoints, admitted: bool,
                        next: Scenario)
    requires Exact(rules, st) && id in st.scenarios && StoresSubmitted(st.scenarios[id], dto, times, next)
    ensures var e := UpdateScenario(rules, st, id, dto, times, admitted);
            && e.outcome == (if !admitted then Threw(Rejected)
                             else if !SubmittedAccepted(rules, dto, next)
                                     || HeldByAnother(st.scenarios, id, next.name) then Threw(InvalidDocument)
                             else if CannotRun(rules, next) then Threw(SchedulingFailed)
                             else Done)
            && UpdateLeaves(rules, st, id, next, e)
  {
    SubmittedIsAssigned(st.scenarios[id], dto, times, next);
    AcceptedIffSubmittedAccepted(rules, st.scenarios[id], dto, times, next);
    HeldIffTaken(st.scenarios, id, next.name);
    if Saves(rules, st, id, dto, times, admitted) {
      SavedUpdateEffect(rules, st, id, dto, times, admitted);
      SchedulingFailsIff(rules, st, id, next);
      RestoredScenarios(st.scenarios, id, next);
      if !CannotRun(rules, next) {
        StepIsExact(rules, st, Update(id, dto, times, admitted));
      }
    }
  }

  /** The stored scenario has every submitted value already. */
  ghost predicate Repeats(s: Scenario, dto: UpdateDto, times: DayTimePoints) { StoresSubmitted(s, dto, times, s) }

  /** Submitting what is stored already succeeds and leaves the store as it is. */
  lemma RepeatingChangesNothing(rules: Rules, st: Store, id: string, dto: UpdateDto, times: DayTimePoints)
    requires Exact(rules, st) && id in st.scenarios && Repeats(st.scenarios[id], dto, times)
    ensures UpdateScenario(rules, st, id, dto, times, true) == Effect(st, Done)
  {
    var s := st.scenarios[id];
    SubmittedIsAssigned(s, dto, times, s);
    forall other | other in st.scenarios - {id}
      ensures st.scenarios[other].name != s.name
    {
    }
    SavedUpdateEffect(rules, st, id, dto, times, true);
    assert st.scenarios[id := s] == st.scenarios;
    assert MovedGroups(st.groups, s, s) == st.groups;
    if NeedsJob(s) {
      assert HasJob(st.jobs, id, s);
      assert (st.jobs - {s.name})[s.name := st.jobs[s.name]] == st.jobs;
    }
  }

  /** The whole scenario, sent back as it is shown. */
  function Form(s: Scenario): UpdateDto {
    UpdateDto(Some(s.name), s.description, s.group, Some(s.active), s.repeatTimes, Some(s.trigger), Some(s.actions))
  }

  /** The time of day the trigger is adjusted to is the one it has. */
  ghost predicate Settled(trigger: Trigger, times: DayTimePoints) { StoresTrigger(trigger, trigger, times) }

  /** Sending a scenario's own fields back changes nothing, unless its trigger follows a time of day that has moved. */
  lemma SendingBackChangesNothing(rules: Rules, st: Store, id: string, times: DayTimePoints)
    requires Exact(rules, st) && id in st.scenarios && Settled(st.scenarios[id].trigger, times)
    ensures UpdateScenario(rules, st, id, Form(st.scenarios[id]), times, true) == Effect(st, Done)
  {
    RepeatingChangesNothing(rules, st, id, Form(st.scenarios[id]), times);
  }

  /** A trigger without a time of day to follow is settled, and so is every trigger that has just been stored. */
  lemma StoredTriggerIsSettled(submitted: Trigger, stored: Trigger, times: DayTimePoints)
    ensures (forall i :: 0 <= i < |stored.sources| && stored.sources[i].CronSource? ==>
              stored.sources[i].adjustTo.None?) ==> Settled(stored, times)
    ensures times.Valid() && StoresTrigger(submitted, stored, times) ==> Settled(stored, times)
  {
    if times.Valid() && StoresTrigger(submitted, stored, times) {
      AdjustingSourcesAgain(submitted.sources, times, times);
      TriggerIsStored(submitted, times);
      StoredTriggerIsUnique(submitted, stored, AdjustTrigger(submitted, times), times);
      TriggerIsStored(stored, times);
    }
  }

  /** Performing a successful update again changes nothing more. */
  lemma UpdatingTwice(rules: Rules, st: Store, id: string, dto: UpdateDto, times: DayTimePoints, admitted: bool)
    requires Exact(rules, st) && UpdateScenario(rules, st, id, dto, times, admitted).outcome.Done?
    ensures var once := UpdateScenario(rules, st, id, dto, times, admitted).store;
            UpdateScenario(rules, once, id, dto, times, admitted) == Effect(once, Done)
  {
    var once := UpdateScenario(rules, st, id, dto, times, admitted).store;
    AssignStoresSubmitted(st.scenarios[id], dto, times);
    UpdateIsDoneIff(rules, st, id, dto, times, admitted, Assign(st.scenarios[id], dto, times));
    RepeatingChangesNothing(rules, once, id, dto, times);
  }

  // ---------------------------------------------------------------------------------------------
  // Creating
  // ---------------------------------------------------------------------------------------------

  /** Every field of a new scenario passes its check. */
  predicate FieldsAccepted(rules: Rules, s: Scenario) {
    && rules.name(s.name)
    && (s.description.Some? ==> rules.description(s.description.value))
    && (s.group.Some? && s.group.value != "" ==> rules.groupName(s.group.value))
    && rules.trigger(s.trigger)
    && rules.actions(s.actions)
  }

  /** The new scenario has what was submitted, with its trigger adjusted. */
  ghost predicate StoresNew(dto: Scenario, times: DayTimePoints, s: Scenario) {
    StoresTrigger(dto.trigger, s.trigger, times) && s == dto.(trigger := s.trigger)
  }

  /**
   * Creating a scenario succeeds iff no scenario has its name, it is admitted, its fields are accepted, and an
   * expression that would have to run parses. Otherwise scenarios and jobs stay as they were, and at most an empty
   * group is left.
   */
  lemma AddIsDoneIff(rules: Rules, st: Store, id: string, dto: Scenario, times: DayTimePoints, admitted: bool,
                     s: Scenario)
    requires Exact(rules, st) && id !in st.scenarios && StoresNew(dto, times, s)
    ensures var e := AddScenario(rules, st, id, dto, times, admitted);
            && e.outcome == (if HeldByAnother(st.scenarios, id, dto.name) then Threw(DuplicateName)
                             else if !admitted then Threw(Rejected)
                             else if !FieldsAccepted(rules, s) then Threw(InvalidDocument)
                             else if CannotRun(rules, s) then Threw(MissingJob)
                             else Done)
            && (e.outcome.Done? ==> e.store.scenarios == st.scenarios[id := s] && Exact(rules, e.store))
            && (!e.outcome.Done? ==>
                  && e.store.scenarios == st.scenarios && e.store.jobs == st.jobs
                  && e.store.groups == if e.outcome == Threw(MissingJob) && NewGroup(st.groups, s.group)
                                       then st.groups[s.group.value := 0] else st.groups)
  {
    TriggerIsStored(dto.trigger, times);
    StoredTriggerIsUnique(dto.trigger, s.trigger, AdjustTrigger(dto.trigger, times), times);
    HeldIffTaken(st.scenarios, id, dto.name);
    assert st.scenarios - {id} == st.scenarios;
    CannotRunIff(rules, s);
    if AddSaves(rules, st, dto, times, admitted) {
      AddEffect(rules, st, id, dto, times, admitted);
      NameIsFree(st, dto.name);
      assert st.jobs - {s.name} == st.jobs;
      TouchedGroups(st.groups, s);
    }
    StepIsExact(rules, st, Add(id, dto, times, admitted));
  }

  predicate NewGroup(groups: map<string, int>, group: Option<string>) {
    group.Some? && group.value != "" && group.value !in groups
  }

  lemma TouchedGroups(groups: map<string, int>, s: Scenario)
    ensures Touch(groups, GroupOf(s)) == if NewGroup(groups, s.group) then groups[s.group.value := 0] else groups
  {
    if GroupOf(s).Some? && GroupOf(s).value in groups {
      assert groups[GroupOf(s).value := groups[GroupOf(s).value]] == groups;
    }
  }

  lemma StepIsExact(rules: Rules, st: Store, op: Operation)
    requires Exact(rules, st) && Enabled(st, op)
    requires !FailsMovingGroup(rules, st, op) && !FailsFromInactive(rules, st, op) && !DeletesScheduled(st, op)
    ensures Exact(rules, Apply(rules, st, op).store)
  {
    StepKeepsCounters(rules, st, op);
    StepKeepsScheduled(rules, st, op);
    StepLeavesNoStaleJobIff(rules, st, op);
  }

  // ---------------------------------------------------------------------------------------------
  // Groups
  // ---------------------------------------------------------------------------------------------

  /** A new group has no scenarios; only a new, acceptable name is taken. */
  lemma CreateIsDoneIff(rules: Rules, st: Store, name: string)
    ensures var e := CreateGroup(rules, st, name);
            && (e.outcome.Done? <==> name !in st.groups && name != "" && rules.groupName(name))
            && (e.outcome.Done? ==> e.store == st.(groups := st.groups[name := 0]))
            && (!e.outcome.Done? ==> e.store == st)
  {
  }

  ghost predicate Names(s: Scenario, group: string) { s.group == Some(group) }

  /** The scenarios behind deleting a group: those that name it are deleted with it or keep everything else. */
  ghost predicate DeletionLeaves(before: map<string, Scenario>, after: map<string, Scenario>, group: string,
                                 deleteScenarios: bool)
  {
    && (forall id :: id in after <==> id in before && !(deleteScenarios && Names(before[id], group)))
    && (forall id :: id in after ==>
          after[id] == if Names(before[id], group) then before[id].(group := None) else before[id])
  }

  /**
   * Deleting a group succeeds iff it exists and no scenario names it or it is said what becomes of those that do. Other
   * groups and all jobs stay.
   */
  lemma DeleteIsDoneIff(rules: Rules, st: Store, name: string, deleteScenarios: Option<bool>)
    requires Exact(rules, st)
    ensures var e := DeleteGroup(st, name, deleteScenarios);
            && (e.outcome.Done? <==>
                && name in st.groups
                && (deleteScenarios.Some? || forall id :: id in st.scenarios ==> !Names(st.scenarios[id], name)))
            && (e.outcome.Done? ==>
                  && e.store.groups == st.groups - {name} && e.store.jobs == st.jobs
                  && DeletionLeaves(st.scenarios, e.store.scenarios, name, deleteScenarios == Some(true)))
            && (!e.outcome.Done? ==> e.store == st)
  {
    if name in st.groups {
      assert forall id :: id in st.scenarios && Names(st.scenarios[id], name) ==> id in Members(st.scenarios, name);
      if st.groups[name] > 0 {
        assert Members(st.scenarios, name) != {};
        var id :| id in Members(st.scenarios, name);
        assert Names(st.scenarios[id], name);
      } else {
        assert Members(st.scenarios, name) == {};
      }
    }
  }
}
