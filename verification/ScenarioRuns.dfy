/** Group counters, exact registries and rollbacks of the scenario store, over single steps and over whole runs. */
module ScenarioRuns {
  import opened Options
  import opened Values
  import opened Scheduler
  import opened Scenarios
  import opened ScenarioStore
  import opened ScenarioInvariants

  // ---------------------------------------------------------------------------------------------
  // Counting members
  // ---------------------------------------------------------------------------------------------

  lemma CountWith(scenarios: map<string, Scenario>, id: string, s: Scenario, g: string)
    ensures |Members(scenarios[id := s], g)|
            == |Members(scenarios - {id}, g)| + (if GroupOf(s) == Some(g) then 1 else 0)
  {
    var others := Members(scenarios - {id}, g);
    assert Members(scenarios[id := s], g) == if GroupOf(s) == Some(g) then others + {id} else others;
  }

  lemma CountWithout(scenarios: map<string, Scenario>, id: string, g: string)
    requires id in scenarios
    ensures |Members(scenarios, g)|
            == |Members(scenarios - {id}, g)| + (if GroupOf(scenarios[id]) == Some(g) then 1 else 0)
  {
    CountWith(scenarios, id, scenarios[id], g);
    assert scenarios[id := scenarios[id]] == scenarios;
  }

  lemma AgreeAfterInsert(st: Store, id: string, s: Scenario)
    requires CountersAgree(st) && id !in st.scenarios
    ensures CountersAgree(Store(st.scenarios[id := s], st.jobs, Bump(st.groups, GroupOf(s), 1)))
  {
    assert st.scenarios - {id} == st.scenarios;
    var groups := Bump(st.groups, GroupOf(s), 1);
    forall g | g in groups
      ensures groups[g] == |Members(st.scenarios[id := s], g)|
    {
      CountWith(st.scenarios, id, s, g);
      if g !in st.groups {
        assert Members(st.scenarios, g) == {};
      }
    }
  }

  lemma AgreeAfterRemove(st: Store, id: string)
    requires CountersAgree(st) && id in st.scenarios
    ensures var g := GroupOf(st.scenarios[id]); g.Some? ==> g.value in st.groups && st.groups[g.value] >= 1
    ensures CountersAgree(Store(st.scenarios - {id}, st.jobs, Bump(st.groups, GroupOf(st.scenarios[id]), -1)))
  {
    forall g
      ensures |Members(st.scenarios, g)|
              == |Members(st.scenarios - {id}, g)| + (if GroupOf(st.scenarios[id]) == Some(g) then 1 else 0)
    {
      CountWithout(st.scenarios, id, g);
    }
  }

  /** Counters do not depend on anything but the groups of the scenarios. */
  lemma AgreeAfterSameGroup(st: Store, id: string, s: Scenario)
    requires id in st.scenarios && GroupOf(s) == GroupOf(st.scenarios[id])
    ensures CountersAgree(st.(scenarios := st.scenarios[id := s])) <==> CountersAgree(st)
  {
    var scenarios := st.scenarios[id := s];
    forall g
      ensures Members(scenarios, g) == Members(st.scenarios, g)
    {
    }
    assert forall b :: b in st.scenarios ==> GroupOf(scenarios[b]) == GroupOf(st.scenarios[b]);
  }

  // ---------------------------------------------------------------------------------------------
  // Counters over single operations
  // ---------------------------------------------------------------------------------------------

  lemma AddKeepsCounters(rules: Rules, st: Store, id: string, dto: Scenario, times: DayTimePoints, admitted: bool)
    requires WellFormed(rules, st) && CountersAgree(st) && id !in st.scenarios
    ensures CountersAgree(AddScenario(rules, st, id, dto, times, admitted).store)
  {
    if AddSaves(rules, st, dto, times, admitted) {
      var s := dto.(trigger := AdjustTrigger(dto.trigger, times));
      AddEffect(rules, st, id, dto, times, admitted);
      if AddSchedulingFails(rules, st, s) {
        TouchKeepsCounters(st, GroupOf(s));
      } else {
        AgreeAfterInsert(st, id, s);
      }
    }
  }

  lemma TouchKeepsCounters(st: Store, group: Option<string>)
    requires CountersAgree(st)
    ensures CountersAgree(st.(groups := Touch(st.groups, group)))
  {
    if group.Some? && group.value !in st.groups {
      assert Members(st.scenarios, group.value) == {};
    }
  }

  lemma RemoveKeepsCounters(rules: Rules, st: Store, id: string)
    requires WellFormed(rules, st) && CountersAgree(st)
    ensures CountersAgree(RemoveScenario(rules, st, id).store)
    ensures RemoveScenario(rules, st, id).outcome != Threw(InvalidGroup)
  {
    if id in st.scenarios {
      AgreeAfterRemove(st, id);
      UpsertEffect(rules, st.(scenarios := st.scenarios - {id}), st.scenarios[id], -1);
    }
  }

  /** The groups behind an update that moves a scenario: one down, one up. */
  lemma SyncEffect(rules: Rules, st: Store, previous: Scenario, current: Scenario)
    requires SchemaAccepts(rules, current) && !CounterUnderflow(st, previous.group, current.group)
    requires forall g :: g in st.groups ==> st.groups[g] >= 0
    ensures SyncGroupOnUpdate(rules, st, previous.group, current.group).store.groups
            == MovedGroups(st.groups, previous, current)
  {
    if previous.group != current.group {
      DecrementEffect(rules, st, previous);
      UpsertEffect(rules, st.(groups := Bump(st.groups, GroupOf(previous), -1)), current, 1);
    }
  }

  lemma DecrementEffect(rules: Rules, st: Store, s: Scenario)
    requires GroupOf(s).Some? ==> GroupOf(s).value in st.groups && st.groups[GroupOf(s).value] > 0
    ensures Upsert(rules, st, s.group, -1) == Effect(st.(groups := Bump(st.groups, GroupOf(s), -1)), Done)
  {
  }

  lemma NoUnderflowWhenCountersAgree(st: Store, id: string, next: Option<string>)
    requires CountersAgree(st) && id in st.scenarios
    ensures !CounterUnderflow(st, st.scenarios[id].group, next)
  {
    AgreeAfterRemove(st, id);
  }

  lemma AgreeAfterMove(st: Store, id: string, current: Scenario)
    requires CountersAgree(st) && id in st.scenarios
    ensures CountersAgree(Store(st.scenarios[id := current], st.jobs,
                                MovedGroups(st.groups, st.scenarios[id], current)))
  {
    if st.scenarios[id].group == current.group {
      AgreeAfterSameGroup(st, id, current);
    } else {
      AgreeAfterRemove(st, id);
      var removed := Store(st.scenarios - {id}, st.jobs, Bump(st.groups, GroupOf(st.scenarios[id]), -1));
      AgreeAfterInsert(removed, id, current);
      assert removed.scenarios[id := current] == st.scenarios[id := current];
    }
  }

  /**
   * A saved update that cannot register its job although it has already moved the scenario out of the group it returns
   * to.
   */
  ghost predicate FailsMovingGroup(rules: Rules, st: Store, op: Operation) {
    && op.Update? && Saves(rules, st, op.id, op.change, op.times, op.admitted)
    && var previous, current := st.scenarios[op.id], Assign(st.scenarios[op.id], op.change, op.times);
       && SchedulingFails(rules, st.jobs, previous, current)
       && previous.group.Some? && GroupOf(previous) != GroupOf(current)
  }

  /** The exact condition under which an update keeps counters and scenarios in agreement. */
  lemma UpdateKeepsCountersIff(rules: Rules, st: Store, id: string, dto: UpdateDto, times: DayTimePoints,
                               admitted: bool)
    requires Scheduled(rules, st) && CountersAgree(st)
    ensures var op := Update(id, dto, times, admitted);
            && (CountersAgree(Apply(rules, st, op).store) <==> !FailsMovingGroup(rules, st, op))
            && !Underflows(rules, st, op)
  {
    if Saves(rules, st, id, dto, times, admitted) {
      var previous, current := st.scenarios[id], Assign(st.scenarios[id], dto, times);
      SavedUpdateEffect(rules, st, id, dto, times, admitted);
      if SchedulingFails(rules, st.jobs, previous, current) {
        RollBackKeepsCountersIff(st, id, current);
      } else {
        AgreeAfterMove(st, id, current);
      }
    }
  }

  /** The groups behind an update that saved `current` for `previous`. */
  function MovedGroups(groups: map<string, int>, previous: Scenario, current: Scenario): map<string, int> {
    if previous.group == current.group then groups else Bump(Bump(groups, GroupOf(previous), -1), GroupOf(current), 1)
  }

  /** A saved update as a whole. */
  lemma SavedUpdateEffect(rules: Rules, st: Store, id: string, dto: UpdateDto, times: DayTimePoints, admitted: bool)
    requires Scheduled(rules, st) && CountersAgree(st) && Saves(rules, st, id, dto, times, admitted)
    ensures var previous, current := st.scenarios[id], Assign(st.scenarios[id], dto, times);
            var fails := SchedulingFails(rules, st.jobs, previous, current);
            && !CounterUnderflow(st, previous.group, current.group)
            && UpdateScenario(rules, st, id, dto, times, admitted) == Effect(
                 Store(st.scenarios[id := if fails then WriteBack(previous, current) else current],
                       JobsAfterUpdate(rules, st.jobs, id, previous, current),
                       MovedGroups(st.groups, previous, current)),
                 if fails then Threw(SchedulingFailed) else Done)
  {
    var previous, current := st.scenarios[id], Assign(st.scenarios[id], dto, times);
    NoUnderflowWhenCountersAgree(st, id, current.group);
    RescheduleEffect(rules, st, id, current);
    SyncEffect(rules, st, previous, current);
  }

  lemma RollBackKeepsCountersIff(st: Store, id: string, current: Scenario)
    requires CountersAgree(st) && id in st.scenarios
    ensures var previous := st.scenarios[id];
            CountersAgree(Store(st.scenarios[id := WriteBack(previous, current)], st.jobs,
                                MovedGroups(st.groups, previous, current)))
            <==> !(previous.group.Some? && GroupOf(previous) != GroupOf(current))
  {
    var previous := st.scenarios[id];
    AgreeAfterMove(st, id, current);
    var moved := Store(st.scenarios[id := current], st.jobs, MovedGroups(st.groups, previous, current));
    var restored := WriteBack(previous, current);
    assert moved.scenarios[id := restored] == st.scenarios[id := restored];
    if GroupOf(restored) == GroupOf(current) {
      AgreeAfterSameGroup(moved, id, restored);
    } else {
      DisagreeAfterMove(moved, id, restored);
    }
  }

  /** Moving a scenario to another group without counting it leaves the counters wrong. */
  lemma DisagreeAfterMove(st: Store, id: string, s: Scenario)
    requires CountersAgree(st) && id in st.scenarios && GroupOf(s) != GroupOf(st.scenarios[id])
    ensures !CountersAgree(st.(scenarios := st.scenarios[id := s]))
  {
    var g := if GroupOf(s).Some? then GroupOf(s).value else GroupOf(st.scenarios[id]).value;
    CountWith(st.scenarios, id, s, g);
    CountWithout(st.scenarios, id, g);
    assert st.scenarios[id := s][id] == s;
  }

  lemma DeleteKeepsCounters(st: Store, name: string, deleteScenarios: Option<bool>)
    requires CountersAgree(st) && "" !in st.groups
    ensures CountersAgree(DeleteGroup(st, name, deleteScenarios).store)
  {
    var e := DeleteGroup(st, name, deleteScenarios);
    if e.outcome.Done? {
      if st.groups[name] <= 0 {
        assert Members(st.scenarios, name) == {};
      }
      forall b | b in e.store.scenarios
        ensures b in st.scenarios && GroupOf(e.store.scenarios[b]) != Some(name)
        ensures GroupOf(st.scenarios[b]) != Some(name) ==> GroupOf(e.store.scenarios[b]) == GroupOf(st.scenarios[b])
        ensures GroupOf(st.scenarios[b]) == Some(name) ==> GroupOf(e.store.scenarios[b]).None?
      {
        if GroupOf(st.scenarios[b]) == Some(name) {
          assert b in Members(st.scenarios, name);
        }
      }
      forall g | g in e.store.groups
        ensures Members(e.store.scenarios, g) == Members(st.scenarios, g)
      {
      }
    }
  }

  lemma StepKeepsCounters(rules: Rules, st: Store, op: Operation)
    requires Scheduled(rules, st) && CountersAgree(st) && Enabled(st, op) && !FailsMovingGroup(rules, st, op)
    ensures CountersAgree(Apply(rules, st, op).store)
    ensures !Underflows(rules, st, op)
  {
    match op
    case Add(id, dto, times, admitted) => AddKeepsCounters(rules, st, id, dto, times, admitted);
    case Update(id, change, times, admitted) => UpdateKeepsCountersIff(rules, st, id, change, times, admitted);
    case Remove(id) => RemoveKeepsCounters(rules, st, id);
    case Create(g) =>
      if g !in st.groups {
        assert Members(st.scenarios, g) == {};
      }
    case Delete(g, deleteScenarios) => DeleteKeepsCounters(st, g, deleteScenarios);
  }

  // ---------------------------------------------------------------------------------------------
  // No stale jobs
  // ---------------------------------------------------------------------------------------------

  /** An update of an inactive cron scenario whose own expression parses, to a version that cannot be scheduled. */
  ghost predicate FailsFromInactive(rules: Rules, st: Store, op: Operation) {
    && op.Update? && Saves(rules, st, op.id, op.change, op.times, op.admitted)
    && var previous, current := st.scenarios[op.id], Assign(st.scenarios[op.id], op.change, op.times);
       && SchedulingFails(rules, st.jobs, previous, current)
       && !previous.active && Cron(previous).Some? && rules.cronParses(Cron(previous).value)
  }

  /** A group deletion that takes active cron scenarios with it. */
  ghost predicate DeletesScheduled(st: Store, op: Operation) {
    && op.Delete? && op.deleteScenarios == Some(true) && op.group in st.groups && st.groups[op.group] > 0
    && exists id :: id in st.scenarios && st.scenarios[id].group == Some(op.group) && NeedsJob(st.scenarios[id])
  }

  /** With no stale jobs, a name that no scenario has is free in the registry. */
  lemma NameIsFree(st: Store, name: string)
    requires NoStaleJobs(st) && !NameTaken(st.scenarios, name)
    ensures name !in st.jobs
  {
  }

  lemma UpdateLeavesNoStaleJobIff(rules: Rules, st: Store, id: string, dto: UpdateDto, times: DayTimePoints,
                                  admitted: bool)
    requires Scheduled(rules, st) && CountersAgree(st) && NoStaleJobs(st)
    ensures var op := Update(id, dto, times, admitted);
            NoStaleJobs(Apply(rules, st, op).store) <==> !FailsFromInactive(rules, st, op)
  {
    if Saves(rules, st, id, dto, times, admitted) {
      var previous, current := st.scenarios[id], Assign(st.scenarios[id], dto, times);
      SavedUpdateEffect(rules, st, id, dto, times, admitted);
      SavedNames(rules, st, id, dto, times, admitted);
      if SchedulingFails(rules, st.jobs, previous, current) {
        RollBackAndStaleJobs(rules, st, id, current);
      } else {
        ReplaceLeavesNoStaleJob(rules, st, id, current);
      }
    }
  }

  lemma RollBackAndStaleJobs(rules: Rules, st: Store, id: string, current: Scenario)
    requires Scheduled(rules, st) && NoStaleJobs(st) && id in st.scenarios
    ensures var previous := st.scenarios[id];
            NoStaleJobs(Store(st.scenarios[id := WriteBack(previous, current)],
                              RolledBackJobs(rules, st.jobs, id, previous), st.groups))
            <==> !(!previous.active && Cron(previous).Some? && rules.cronParses(Cron(previous).value))
  {
    var previous := st.scenarios[id];
    var scenarios := st.scenarios[id := WriteBack(previous, current)];
    var jobs := RolledBackJobs(rules, st.jobs, id, previous);
    if !previous.active && Cron(previous).Some? && rules.cronParses(Cron(previous).value) {
      assert previous.name !in st.jobs;
      assert previous.name in jobs && jobs[previous.name].scenarioId == id;
      assert !scenarios[id].active;
    } else {
      assert jobs == st.jobs;
    }
  }

  lemma ReplaceLeavesNoStaleJob(rules: Rules, st: Store, id: string, current: Scenario)
    requires UniqueNames(st.scenarios) && NoStaleJobs(st) && id in st.scenarios
    requires !SchedulingFails(rules, st.jobs, st.scenarios[id], current)
    ensures NoStaleJobs(Store(st.scenarios[id := current],
                              JobsAfterUpdate(rules, st.jobs, id, st.scenarios[id], current), st.groups))
  {
    var previous := st.scenarios[id];
    var jobs := JobsAfterUpdate(rules, st.jobs, id, previous, current);
    var scenarios := st.scenarios[id := current];
    forall name | name in jobs
      ensures var b := jobs[name].scenarioId;
              b in scenarios && scenarios[b].name == name && NeedsJob(scenarios[b])
    {
      if !(NeedsJob(current) && name == current.name) {
        assert name in st.jobs && jobs[name] == st.jobs[name];
        assert NeedsJob(previous) ==> name != previous.name;
      }
    }
  }

  lemma StepLeavesNoStaleJobIff(rules: Rules, st: Store, op: Operation)
    requires Scheduled(rules, st) && CountersAgree(st) && NoStaleJobs(st) && Enabled(st, op)
    ensures NoStaleJobs(Apply(rules, st, op).store) <==> !FailsFromInactive(rules, st, op) && !DeletesScheduled(st, op)
  {
    match op
    case Add(id, dto, times, admitted) =>
      AddLeavesNoStaleJob(rules, st, id, dto, times, admitted);
    case Update(id, change, times, admitted) =>
      UpdateLeavesNoStaleJobIff(rules, st, id, change, times, admitted);
    case Remove(id) =>
      RemoveLeavesNoStaleJob(rules, st, id);
    case Create(g) =>
    case Delete(g, deleteScenarios) =>
      DeleteAndStaleJobs(rules, st, g, deleteScenarios);
  }

  lemma AddLeavesNoStaleJob(rules: Rules, st: Store, id: string, dto: Scenario, times: DayTimePoints, admitted: bool)
    requires Scheduled(rules, st) && NoStaleJobs(st) && id !in st.scenarios
    ensures NoStaleJobs(AddScenario(rules, st, id, dto, times, admitted).store)
  {
    if AddSaves(rules, st, dto, times, admitted) {
      AddEffect(rules, st, id, dto, times, admitted);
      NameIsFree(st, dto.name);
    }
  }

  lemma RemoveLeavesNoStaleJob(rules: Rules, st: Store, id: string)
    requires Scheduled(rules, st) && CountersAgree(st) && NoStaleJobs(st)
    ensures NoStaleJobs(RemoveScenario(rules, st, id).store)
  {
    if id in st.scenarios {
      var s := st.scenarios[id];
      var e := RemoveScenario(rules, st, id);
      AgreeAfterRemove(st, id);
      UpsertEffect(rules, st.(scenarios := st.scenarios - {id}), s, -1);
      assert e.store.scenarios == st.scenarios - {id};
      assert e.store.jobs == if s.active && s.name in st.jobs then st.jobs - {s.name} else st.jobs;
      forall name | name in e.store.jobs
        ensures st.jobs[name].scenarioId != id
      {
        assert name in st.jobs;
      }
    }
  }

  lemma DeleteAndStaleJobs(rules: Rules, st: Store, name: string, deleteScenarios: Option<bool>)
    requires Scheduled(rules, st) && NoStaleJobs(st)
    ensures NoStaleJobs(DeleteGroup(st, name, deleteScenarios).store) <==>
              !DeletesScheduled(st, Delete(name, deleteScenarios))
  {
    var store := DeleteGroup(st, name, deleteScenarios).store;
    if DeletesScheduled(st, Delete(name, deleteScenarios)) {
      var id :| id in st.scenarios && st.scenarios[id].group == Some(name) && NeedsJob(st.scenarios[id]);
      assert HasJob(st.jobs, id, st.scenarios[id]);
      assert store.jobs[st.scenarios[id].name].scenarioId !in store.scenarios;
    } else {
      forall job | job in st.jobs
        ensures var b := st.jobs[job].scenarioId;
                b in store.scenarios && store.scenarios[b].name == job && NeedsJob(store.scenarios[b])
      {
        var b := st.jobs[job].scenarioId;
        assert b in st.scenarios && NeedsJob(st.scenarios[b]);
      }
    }
  }

  /**
   * Removing a stored scenario always deletes it, counts it out of its group and takes its job away. It nevertheless
   * throws when an active scenario has no job, which with an exact registry are those without a cron source.
   */
  lemma RemoveEffect(rules: Rules, st: Store, id: string)
    requires Scheduled(rules, st) && CountersAgree(st) && id in st.scenarios
    ensures var s := st.scenarios[id];
            var e := RemoveScenario(rules, st, id);
            && e.store == Store(st.scenarios - {id},
                                if s.active then st.jobs - {s.name} else st.jobs,
                                Bump(st.groups, GroupOf(s), -1))
            && (e.outcome == Threw(MissingJob) <==> s.active && s.name !in st.jobs)
            && (e.outcome != Threw(MissingJob) ==> e.outcome == Done)
            && (NoStaleJobs(st) ==> (e.outcome == Threw(MissingJob) <==> s.active && Cron(s).None?))
  {
    var s := st.scenarios[id];
    AgreeAfterRemove(st, id);
    UpsertEffect(rules, st.(scenarios := st.scenarios - {id}), s, -1);
    assert s.name !in st.jobs ==> st.jobs - {s.name} == st.jobs;
    assert NeedsJob(s) ==> HasJob(st.jobs, id, s);
  }

  // ---------------------------------------------------------------------------------------------
  // Rolling back a failed update
  // ---------------------------------------------------------------------------------------------

  ghost predicate SameOtherJobs(jobs: map<string, Job>, jobs': map<string, Job>, names: set<string>) {
    forall name :: name !in names ==> (name in jobs' <==> name in jobs) && (name in jobs ==> jobs'[name] == jobs[name])
  }

  lemma ReplaceJobTouches(rules: Rules, st: Store, id: string, previous: Scenario, current: Scenario)
    requires id in st.scenarios
    ensures var e := ReplaceJob(rules, st, id, previous, current);
            && id in e.store.scenarios && e.store.scenarios - {id} == st.scenarios - {id}
            && (e.outcome.Done? ==> e.store.scenarios == st.scenarios)
            && SameOtherJobs(st.jobs, e.store.jobs, {previous.name, current.name})
  {
    var u := if NeedsJob(previous) then UnscheduleJob(st, previous.name) else Effect(st, Done);
    assert SameOtherJobs(st.jobs, u.store.jobs, {previous.name, current.name});
  }

  /** An update changes no other scenario and no job under another name, whatever the store and the outcome. */
  lemma UpdateTouchesOnlyItsScenario(rules: Rules, st: Store, id: string, dto: UpdateDto, times: DayTimePoints,
                                     admitted: bool)
    requires id in st.scenarios
    ensures var e := UpdateScenario(rules, st, id, dto, times, admitted);
            && id in e.store.scenarios && e.store.scenarios - {id} == st.scenarios - {id}
            && SameOtherJobs(st.jobs, e.store.jobs, {st.scenarios[id].name, GetOr(dto.name, st.scenarios[id].name)})
            && (e.outcome.Done? ==> e.store.scenarios[id] == Assign(st.scenarios[id], dto, times))
  {
    var previous, current := st.scenarios[id], Assign(st.scenarios[id], dto, times);
    if Saves(rules, st, id, dto, times, admitted) {
      var saved := st.(scenarios := st.scenarios[id := current]);
      SyncLeavesJobs(rules, saved, previous.group, current.group);
      assert saved.scenarios - {id} == st.scenarios - {id};
      ReplaceJobTouches(rules, SyncGroupOnUpdate(rules, saved, previous.group, current.group).store, id, previous,
                        current);
    }
  }

  lemma SyncLeavesJobs(rules: Rules, st: Store, previous: Option<string>, next: Option<string>)
    ensures var e := SyncGroupOnUpdate(rules, st, previous, next);
            e.store.scenarios == st.scenarios && e.store.jobs == st.jobs
  {
  }

  /**
   * A successful update stores every submitted value and keeps the values of the fields that were not submitted; of a
   * submitted trigger only the expression of the first cron source changes, if it is adjusted to a time of day.
   */
  lemma UpdateStoresSubmitted(rules: Rules, st: Store, id: string, dto: UpdateDto, times: DayTimePoints, admitted: bool)
    requires id in st.scenarios && UpdateScenario(rules, st, id, dto, times, admitted).outcome.Done?
    ensures var scenarios := UpdateScenario(rules, st, id, dto, times, admitted).store.scenarios;
            id in scenarios && StoresSubmitted(st.scenarios[id], dto, times, scenarios[id])
  {
    UpdateTouchesOnlyItsScenario(rules, st, id, dto, times, admitted);
    AssignStoresSubmitted(st.scenarios[id], dto, times);
  }

  /** `next` has what was submitted and otherwise what `s` had; a number of executions of 0 counts as not submitted. */
  ghost predicate StoresSubmitted(s: Scenario, dto: UpdateDto, times: DayTimePoints, next: Scenario) {
    && (if dto.name.Some? then next.name == dto.name.value else next.name == s.name)
    && (if dto.description.Some? then next.description == dto.description else next.description == s.description)
    && (if dto.group.Some? then next.group == dto.group else next.group == s.group)
    && (if dto.active.Some? then next.active == dto.active.value else next.active == s.active)
    && (if dto.actions.Some? then next.actions == dto.actions.value else next.actions == s.actions)
    && (if dto.repeatTimes in {Unset, Times(0)} then next.repeatTimes == s.repeatTimes
        else next.repeatTimes == dto.repeatTimes)
    && (if dto.trigger.Some? then StoresTrigger(dto.trigger.value, next.trigger, times) else next.trigger == s.trigger)
  }

  lemma AssignStoresSubmitted(s: Scenario, dto: UpdateDto, times: DayTimePoints)
    ensures StoresSubmitted(s, dto, times, Assign(s, dto, times))
  {
    if dto.trigger.Some? {
      TriggerIsStored(dto.trigger.value, times);
    }
  }

  ghost predicate StoresTrigger(submitted: Trigger, stored: Trigger, times: DayTimePoints) {
    && stored.logic == submitted.logic
    && |stored.sources| == |submitted.sources|
    && forall i :: 0 <= i < |stored.sources| ==>
         var source := submitted.sources[i];
         stored.sources[i] ==
           if IsFirstCron(submitted.sources, i) && source.adjustTo.Some?
           then source.(cron := UpdateCronTime(source.cron, source.adjustTo.value, times)) else source
  }

  lemma TriggerIsStored(submitted: Trigger, times: DayTimePoints)
    ensures StoresTrigger(submitted, AdjustTrigger(submitted, times), times)
  {
    if submitted.sources != [] {
      AdjustedSource(submitted.sources, times, 0);
    }
    forall i | 0 <= i < |submitted.sources|
      ensures AdjustSources(submitted.sources, times)[i] ==
              if IsFirstCron(submitted.sources, i) && submitted.sources[i].adjustTo.Some?
              then submitted.sources[i].(cron := UpdateCronTime(submitted.sources[i].cron,
                                                                submitted.sources[i].adjustTo.value, times))
              else submitted.sources[i]
    {
      AdjustedSource(submitted.sources, times, i);
    }
  }

  /** The submitted fields set an optional field that the stored scenario did not have. */
  predicate AddsField(previous: Scenario, current: Scenario) {
    || (previous.description.None? && current.description.Some?)
    || (previous.group.None? && current.group.Some?)
    || (previous.repeatTimes == Unset && current.repeatTimes != Unset)
  }

  /** Every field that `previous` has is the same in `restored`. */
  predicate HasFieldsOf(restored: Scenario, previous: Scenario) {
    && restored.name == previous.name && restored.active == previous.active
    && restored.trigger == previous.trigger && restored.actions == previous.actions
    && (previous.description.Some? ==> restored.description == previous.description)
    && (previous.group.Some? ==> restored.group == previous.group)
    && (previous.repeatTimes != Unset ==> restored.repeatTimes == previous.repeatTimes)
  }

  /**
   * When an active cron scenario cannot be rescheduled, the registry is as before and every field it had is restored;
   * the whole store is as before exactly if the update set no field that was absent and did not move the scenario.
   */
  lemma FailedUpdateRollsBack(rules: Rules, st: Store, id: string, dto: UpdateDto, times: DayTimePoints, admitted: bool)
    requires Scheduled(rules, st) && CountersAgree(st) && Saves(rules, st, id, dto, times, admitted)
    requires NeedsJob(st.scenarios[id])
    requires SchedulingFails(rules, st.jobs, st.scenarios[id], Assign(st.scenarios[id], dto, times))
    ensures var previous, current := st.scenarios[id], Assign(st.scenarios[id], dto, times);
            var e := UpdateScenario(rules, st, id, dto, times, admitted);
            && e.outcome == Threw(SchedulingFailed)
            && e.store.jobs == st.jobs
            && id in e.store.scenarios && e.store.scenarios - {id} == st.scenarios - {id}
            && HasFieldsOf(e.store.scenarios[id], previous)
            && (GroupOf(previous) == GroupOf(current) ==> e.store.groups == st.groups)
            && (e.store == st <==> !AddsField(previous, current) && GroupOf(previous) == GroupOf(current))
  {
    var previous, current := st.scenarios[id], Assign(st.scenarios[id], dto, times);
    SavedUpdateEffect(rules, st, id, dto, times, admitted);
    var e := UpdateScenario(rules, st, id, dto, times, admitted);
    RestoredScenarios(st.scenarios, id, current);
    if GroupOf(previous) == GroupOf(current) {
      MovingBackAndForth(st, id, current);
    } else {
      MovingChangesCounts(st, id, current);
    }
  }

  lemma RestoredScenarios(scenarios: map<string, Scenario>, id: string, current: Scenario)
    requires id in scenarios
    ensures var restored := scenarios[id := WriteBack(scenarios[id], current)];
            && restored - {id} == scenarios - {id}
            && HasFieldsOf(restored[id], scenarios[id])
            && (restored == scenarios <==> !AddsField(scenarios[id], current))
  {
    var restored := scenarios[id := WriteBack(scenarios[id], current)];
    assert restored == scenarios ==> restored[id] == scenarios[id];
    assert scenarios[id := scenarios[id]] == scenarios;
  }

  lemma MovingBackAndForth(st: Store, id: string, current: Scenario)
    requires CountersAgree(st) && id in st.scenarios && GroupOf(st.scenarios[id]) == GroupOf(current)
    ensures MovedGroups(st.groups, st.scenarios[id], current) == st.groups
  {
    AgreeAfterRemove(st, id);
  }

  lemma MovingChangesCounts(st: Store, id: string, current: Scenario)
    requires CountersAgree(st) && id in st.scenarios && GroupOf(st.scenarios[id]) != GroupOf(current)
    ensures MovedGroups(st.groups, st.scenarios[id], current) != st.groups
  {
    AgreeAfterRemove(st, id);
    var groups := MovedGroups(st.groups, st.scenarios[id], current);
    if GroupOf(current).Some? {
      var g := GroupOf(current).value;
      assert g in groups && (g in st.groups ==> groups[g] == st.groups[g] + 1);
    } else {
      var g := GroupOf(st.scenarios[id]).value;
      assert groups[g] == st.groups[g] - 1;
    }
  }

  // ---------------------------------------------------------------------------------------------
  // Whole runs
  // ---------------------------------------------------------------------------------------------

  /** The operations can be performed one after the other. */
  ghost predicate IsRun(rules: Rules, st: Store, ops: seq<Operation>)
    decreases |ops|
  {
    ops == [] || (Enabled(st, ops[0]) && IsRun(rules, Apply(rules, st, ops[0]).store, ops[1..]))
  }

  ghost function After(rules: Rules, st: Store, ops: seq<Operation>): Store
    requires IsRun(rules, st, ops)
    decreases |ops|
  {
    if ops == [] then st else After(rules, Apply(rules, st, ops[0]).store, ops[1..])
  }

  ghost predicate NeverUnderflows(rules: Rules, st: Store, ops: seq<Operation>)
    requires IsRun(rules, st, ops)
    decreases |ops|
  {
    ops != [] ==> !Underflows(rules, st, ops[0]) && NeverUnderflows(rules, Apply(rules, st, ops[0]).store, ops[1..])
  }

  ghost predicate NeverFailsMovingGroup(rules: Rules, st: Store, ops: seq<Operation>)
    requires IsRun(rules, st, ops)
    decreases |ops|
  {
    ops != [] ==>
      !FailsMovingGroup(rules, st, ops[0]) && NeverFailsMovingGroup(rules, Apply(rules, st, ops[0]).store, ops[1..])
  }

  ghost predicate NeverLeavesJobs(rules: Rules, st: Store, ops: seq<Operation>)
    requires IsRun(rules, st, ops)
    decreases |ops|
  {
    ops != [] ==>
      && !FailsFromInactive(rules, st, ops[0]) && !DeletesScheduled(st, ops[0])
      && NeverLeavesJobs(rules, Apply(rules, st, ops[0]).store, ops[1..])
  }

  /**
   * Over every run: as long as no saved update meets a counter that cannot go down, every active cron scenario has its
   * job.
   */
  lemma {:induction false} RunKeepsScheduled(rules: Rules, st: Store, ops: seq<Operation>)
    requires Scheduled(rules, st) && IsRun(rules, st, ops) && NeverUnderflows(rules, st, ops)
    ensures Scheduled(rules, After(rules, st, ops))
    decreases |ops|
  {
    if ops == [] {
    } else {
      StepKeepsScheduled(rules, st, ops[0]);
      RunKeepsScheduled(rules, Apply(rules, st, ops[0]).store, ops[1..]);
    }
  }

  /** Over every run without a failed move between groups, counters agree with the scenarios, and so jobs do too. */
  lemma {:induction false} RunKeepsCounters(rules: Rules, st: Store, ops: seq<Operation>)
    requires Scheduled(rules, st) && CountersAgree(st)
    requires IsRun(rules, st, ops) && NeverFailsMovingGroup(rules, st, ops)
    ensures Scheduled(rules, After(rules, st, ops)) && CountersAgree(After(rules, st, ops))
    ensures NeverUnderflows(rules, st, ops)
    decreases |ops|
  {
    if ops == [] {
    } else {
      StepKeepsCounters(rules, st, ops[0]);
      StepKeepsScheduled(rules, st, ops[0]);
      RunKeepsCounters(rules, Apply(rules, st, ops[0]).store, ops[1..]);
    }
  }

  /** If moreover no job is left behind on the way, the jobs are exactly those of the active cron scenarios. */
  lemma {:induction false} RunKeepsRegistryExact(rules: Rules, st: Store, ops: seq<Operation>)
    requires Scheduled(rules, st) && CountersAgree(st) && NoStaleJobs(st)
    requires IsRun(rules, st, ops) && NeverFailsMovingGroup(rules, st, ops) && NeverLeavesJobs(rules, st, ops)
    ensures Scheduled(rules, After(rules, st, ops)) && NoStaleJobs(After(rules, st, ops))
    decreases |ops|
  {
    if ops == [] {
    } else {
      StepKeepsCounters(rules, st, ops[0]);
      StepKeepsScheduled(rules, st, ops[0]);
      StepLeavesNoStaleJobIff(rules, st, ops[0]);
      RunKeepsRegistryExact(rules, Apply(rules, st, ops[0]).store, ops[1..]);
    }
  }

  /** The trigger schema accepts only cron expressions that parse. */
  ghost predicate ChecksCron(rules: Rules) {
    forall trigger: Trigger :: rules.trigger(trigger) && CronOf(trigger.sources).Some? ==>
      rules.cronParses(CronOf(trigger.sources).value)
  }

  /** With such a schema, only a name that is still in the registry can keep a saved update from being scheduled. */
  lemma ExactRegistryNeverFails(rules: Rules, st: Store, op: Operation)
    requires ChecksCron(rules) && Scheduled(rules, st) && NoStaleJobs(st)
    ensures !FailsMovingGroup(rules, st, op) && !FailsFromInactive(rules, st, op)
  {
    if op.Update? && Saves(rules, st, op.id, op.change, op.times, op.admitted) {
      var previous, current := st.scenarios[op.id], Assign(st.scenarios[op.id], op.change, op.times);
      if NeedsJob(current) {
        assert rules.cronParses(Cron(current).value);
        if current.name in st.jobs {
          OwnerOfTakenName(st, op.id, current.name);
        }
      }
    }
  }

  lemma OwnerOfTakenName(st: Store, id: string, name: string)
    requires NoStaleJobs(st) && id in st.scenarios && name in st.jobs && !NameTaken(st.scenarios - {id}, name)
    ensures st.scenarios[id].name == name && NeedsJob(st.scenarios[id])
  {
    if st.jobs[name].scenarioId != id {
      OwnerTakesName(st, id, name);
    }
  }

  lemma OwnerTakesName(st: Store, id: string, name: string)
    requires NoStaleJobs(st) && name in st.jobs && st.jobs[name].scenarioId != id
    ensures NameTaken(st.scenarios - {id}, name)
  {
    var owner := st.jobs[name].scenarioId;
    assert owner in st.scenarios - {id} && (st.scenarios - {id})[owner].name == name;
  }

  ghost predicate NeverDeletesScheduled(rules: Rules, st: Store, ops: seq<Operation>)
    requires IsRun(rules, st, ops)
    decreases |ops|
  {
    ops != [] ==>
      !DeletesScheduled(st, ops[0]) && NeverDeletesScheduled(rules, Apply(rules, st, ops[0]).store, ops[1..])
  }

  /**
   * If the schema accepts only expressions that parse, and no active cron scenario is deleted together with its group,
   * then over every run jobs and counters stay exact: nothing ever fails to be scheduled.
   */
  lemma {:induction false} RunStaysExact(rules: Rules, st: Store, ops: seq<Operation>)
    requires ChecksCron(rules) && Scheduled(rules, st) && CountersAgree(st) && NoStaleJobs(st)
    requires IsRun(rules, st, ops) && NeverDeletesScheduled(rules, st, ops)
    ensures var end := After(rules, st, ops); Scheduled(rules, end) && CountersAgree(end) && NoStaleJobs(end)
    ensures NeverFailsMovingGroup(rules, st, ops) && NeverLeavesJobs(rules, st, ops)
    decreases |ops|
  {
    if ops == [] {
    } else {
      ExactRegistryNeverFails(rules, st, ops[0]);
      StepKeepsCounters(rules, st, ops[0]);
      StepKeepsScheduled(rules, st, ops[0]);
      StepLeavesNoStaleJobIff(rules, st, ops[0]);
      RunStaysExact(rules, Apply(rules, st, ops[0]).store, ops[1..]);
    }
  }

  /** In particular over every run that never deletes a group together with its scenarios. */
  lemma RunWithoutDeletionsStaysExact(rules: Rules, st: Store, ops: seq<Operation>)
    requires ChecksCron(rules) && Scheduled(rules, st) && CountersAgree(st) && NoStaleJobs(st)
    requires IsRun(rules, st, ops)
    requires forall op :: op in ops && op.Delete? ==> op.deleteScenarios != Some(true)
    ensures var end := After(rules, st, ops); Scheduled(rules, end) && CountersAgree(end) && NoStaleJobs(end)
  {
    KeepingScenariosNeverDeletesScheduled(rules, st, ops);
    RunStaysExact(rules, st, ops);
  }

  lemma {:induction false} KeepingScenariosNeverDeletesScheduled(rules: Rules, st: Store, ops: seq<Operation>)
    requires IsRun(rules, st, ops)
    requires forall op :: op in ops && op.Delete? ==> op.deleteScenarios != Some(true)
    ensures NeverDeletesScheduled(rules, st, ops)
    decreases |ops|
  {
    if ops == [] {
    } else {
      assert ops[0] in ops;
      KeepingScenariosNeverDeletesScheduled(rules, Apply(rules, st, ops[0]).store, ops[1..]);
    }
  }

  // ---------------------------------------------------------------------------------------------
  // Starting the hub
  // ---------------------------------------------------------------------------------------------

  /**
   * Starting over any well-formed database succeeds iff every active cron scenario parses, and then jobs match exactly.
   */
  lemma StartSchedulesExactly(rules: Rules, st: Store, ids: seq<string>)
    requires WellFormed(rules, st) && st.jobs == map[]
    requires forall i, j :: 0 <= i < j < |ids| ==> ids[i] != ids[j]
    requires forall id :: id in ids <==> id in st.scenarios
    ensures var e := ScheduleExisting(rules, st, ids);
            && (e.outcome.Done? <==>
                forall id :: id in st.scenarios && NeedsJob(st.scenarios[id]) ==>
                  rules.cronParses(Cron(st.scenarios[id]).value))
            && (e.outcome.Done? ==>
                  && Scheduled(rules, e.store) && NoStaleJobs(e.store)
                  && e.store.scenarios == st.scenarios && e.store.groups == st.groups)
  {
    ScheduleRest(rules, st, [], ids);
    assert [] + ids == ids;
  }

  /** The registry holds the jobs of the scenarios done so far and no others. */
  ghost predicate ScheduledSoFar(st: Store, done: seq<string>) {
    && (forall id :: id in done ==> id in st.scenarios)
    && (forall id :: id in done && NeedsJob(st.scenarios[id]) ==> HasJob(st.jobs, id, st.scenarios[id]))
    && (forall name :: name in st.jobs ==> st.jobs[name].scenarioId in done)
  }

  function ScheduleNext(rules: Rules, st: Store, id: string): Effect
    requires id in st.scenarios
  {
    if st.scenarios[id].active then ScheduleScenario(rules, st, id, st.scenarios[id]) else Effect(st, Done)
  }

  lemma ScheduleOne(rules: Rules, st: Store, done: seq<string>, id: string)
    requires WellFormed(rules, st) && NoStaleJobs(st) && ScheduledSoFar(st, done)
    requires id in st.scenarios && id !in done
    ensures var e, s := ScheduleNext(rules, st, id), st.scenarios[id];
            && (e.outcome.Done? <==> (NeedsJob(s) ==> rules.cronParses(Cron(s).value)))
            && (e.outcome.Done? ==>
                  && WellFormed(rules, e.store) && NoStaleJobs(e.store) && ScheduledSoFar(e.store, done + [id])
                  && e.store.scenarios == st.scenarios && e.store.groups == st.groups)
  {
    var s := st.scenarios[id];
    assert s.name !in st.jobs;
    assert forall b :: b in done + [id] <==> b in done || b == id;
    if NeedsJob(s) && rules.cronParses(Cron(s).value) {
      RegisterOne(rules, st, done, id);
    }
  }

  lemma RegisterOne(rules: Rules, st: Store, done: seq<string>, id: string)
    requires WellFormed(rules, st) && NoStaleJobs(st) && ScheduledSoFar(st, done)
    requires id in st.scenarios && id !in done && NeedsJob(st.scenarios[id])
    requires rules.cronParses(Cron(st.scenarios[id]).value) && st.scenarios[id].name !in st.jobs
    ensures var s := st.scenarios[id];
            var registered := st.(jobs := st.jobs[s.name := Job(Cron(s).value, id)]);
            WellFormed(rules, registered) && NoStaleJobs(registered) && ScheduledSoFar(registered, done + [id])
  {
    var jobs := st.jobs[st.scenarios[id].name := Job(Cron(st.scenarios[id]).value, id)];
    assert forall b :: b in done + [id] <==> b in done || b == id;
    forall b | b in done && NeedsJob(st.scenarios[b])
      ensures HasJob(jobs, b, st.scenarios[b])
    {
      assert HasJob(st.jobs, b, st.scenarios[b]);
    }
  }

  lemma {:induction false} ScheduleRest(rules: Rules, st: Store, done: seq<string>, ids: seq<string>)
    requires WellFormed(rules, st) && NoStaleJobs(st) && ScheduledSoFar(st, done)
    requires forall id :: id in ids ==> id in st.scenarios && id !in done
    requires forall i, j :: 0 <= i < j < |ids| ==> ids[i] != ids[j]
    ensures var e := ScheduleExisting(rules, st, ids);
            && (e.outcome.Done? <==>
                forall id :: id in ids && NeedsJob(st.scenarios[id]) ==> rules.cronParses(Cron(st.scenarios[id]).value))
            && (e.outcome.Done? ==>
                  && WellFormed(rules, e.store) && NoStaleJobs(e.store) && ScheduledSoFar(e.store, done + ids)
                  && e.store.scenarios == st.scenarios && e.store.groups == st.groups)
    decreases |ids|
  {
    if ids == [] {
      assert done + ids == done;
    } else {
      var id := ids[0];
      ScheduleOne(rules, st, done, id);
      var e := ScheduleNext(rules, st, id);
      assert forall b :: b in ids <==> b == id || b in ids[1..];
      if e.outcome.Done? {
        assert done + [id] + ids[1..] == done + ids;
        ScheduleRest(rules, e.store, done + [id], ids[1..]);
      }
    }
  }

  // ---------------------------------------------------------------------------------------------
  // Deleted groups leave jobs behind, and then counters and jobs can drift
  // ---------------------------------------------------------------------------------------------

  /** Rules that object to nothing: every document and every cron expression is valid. */
  function PermissiveRules(): Rules {
    Rules(_ => true, _ => true, _ => true, _ => true, _ => true, _ => true)
  }

  const AT_SEVEN := "0 7 * * *"
  const AT_NINETEEN := "0 19 * * *"
  const AT_TWENTY_TWO := "0 22 * * *"

  const SWITCH_LAMP := Action("lamp", Some(map["on" := Boolean(true)]))

  function Timed(name: string, group: string, active: bool, cron: string): Scenario {
    Scenario(name, None, Some(group), active, Unset, Trigger([CronSource(cron, None)], "1"), [SWITCH_LAMP])
  }

  function Lights(group: string, active: bool, cron: string): Scenario { Timed("lights", group, active, cron) }

  function LightsJobs(active: bool): map<string, Job> {
    if active then map["lights" := Job(AT_SEVEN, "a")] else map[]
  }

  /** The lights in the one group, and an active porch scenario in the other. */
  function TwoScenarios(active: bool): Store {
    Store(map["a" := Lights("home", active, AT_SEVEN), "b" := Timed("porch", "garden", true, AT_TWENTY_TWO)],
          LightsJobs(active)["porch" := Job(AT_TWENTY_TWO, "b")], map["home" := 1, "garden" := 1])
  }

  /** Only the lights are left, and the job of the porch scenario. */
  function LightsOnly(s: Scenario, jobs: map<string, Job>, groups: map<string, int>): Store {
    Store(map["a" := s], jobs["porch" := Job(AT_TWENTY_TWO, "b")], groups)
  }

  const DELETE_GARDEN := Delete("garden", Some(true))

  lemma CronOfTimed(name: string, group: string, active: bool, cron: string)
    ensures Cron(Timed(name, group, active, cron)) == Some(cron)
  {
  }

  lemma ExactStart(active: bool)
    ensures var st := TwoScenarios(active);
            ChecksCron(PermissiveRules()) && Scheduled(PermissiveRules(), st) && CountersAgree(st) && NoStaleJobs(st)
  {
    StartIsWellFormed(active);
    ExactStartJobs(active);
    ExactStartCounters(active);
  }

  lemma ExactStartJobs(active: bool)
    ensures JobsCover(TwoScenarios(active)) && NoStaleJobs(TwoScenarios(active))
  {
    CronOfTimed("lights", "home", active, AT_SEVEN);
    CronOfTimed("porch", "garden", true, AT_TWENTY_TWO);
    OnlyTwo(TwoScenarios(active).scenarios["a"], TwoScenarios(active).scenarios["b"],
            if active then Some(Job(AT_SEVEN, "a")) else None, Job(AT_TWENTY_TWO, "b"),
            map["home" := 1, "garden" := 1]);
  }

  /** Two scenarios under different names with the jobs they need. */
  lemma OnlyTwo(a: Scenario, b: Scenario, jobA: Option<Job>, jobB: Job, groups: map<string, int>)
    requires a.name != b.name && NeedsJob(b) && jobB == Job(Cron(b).value, "b")
    requires if NeedsJob(a) then jobA == Some(Job(Cron(a).value, "a")) else jobA == None
    ensures var jobs := (if jobA.Some? then map[a.name := jobA.value] else map[])[b.name := jobB];
            var st := Store(map["a" := a, "b" := b], jobs, groups);
            JobsCover(st) && NoStaleJobs(st)
  {
  }

  lemma StartIsWellFormed(active: bool)
    ensures WellFormed(PermissiveRules(), TwoScenarios(active))
  {
    assert "lights" != "porch";
  }

  lemma ExactStartCounters(active: bool)
    ensures CountersAgree(TwoScenarios(active))
  {
    var scenarios := TwoScenarios(active).scenarios;
    assert "home" != "garden" && scenarios["a"].group == Some("home") && scenarios["b"].group == Some("garden");
    assert Members(scenarios, "home") == {"a"} && Members(scenarios, "garden") == {"b"};
  }

  lemma DeletionLeavesJob(active: bool)
    ensures DeleteGroup(TwoScenarios(active), "garden", Some(true)) ==
            Effect(LightsOnly(Lights("home", active, AT_SEVEN), LightsJobs(active), map["home" := 1]), Done)
  {
    var st := TwoScenarios(active);
    assert st.scenarios["a"].group != st.scenarios["b"].group;
    assert WithoutGroupMembers(st.scenarios, "garden") == map["a" := Lights("home", active, AT_SEVEN)];
    assert st.groups - {"garden"} == map["home" := 1];
  }

  lemma LightsAgree(active: bool)
    ensures var st := LightsOnly(Lights("home", active, AT_SEVEN), LightsJobs(active), map["home" := 1]);
            Scheduled(PermissiveRules(), st) && CountersAgree(st)
  {
    CronOfTimed("lights", "home", active, AT_SEVEN);
    assert Members(map["a" := Lights("home", active, AT_SEVEN)], "home") == {"a"};
  }

  /** Renames the lights to the name that is still in the registry, activates them and moves them to another group. */
  const TO_PORCH := NO_UPDATE.(name := Some("porch"), group := Some("away"), active := Some(true))

  /** The renamed scenario cannot be scheduled: the rollback restores the scenario, but not the counters. */
  lemma FailedMove(active: bool, times: DayTimePoints)
    ensures var st := LightsOnly(Lights("home", active, AT_SEVEN), LightsJobs(active), map["home" := 1]);
            UpdateScenario(PermissiveRules(), st, "a", TO_PORCH, times, true).store
            == LightsOnly(Lights("home", active, AT_SEVEN), LightsJobs(true), map["home" := 0, "away" := 1])
  {
    var s, renamed := Lights("home", active, AT_SEVEN), Timed("porch", "away", true, AT_SEVEN);
    var st := LightsOnly(s, LightsJobs(active), map["home" := 1]);
    LightsAgree(active);
    CronOfTimed("lights", "home", active, AT_SEVEN);
    CronOfTimed("porch", "away", true, AT_SEVEN);
    RenamingIsSaved(active, times);
    SavedUpdateEffect(PermissiveRules(), st, "a", TO_PORCH, times, true);
    RenamedIsWrittenBack(active);
    CountersOfMove(s, renamed);
    RegistryOfFailedMove(active);
  }

  lemma RenamedIsWrittenBack(active: bool)
    ensures var s := Lights("home", active, AT_SEVEN);
            && WriteBack(s, Timed("porch", "away", true, AT_SEVEN)) == s
            && map["a" := s]["a" := s] == map["a" := s]
  {
  }

  lemma RenamingIsSaved(active: bool, times: DayTimePoints)
    ensures var s := Lights("home", active, AT_SEVEN);
            && Assign(s, TO_PORCH, times) == Timed("porch", "away", true, AT_SEVEN)
            && Saves(PermissiveRules(), LightsOnly(s, LightsJobs(active), map["home" := 1]), "a", TO_PORCH, times, true)
  {
  }

  lemma CountersOfMove(s: Scenario, moved: Scenario)
    requires s.group == Some("home") && moved.group == Some("away")
    ensures MovedGroups(map["home" := 1], s, moved) == map["home" := 0, "away" := 1]
  {
  }

  lemma RegistryOfFailedMove(active: bool)
    ensures var jobs := LightsJobs(active)["porch" := Job(AT_TWENTY_TWO, "b")];
            var s, renamed := Lights("home", active, AT_SEVEN), Timed("porch", "away", true, AT_SEVEN);
            && SchedulingFails(PermissiveRules(), jobs, s, renamed)
            && RolledBackJobs(PermissiveRules(), jobs, "a", s) == LightsJobs(true)["porch" := Job(AT_TWENTY_TWO, "b")]
  {
    CronOfTimed("lights", "home", active, AT_SEVEN);
    CronOfTimed("porch", "away", true, AT_SEVEN);
  }

  const RESCHEDULED := NO_UPDATE.(group := Some("away"), trigger := Some(Trigger([CronSource(AT_NINETEEN, None)], "1")))

  /** With those counters a good update saves the scenario and stops at the counter, before it replaces the job. */
  lemma StoppedMove(times: DayTimePoints)
    ensures var st := LightsOnly(Lights("home", true, AT_SEVEN), LightsJobs(true), map["home" := 0, "away" := 1]);
            UpdateScenario(PermissiveRules(), st, "a", RESCHEDULED, times, true) ==
            Effect(LightsOnly(Lights("away", true, AT_NINETEEN), LightsJobs(true), map["home" := 0, "away" := 1]),
                   Threw(InvalidGroup))
  {
    var st := LightsOnly(Lights("home", true, AT_SEVEN), LightsJobs(true), map["home" := 0, "away" := 1]);
    assert Assign(Lights("home", true, AT_SEVEN), RESCHEDULED, times) == Lights("away", true, AT_NINETEEN);
    assert Saves(PermissiveRules(), st, "a", RESCHEDULED, times, true);
    assert st.scenarios["a" := Lights("away", true, AT_NINETEEN)] == map["a" := Lights("away", true, AT_NINETEEN)];
  }

  lemma OldJobRemains()
    ensures var st := LightsOnly(Lights("away", true, AT_NINETEEN), LightsJobs(true), map["home" := 0, "away" := 1]);
            !JobsCover(st)
  {
    var st := LightsOnly(Lights("away", true, AT_NINETEEN), LightsJobs(true), map["home" := 0, "away" := 1]);
    CronOfTimed("lights", "away", true, AT_NINETEEN);
    assert st.jobs["lights"].cron == AT_SEVEN && AT_SEVEN != AT_NINETEEN;
    assert "a" in st.scenarios && NeedsJob(st.scenarios["a"]) && !HasJob(st.jobs, "a", st.scenarios["a"]);
  }

  lemma OneMoreStep(rules: Rules, st: Store, op: Operation, ops: seq<Operation>, next: Store, end: Store)
    requires Enabled(st, op) && next == Apply(rules, st, op).store
    requires IsRun(rules, next, ops) && After(rules, next, ops) == end
    ensures IsRun(rules, st, [op] + ops) && After(rules, st, [op] + ops) == end
  {
    assert ([op] + ops)[1..] == ops;
  }

  lemma OneMoreDeletion(rules: Rules, st: Store, g: string, deleteScenarios: Option<bool>, ops: seq<Operation>,
                        next: Store, end: Store)
    requires DeleteGroup(st, g, deleteScenarios).store == next
    requires IsRun(rules, next, ops) && After(rules, next, ops) == end
    ensures IsRun(rules, st, [Delete(g, deleteScenarios)] + ops)
    ensures After(rules, st, [Delete(g, deleteScenarios)] + ops) == end
  {
    OneMoreStep(rules, st, Delete(g, deleteScenarios), ops, next, end);
  }

  lemma OneMoreUpdate(rules: Rules, st: Store, id: string, dto: UpdateDto, times: DayTimePoints, ops: seq<Operation>,
                      next: Store, end: Store)
    requires UpdateScenario(rules, st, id, dto, times, true).store == next
    requires IsRun(rules, next, ops) && After(rules, next, ops) == end
    ensures IsRun(rules, st, [Update(id, dto, times, true)] + ops)
    ensures After(rules, st, [Update(id, dto, times, true)] + ops) == end
  {
    OneMoreStep(rules, st, Update(id, dto, times, true), ops, next, end);
  }

  function RenamingTo(times: DayTimePoints): Operation { Update("a", TO_PORCH, times, true) }

  function Rescheduling(times: DayTimePoints): Operation { Update("a", RESCHEDULED, times, true) }

  lemma RunOfStoppedMove(times: DayTimePoints)
    ensures var st := LightsOnly(Lights("home", true, AT_SEVEN), LightsJobs(true), map["home" := 0, "away" := 1]);
            var end := LightsOnly(Lights("away", true, AT_NINETEEN), LightsJobs(true), map["home" := 0, "away" := 1]);
            var ops := [Rescheduling(times)] + [];
            IsRun(PermissiveRules(), st, ops) && After(PermissiveRules(), st, ops) == end
  {
    StoppedMove(times);
    var st := LightsOnly(Lights("home", true, AT_SEVEN), LightsJobs(true), map["home" := 0, "away" := 1]);
    var end := LightsOnly(Lights("away", true, AT_NINETEEN), LightsJobs(true), map["home" := 0, "away" := 1]);
    OneMoreUpdate(PermissiveRules(), st, "a", RESCHEDULED, times, [], end, end);
  }

  /** Deleting the garden and the failed move, followed by any run. */
  lemma RunOfFailedMove(active: bool, times: DayTimePoints, ops: seq<Operation>, end: Store)
    requires var st := LightsOnly(Lights("home", active, AT_SEVEN), LightsJobs(true), map["home" := 0, "away" := 1]);
             IsRun(PermissiveRules(), st, ops) && After(PermissiveRules(), st, ops) == end
    ensures var all := [DELETE_GARDEN] + ([RenamingTo(times)] + ops);
            IsRun(PermissiveRules(), TwoScenarios(active), all)
              && After(PermissiveRules(), TwoScenarios(active), all) == end
  {
    RunOfRenaming(active, times, ops, end);
    DeletionLeavesJob(active);
    OneMoreDeletion(PermissiveRules(), TwoScenarios(active), "garden", Some(true), [RenamingTo(times)] + ops,
                    LightsOnly(Lights("home", active, AT_SEVEN), LightsJobs(active), map["home" := 1]), end);
  }

  lemma RunOfRenaming(active: bool, times: DayTimePoints, ops: seq<Operation>, end: Store)
    requires var st := LightsOnly(Lights("home", active, AT_SEVEN), LightsJobs(true), map["home" := 0, "away" := 1]);
             IsRun(PermissiveRules(), st, ops) && After(PermissiveRules(), st, ops) == end
    ensures var st := LightsOnly(Lights("home", active, AT_SEVEN), LightsJobs(active), map["home" := 1]);
            var all := [RenamingTo(times)] + ops;
            IsRun(PermissiveRules(), st, all) && After(PermissiveRules(), st, all) == end
  {
    FailedMove(active, times);
    OneMoreUpdate(PermissiveRules(), LightsOnly(Lights("home", active, AT_SEVEN), LightsJobs(active), map["home" := 1]),
                  "a", TO_PORCH, times, ops,
                  LightsOnly(Lights("home", active, AT_SEVEN), LightsJobs(true), map["home" := 0, "away" := 1]), end);
  }

  /**
   * All documents and expressions are valid, jobs and counters exact. A group is deleted with its scenario, whose job
   * stays; the lights are renamed to that name and moved, which fails; and a good update then leaves the active lights
   * with the job of their earlier version.
   */
  lemma FailedMoveBreaksJobs(times: DayTimePoints) returns (rules: Rules, st: Store, ops: seq<Operation>)
    ensures ChecksCron(rules) && Scheduled(rules, st) && CountersAgree(st) && NoStaleJobs(st)
    ensures IsRun(rules, st, ops) && !JobsCover(After(rules, st, ops))
  {
    rules, st := PermissiveRules(), TwoScenarios(true);
    ops := [DELETE_GARDEN] + ([RenamingTo(times)] + ([Rescheduling(times)] + []));
    ExactStart(true);
    RunOfStoppedMove(times);
    var end := LightsOnly(Lights("away", true, AT_NINETEEN), LightsJobs(true), map["home" := 0, "away" := 1]);
    RunOfFailedMove(true, times, [Rescheduling(times)] + [], end);
    OldJobRemains();
  }

  /** The same deletion and the failed update of inactive lights: they stay inactive, but now have a job. */
  lemma FailedActivationLeavesJob(times: DayTimePoints)
    returns (rules: Rules, st: Store, ops: seq<Operation>, id: string)
    ensures ChecksCron(rules) && Scheduled(rules, st) && CountersAgree(st) && NoStaleJobs(st)
    ensures IsRun(rules, st, ops) && id in st.scenarios && st.scenarios[id].name !in st.jobs
    ensures var end := After(rules, st, ops);
            && id in end.scenarios && end.scenarios[id] == st.scenarios[id] && !st.scenarios[id].active
            && st.scenarios[id].name in end.jobs && end.jobs[st.scenarios[id].name].scenarioId == id
  {
    rules, st, id := PermissiveRules(), TwoScenarios(false), "a";
    ops := [DELETE_GARDEN] + ([RenamingTo(times)] + []);
    ExactStart(false);
    var end := LightsOnly(Lights("home", false, AT_SEVEN), LightsJobs(true), map["home" := 0, "away" := 1]);
    RunOfFailedMove(false, times, [], end);
    assert "lights" != "porch";
  }
}
