/** What the operations of the scenario store keep, over single steps and over whole runs. */
module ScenarioInvariants {
  import opened Options
  import opened Scheduler
  import opened Scenarios
  import opened ScenarioStore

  // ---------------------------------------------------------------------------------------------
  // The invariants
  // ---------------------------------------------------------------------------------------------

  ghost predicate HasJob(jobs: map<string, Job>, id: string, s: Scenario)
    requires Cron(s).Some?
  {
    s.name in jobs && jobs[s.name] == Job(Cron(s).value, id)
  }

  ghost predicate UniqueNames(scenarios: map<string, Scenario>) {
    forall a, b :: a in scenarios && b in scenarios && scenarios[a].name == scenarios[b].name ==> a == b
  }

  /** Every active cron scenario has a job under its name that carries its expression and executes it. */
  ghost predicate JobsCover(st: Store) {
    forall id :: id in st.scenarios && NeedsJob(st.scenarios[id]) ==> HasJob(st.jobs, id, st.scenarios[id])
  }

  /** No other jobs exist. */
  ghost predicate NoStaleJobs(st: Store) {
    forall name :: name in st.jobs ==>
      var id := st.jobs[name].scenarioId;
      id in st.scenarios && st.scenarios[id].name == name && NeedsJob(st.scenarios[id])
  }

  /** Stored documents passed their schemas, registered jobs have expressions that parse. */
  ghost predicate WellFormed(rules: Rules, st: Store) {
    && UniqueNames(st.scenarios)
    && (forall id :: id in st.scenarios ==> SchemaAccepts(rules, st.scenarios[id]))
    && (forall name :: name in st.jobs ==> rules.cronParses(st.jobs[name].cron))
    && (forall g :: g in st.groups ==> g != "" && st.groups[g] >= 0)
  }

  ghost predicate Scheduled(rules: Rules, st: Store) {
    WellFormed(rules, st) && JobsCover(st)
  }

  function Members(scenarios: map<string, Scenario>, g: string): set<string> {
    set id | id in scenarios && GroupOf(scenarios[id]) == Some(g)
  }

  /** Every group counts the scenarios that name it, and every named group exists. */
  ghost predicate CountersAgree(st: Store) {
    && (forall g :: g in st.groups ==> st.groups[g] == |Members(st.scenarios, g)|)
    && (forall id :: id in st.scenarios && GroupOf(st.scenarios[id]).Some? ==>
        GroupOf(st.scenarios[id]).value in st.groups)
  }

  /** Every active cron scenario has its job, no other jobs exist, and all groups count their scenarios. */
  ghost predicate Exact(rules: Rules, st: Store) {
    Scheduled(rules, st) && CountersAgree(st) && NoStaleJobs(st)
  }

  // ---------------------------------------------------------------------------------------------
  // Operations and runs
  // ---------------------------------------------------------------------------------------------

  datatype Operation =
    | Add(id: string, dto: Scenario, times: DayTimePoints, admitted: bool)
    | Update(id: string, change: UpdateDto, times: DayTimePoints, admitted: bool)
    | Remove(id: string)
    | Create(group: string)
    | Delete(group: string, deleteScenarios: Option<bool>)

  /** New scenarios receive a fresh identifier. */
  ghost predicate Enabled(st: Store, op: Operation) {
    op.Add? ==> op.id !in st.scenarios
  }

  ghost function Apply(rules: Rules, st: Store, op: Operation): Effect
    requires Enabled(st, op)
  {
    match op
    case Add(id, dto, times, admitted) => AddScenario(rules, st, id, dto, times, admitted)
    case Update(id, change, times, admitted) => UpdateScenario(rules, st, id, change, times, admitted)
    case Remove(id) => RemoveScenario(rules, st, id)
    case Create(g) => CreateGroup(rules, st, g)
    case Delete(g, deleteScenarios) => DeleteGroup(st, g, deleteScenarios)
  }

  /** The count of the group a saved update leaves is missing or already 0. */
  ghost predicate CounterUnderflow(st: Store, previous: Option<string>, next: Option<string>) {
    && previous != next && previous.Some? && previous.value != ""
    && (previous.value in st.groups ==> st.groups[previous.value] <= 0)
  }

  ghost predicate Underflows(rules: Rules, st: Store, op: Operation) {
    && op.Update? && Saves(rules, st, op.id, op.change, op.times, op.admitted)
    && CounterUnderflow(st, st.scenarios[op.id].group, Assign(st.scenarios[op.id], op.change, op.times).group)
  }

  // ---------------------------------------------------------------------------------------------
  // Jobs
  // ---------------------------------------------------------------------------------------------

  lemma SyncFailsExactlyOnUnderflow(rules: Rules, st: Store, previous: Option<string>, next: Option<string>)
    requires forall g :: g in st.groups ==> st.groups[g] >= 0
    requires next.Some? && next.value != "" ==> rules.groupName(next.value)
    ensures SyncGroupOnUpdate(rules, st, previous, next).outcome.Threw? <==> CounterUnderflow(st, previous, next)
    ensures SyncGroupOnUpdate(rules, st, previous, next).store.scenarios == st.scenarios
    ensures SyncGroupOnUpdate(rules, st, previous, next).store.jobs == st.jobs
  {
  }

  lemma SavedNames(rules: Rules, st: Store, id: string, dto: UpdateDto, times: DayTimePoints, admitted: bool)
    requires UniqueNames(st.scenarios) && Saves(rules, st, id, dto, times, admitted)
    ensures UniqueNames(st.scenarios[id := Assign(st.scenarios[id], dto, times)])
  {
    var current := Assign(st.scenarios[id], dto, times);
    forall b | b in st.scenarios && b != id
      ensures st.scenarios[b].name != current.name
    {
      assert b in st.scenarios - {id};
    }
  }

  function Unscheduled(jobs: map<string, Job>, previous: Scenario): map<string, Job> {
    if NeedsJob(previous) then jobs - {previous.name} else jobs
  }

  /** A saved update that has to register a job but cannot: a bad expression or a name still in the registry. */
  predicate SchedulingFails(rules: Rules, jobs: map<string, Job>, previous: Scenario, current: Scenario) {
    && NeedsJob(current)
    && (!rules.cronParses(Cron(current).value) || current.name in Unscheduled(jobs, previous))
  }

  /** What is left in the registry by an update whose scheduling failed. */
  function RolledBackJobs(rules: Rules, jobs: map<string, Job>, id: string, previous: Scenario): map<string, Job> {
    if NeedsJob(previous) || Cron(previous).None? || !rules.cronParses(Cron(previous).value) || previous.name in jobs
    then jobs
    else jobs[previous.name := Job(Cron(previous).value, id)]
  }

  function JobsAfterUpdate(rules: Rules, jobs: map<string, Job>, id: string, previous: Scenario,
                           current: Scenario): map<string, Job>
  {
    if SchedulingFails(rules, jobs, previous, current) then RolledBackJobs(rules, jobs, id, previous)
    else if NeedsJob(current) then Unscheduled(jobs, previous)[current.name := Job(Cron(current).value, id)]
    else Unscheduled(jobs, previous)
  }

  /**
   * Replacing the job of a stored scenario, from a registry in which the previous version has its job if it needs one.
   */
  lemma ReplaceJobEffect(rules: Rules, st: Store, id: string, previous: Scenario, current: Scenario)
    requires NeedsJob(previous) ==> HasJob(st.jobs, id, previous) && rules.cronParses(Cron(previous).value)
    requires id in st.scenarios && st.scenarios[id] == current
    ensures var e := ReplaceJob(rules, st, id, previous, current);
            var fails := SchedulingFails(rules, st.jobs, previous, current);
            && e.outcome == (if fails then Threw(SchedulingFailed) else Done)
            && e.store.scenarios == (if fails then st.scenarios[id := WriteBack(previous, current)] else st.scenarios)
            && e.store.groups == st.groups
            && e.store.jobs == JobsAfterUpdate(rules, st.jobs, id, previous, current)
  {
    if NeedsJob(previous) {
      var name := previous.name;
      assert (st.jobs - {name})[name := st.jobs[name]] == st.jobs;
    }
  }

  /**
   * A saved update, given that the counters allow it: unscheduling never meets a missing job, and a failing
   * registration leaves the registry of an active cron scenario as it was.
   */
  lemma RescheduleEffect(rules: Rules, st: Store, id: string, current: Scenario)
    requires Scheduled(rules, st) && id in st.scenarios && SchemaAccepts(rules, current)
    requires !CounterUnderflow(st, st.scenarios[id].group, current.group)
    ensures var previous := st.scenarios[id];
            var e := Reschedule(rules, st.(scenarios := st.scenarios[id := current]), id, previous, current);
            var fails := SchedulingFails(rules, st.jobs, previous, current);
            && e.outcome == (if fails then Threw(SchedulingFailed) else Done)
            && e.store.scenarios == st.scenarios[id := if fails then WriteBack(previous, current) else current]
            && e.store.groups == SyncGroupOnUpdate(rules, st, previous.group, current.group).store.groups
            && e.store.jobs == JobsAfterUpdate(rules, st.jobs, id, previous, current)
  {
    var previous := st.scenarios[id];
    var saved := st.(scenarios := st.scenarios[id := current]);
    var sync := SyncGroupOnUpdate(rules, st, previous.group, current.group);
    SyncFailsExactlyOnUnderflow(rules, st, previous.group, current.group);
    SyncIgnoresScenarios(rules, st, saved.scenarios, previous.group, current.group);
    if NeedsJob(previous) {
      assert HasJob(st.jobs, id, previous);
    }
    var synced := sync.store.(scenarios := saved.scenarios);
    ReplaceJobEffect(rules, synced, id, previous, current);
    assert saved.scenarios[id := WriteBack(previous, current)] == st.scenarios[id := WriteBack(previous, current)];
  }

  lemma SyncIgnoresScenarios(rules: Rules, st: Store, scenarios: map<string, Scenario>, previous: Option<string>,
                             next: Option<string>)
    ensures var e := SyncGroupOnUpdate(rules, st, previous, next);
            SyncGroupOnUpdate(rules, st.(scenarios := scenarios), previous, next)
            == Effect(e.store.(scenarios := scenarios), e.outcome)
  {
    UpsertIgnoresScenarios(rules, st, scenarios, previous, -1);
    UpsertIgnoresScenarios(rules, Upsert(rules, st, previous, -1).store, scenarios, next, 1);
  }

  lemma UpsertIgnoresScenarios(rules: Rules, st: Store, scenarios: map<string, Scenario>, group: Option<string>,
                               step: int)
    ensures var e := Upsert(rules, st, group, step);
            Upsert(rules, st.(scenarios := scenarios), group, step)
              == Effect(e.store.(scenarios := scenarios), e.outcome)
  {
  }

  /** Replacing a scenario's registration keeps every other scenario's job. */
  lemma JobsCoverAfterUpdate(rules: Rules, st: Store, id: string, current: Scenario)
    requires UniqueNames(st.scenarios) && JobsCover(st) && id in st.scenarios
    requires UniqueNames(st.scenarios[id := current])
    requires !SchedulingFails(rules, st.jobs, st.scenarios[id], current)
    ensures var jobs := JobsAfterUpdate(rules, st.jobs, id, st.scenarios[id], current);
            JobsCover(Store(st.scenarios[id := current], jobs, st.groups))
  {
    var scenarios := st.scenarios[id := current];
    var jobs := JobsAfterUpdate(rules, st.jobs, id, st.scenarios[id], current);
    forall b | b in scenarios && NeedsJob(scenarios[b])
      ensures HasJob(jobs, b, scenarios[b])
    {
      if b != id {
        assert scenarios[b] == st.scenarios[b] && HasJob(st.jobs, b, st.scenarios[b]);
        assert scenarios[id] == current;
      }
    }
  }

  lemma JobsCoverAfterRollBack(rules: Rules, st: Store, id: string, current: Scenario)
    requires UniqueNames(st.scenarios) && JobsCover(st) && id in st.scenarios
    ensures var previous := st.scenarios[id];
            var scenarios := st.scenarios[id := WriteBack(previous, current)];
            JobsCover(Store(scenarios, RolledBackJobs(rules, st.jobs, id, previous), st.groups))
              && UniqueNames(scenarios)
  {
    var previous := st.scenarios[id];
    var restored := WriteBack(previous, current);
    var scenarios := st.scenarios[id := restored];
    var jobs := RolledBackJobs(rules, st.jobs, id, previous);
    forall b | b in scenarios && NeedsJob(scenarios[b])
      ensures HasJob(jobs, b, scenarios[b])
    {
      assert HasJob(st.jobs, b, st.scenarios[b]);
    }
  }

  lemma UpdateKeepsScheduled(rules: Rules, st: Store, id: string, dto: UpdateDto, times: DayTimePoints, admitted: bool)
    requires Scheduled(rules, st)
    requires !Underflows(rules, st, Update(id, dto, times, admitted))
    ensures var e := UpdateScenario(rules, st, id, dto, times, admitted);
            Scheduled(rules, e.store) && e.outcome != Threw(MissingJob)
  {
    if Saves(rules, st, id, dto, times, admitted) {
      var previous, current := st.scenarios[id], Assign(st.scenarios[id], dto, times);
      RescheduleEffect(rules, st, id, current);
      SavedNames(rules, st, id, dto, times, admitted);
      SyncKeepsCountsNonNegative(rules, st, previous.group, current.group);
      if SchedulingFails(rules, st.jobs, previous, current) {
        JobsCoverAfterRollBack(rules, st, id, current);
        assert SchemaAccepts(rules, WriteBack(previous, current));
      } else {
        JobsCoverAfterUpdate(rules, st, id, current);
      }
    }
  }

  lemma SyncKeepsCountsNonNegative(rules: Rules, st: Store, previous: Option<string>, next: Option<string>)
    requires forall g :: g in st.groups ==> g != "" && st.groups[g] >= 0
    ensures var groups := SyncGroupOnUpdate(rules, st, previous, next).store.groups;
            forall g :: g in groups ==> g != "" && groups[g] >= 0
  {
  }

  /** The groups after counting one scenario more or less, as far as saving the group succeeds. */
  function Bump(groups: map<string, int>, group: Option<string>, step: int): map<string, int> {
    if group.None? then groups
    else groups[group.value := (if group.value in groups then groups[group.value] else 0) + step]
  }

  lemma UpsertEffect(rules: Rules, st: Store, s: Scenario, step: int)
    requires SchemaAccepts(rules, s)
    requires step >= 0 || (GroupOf(s).Some? ==> GroupOf(s).value in st.groups)
    requires GroupOf(s).Some? && GroupOf(s).value in st.groups ==> st.groups[GroupOf(s).value] + step >= 0
    ensures Upsert(rules, st, s.group, step) == Effect(st.(groups := Bump(st.groups, GroupOf(s), step)), Done)
  {
  }

  /** The group entry a failed creation leaves behind: its count is what it was, or 0. */
  function Touch(groups: map<string, int>, group: Option<string>): map<string, int> {
    Bump(groups, group, 0)
  }

  predicate AddSaves(rules: Rules, st: Store, dto: Scenario, times: DayTimePoints, admitted: bool) {
    && !NameTaken(st.scenarios, dto.name) && admitted
    && SchemaAccepts(rules, dto.(trigger := AdjustTrigger(dto.trigger, times)))
  }

  predicate AddSchedulingFails(rules: Rules, st: Store, s: Scenario) {
    NeedsJob(s) && (!rules.cronParses(Cron(s).value) || s.name in st.jobs)
  }

  /** Creating a scenario: a failed registration removes the scenario again, together with any stale job of its name. */
  lemma AddEffect(rules: Rules, st: Store, id: string, dto: Scenario, times: DayTimePoints, admitted: bool)
    requires WellFormed(rules, st) && id !in st.scenarios && AddSaves(rules, st, dto, times, admitted)
    ensures var s := dto.(trigger := AdjustTrigger(dto.trigger, times));
            var e := AddScenario(rules, st, id, dto, times, admitted);
            if AddSchedulingFails(rules, st, s) then
              && e.outcome == Threw(if s.name in st.jobs then SchedulingFailed else MissingJob)
              && e.store == Store(st.scenarios, st.jobs - {s.name}, Touch(st.groups, GroupOf(s)))
            else
              && e.outcome == Done
              && e.store == Store(
                   st.scenarios[id := s],
                   if NeedsJob(s) then st.jobs[s.name := Job(Cron(s).value, id)] else st.jobs,
                   Bump(st.groups, GroupOf(s), 1))
  {
    var s := dto.(trigger := AdjustTrigger(dto.trigger, times));
    UpsertEffect(rules, st.(scenarios := st.scenarios[id := s]), s, 1);
    if AddSchedulingFails(rules, st, s) {
      RemoveAddedEffect(rules, st, id, s);
    }
  }

  /** Removing an active scenario that was just stored and counted, but not scheduled. */
  lemma RemoveAddedEffect(rules: Rules, st: Store, id: string, s: Scenario)
    requires WellFormed(rules, st) && id !in st.scenarios && SchemaAccepts(rules, s) && s.active
    ensures var counted := Store(st.scenarios[id := s], st.jobs, Bump(st.groups, GroupOf(s), 1));
            RemoveScenario(rules, counted, id)
            == Effect(
                 Store(st.scenarios, st.jobs - {s.name}, Touch(st.groups, GroupOf(s))),
                 if s.name in st.jobs then Done else Threw(MissingJob))
  {
    var groups := Bump(st.groups, GroupOf(s), 1);
    assert st.scenarios[id := s] - {id} == st.scenarios;
    UpsertEffect(rules, Store(st.scenarios, st.jobs, groups), s, -1);
    assert Bump(groups, GroupOf(s), -1) == Touch(st.groups, GroupOf(s));
    assert s.name !in st.jobs ==> st.jobs - {s.name} == st.jobs;
  }

  lemma AddKeepsScheduled(rules: Rules, st: Store, id: string, dto: Scenario, times: DayTimePoints, admitted: bool)
    requires Scheduled(rules, st) && id !in st.scenarios
    ensures Scheduled(rules, AddScenario(rules, st, id, dto, times, admitted).store)
  {
    if AddSaves(rules, st, dto, times, admitted) {
      var s := dto.(trigger := AdjustTrigger(dto.trigger, times));
      AddEffect(rules, st, id, dto, times, admitted);
      JobsCoverUnderNewName(st, id, s);
    }
  }

  /** A job under a name no stored scenario has can come and go. */
  lemma JobsCoverUnderNewName(st: Store, id: string, s: Scenario)
    requires JobsCover(st) && id !in st.scenarios && !NameTaken(st.scenarios, s.name)
    ensures JobsCover(st.(jobs := st.jobs - {s.name}))
    ensures var jobs := if NeedsJob(s) then st.jobs[s.name := Job(Cron(s).value, id)] else st.jobs;
            JobsCover(st.(scenarios := st.scenarios[id := s], jobs := jobs))
  {
    forall b | b in st.scenarios && NeedsJob(st.scenarios[b])
      ensures HasJob(st.jobs, b, st.scenarios[b]) && st.scenarios[b].name != s.name
    {
    }
  }

  lemma RemoveKeepsScheduled(rules: Rules, st: Store, id: string)
    requires Scheduled(rules, st)
    ensures Scheduled(rules, RemoveScenario(rules, st, id).store)
  {
    if id in st.scenarios {
      var e := RemoveScenario(rules, st, id);
      var s := st.scenarios[id];
      assert e.store.scenarios == st.scenarios - {id};
      assert e.store.jobs == st.jobs || e.store.jobs == st.jobs - {s.name};
      forall b | b in e.store.scenarios && NeedsJob(e.store.scenarios[b])
        ensures HasJob(e.store.jobs, b, e.store.scenarios[b])
      {
        assert b in st.scenarios && b != id;
        assert HasJob(st.jobs, b, st.scenarios[b]);
      }
    }
  }

  lemma DeleteKeepsScheduled(rules: Rules, st: Store, name: string, deleteScenarios: Option<bool>)
    requires Scheduled(rules, st)
    ensures Scheduled(rules, DeleteGroup(st, name, deleteScenarios).store)
  {
    var e := DeleteGroup(st, name, deleteScenarios);
    forall b | b in e.store.scenarios
      ensures b in st.scenarios && SchemaAccepts(rules, e.store.scenarios[b])
      ensures e.store.scenarios[b] == st.scenarios[b].(group := e.store.scenarios[b].group)
      ensures NeedsJob(e.store.scenarios[b]) ==> HasJob(e.store.jobs, b, e.store.scenarios[b])
    {
      assert NeedsJob(st.scenarios[b]) ==> HasJob(st.jobs, b, st.scenarios[b]);
    }
  }

  /** Every operation keeps the jobs in step, unless a saved update runs into a counter that cannot go down. */
  lemma StepKeepsScheduled(rules: Rules, st: Store, op: Operation)
    requires Scheduled(rules, st) && Enabled(st, op) && !Underflows(rules, st, op)
    ensures Scheduled(rules, Apply(rules, st, op).store)
    ensures op.Update? ==> Apply(rules, st, op).outcome != Threw(MissingJob)
  {
    match op
    case Add(id, dto, times, admitted) => AddKeepsScheduled(rules, st, id, dto, times, admitted);
    case Update(id, change, times, admitted) => UpdateKeepsScheduled(rules, st, id, change, times, admitted);
    case Remove(id) => RemoveKeepsScheduled(rules, st, id);
    case Create(_) =>
    case Delete(g, deleteScenarios) => DeleteKeepsScheduled(rules, st, g, deleteScenarios);
  }

  /**
   * The exact condition: after an update, every active cron scenario has its job iff the update did not stop between
   * saving the document and rescheduling it, or the saved version happens to need no other job than the one it has.
   */
  lemma UpdateKeepsJobsIff(rules: Rules, st: Store, id: string, dto: UpdateDto, times: DayTimePoints, admitted: bool)
    requires Scheduled(rules, st)
    ensures var op := Update(id, dto, times, admitted);
            JobsCover(Apply(rules, st, op).store) <==>
            (Underflows(rules, st, op) && NeedsJob(Assign(st.scenarios[id], dto, times)) ==>
               HasJob(st.jobs, id, Assign(st.scenarios[id], dto, times)))
  {
    var op := Update(id, dto, times, admitted);
    if Underflows(rules, st, op) {
      var previous, current := st.scenarios[id], Assign(st.scenarios[id], dto, times);
      var saved := st.(scenarios := st.scenarios[id := current]);
      SyncFailsExactlyOnUnderflow(rules, saved, previous.group, current.group);
      var e := Apply(rules, st, op);
      assert e.store.scenarios == saved.scenarios && e.store.jobs == st.jobs;
      assert e.store.scenarios[id] == current;
      forall b | b in st.scenarios && b != id && NeedsJob(st.scenarios[b])
        ensures e.store.scenarios[b] == st.scenarios[b] && HasJob(st.jobs, b, st.scenarios[b])
      {
      }
    } else {
      UpdateKeepsScheduled(rules, st, id, dto, times, admitted);
    }
  }
}
