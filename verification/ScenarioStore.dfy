/**
 * The scenario collection, the scenario groups and the cron job registry, and the operations that keep them in step
 * (scenarios/scenarios.service.ts, scenarios/scenario-groups.service.ts, scheduler/scheduler.service.ts).
 * Every operation is a function from one store to the next and its outcome; the class below performs it in place.
 */
module ScenarioStore {
  import opened Options
  import opened Scheduler
  import opened Scenarios

  /** What is not decided by the stored data: the document schemas and the cron parser. */
  datatype Rules = Rules(
    name: string -> bool,
    description: string -> bool,
    groupName: string -> bool,
    trigger: Trigger -> bool,
    actions: seq<Action> -> bool,
    cronParses: string -> bool)

  /** A registered job: its expression and the scenario its handler executes. */
  datatype Job = Job(cron: string, scenarioId: string)

  datatype Store = Store(scenarios: map<string, Scenario>, jobs: map<string, Job>, groups: map<string, int>)

  datatype Problem =
    | NotFound | DuplicateName | Rejected | InvalidDocument | InvalidGroup | DuplicateJob | MissingJob
    | SchedulingFailed | GroupInUse | MissingGroup

  datatype Outcome = Done | Threw(problem: Problem)

  datatype Effect = Effect(store: Store, outcome: Outcome)

  /** Document validation goes field by field and checks neither `active` nor `repeatTimes`. */
  predicate SchemaAccepts(rules: Rules, s: Scenario) {
    && rules.name(s.name)
    && (s.description.Some? ==> rules.description(s.description.value))
    && (GroupOf(s).Some? ==> rules.groupName(GroupOf(s).value))
    && rules.trigger(s.trigger)
    && rules.actions(s.actions)
  }

  predicate NameTaken(scenarios: map<string, Scenario>, name: string) {
    exists id :: id in scenarios && scenarios[id].name == name
  }

  // ---------------------------------------------------------------------------------------------
  // Jobs
  // ---------------------------------------------------------------------------------------------

  /** Creating the job throws on a bad expression, registering it on a taken name. */
  function ScheduleJob(rules: Rules, st: Store, name: string, job: Job): Effect {
    if !rules.cronParses(job.cron) then Effect(st, Threw(SchedulingFailed))
    else if name in st.jobs then Effect(st, Threw(DuplicateJob))
    else Effect(st.(jobs := st.jobs[name := job]), Done)
  }

  function UnscheduleJob(st: Store, name: string): Effect {
    if name !in st.jobs then Effect(st, Threw(MissingJob))
    else Effect(st.(jobs := st.jobs - {name}), Done)
  }

  /** Scheduling a scenario, with nothing to undo on failure. */
  function ScheduleScenario(rules: Rules, st: Store, id: string, s: Scenario): Effect {
    if Cron(s).None? then Effect(st, Done)
    else
      var e := ScheduleJob(rules, st, s.name, Job(Cron(s).value, id));
      if e.outcome.Done? then e else Effect(st, Threw(SchedulingFailed))
  }

  // ---------------------------------------------------------------------------------------------
  // Groups
  // ---------------------------------------------------------------------------------------------

  /** Saving a group fails on a negative count or an unacceptable name. */
  function UpsertGroup(rules: Rules, st: Store, name: string, incrementBy: int): Effect {
    if name in st.groups then
      if st.groups[name] + incrementBy < 0 then Effect(st, Threw(InvalidGroup))
      else Effect(st.(groups := st.groups[name := st.groups[name] + incrementBy]), Done)
    else if name == "" || !rules.groupName(name) || incrementBy < 0 then Effect(st, Threw(InvalidGroup))
    else Effect(st.(groups := st.groups[name := incrementBy]), Done)
  }

  function Upsert(rules: Rules, st: Store, group: Option<string>, incrementBy: int): Effect {
    if group == None || group == Some("") then Effect(st, Done)
    else UpsertGroup(rules, st, group.value, incrementBy)
  }

  function SyncGroupOnUpdate(rules: Rules, st: Store, previous: Option<string>, next: Option<string>): Effect {
    if previous == next then Effect(st, Done)
    else
      var e := Upsert(rules, st, previous, -1);
      if e.outcome.Threw? then e else Upsert(rules, e.store, next, 1)
  }

  function CreateGroup(rules: Rules, st: Store, name: string): Effect {
    if name in st.groups then Effect(st, Threw(DuplicateName)) else UpsertGroup(rules, st, name, 0)
  }

  function WithoutGroupMembers(scenarios: map<string, Scenario>, name: string): map<string, Scenario> {
    map id | id in scenarios && scenarios[id].group != Some(name) :: scenarios[id]
  }

  function WithGroupCleared(scenarios: map<string, Scenario>, name: string): map<string, Scenario> {
    map id | id in scenarios ::
      if scenarios[id].group == Some(name) then scenarios[id].(group := None) else scenarios[id]
  }

  /** Reading the count of a missing group throws. */
  function DeleteGroup(st: Store, name: string, deleteScenarios: Option<bool>): Effect {
    if name !in st.groups then Effect(st, Threw(MissingGroup))
    else if st.groups[name] > 0 && deleteScenarios.None? then Effect(st, Threw(GroupInUse))
    else
      var scenarios :=
        if st.groups[name] <= 0 then st.scenarios
        else if deleteScenarios.value then WithoutGroupMembers(st.scenarios, name)
        else WithGroupCleared(st.scenarios, name);
      Effect(st.(scenarios := scenarios, groups := st.groups - {name}), Done)
  }

  // ---------------------------------------------------------------------------------------------
  // Scenarios
  // ---------------------------------------------------------------------------------------------

  function RemoveScenario(rules: Rules, st: Store, id: string): Effect {
    if id !in st.scenarios then Effect(st, Threw(NotFound))
    else
      var s := st.scenarios[id];
      var deleted := st.(scenarios := st.scenarios - {id});
      var e := Upsert(rules, deleted, s.group, -1);
      if e.outcome.Threw? || !s.active then e else UnscheduleJob(e.store, s.name)
  }

  /** `admitted`: the submitted trigger and actions refer to known devices and valid payloads. */
  function AddScenario(rules: Rules, st: Store, id: string, dto: Scenario, times: DayTimePoints, admitted: bool): Effect
    requires id !in st.scenarios
  {
    var s := dto.(trigger := AdjustTrigger(dto.trigger, times));
    if NameTaken(st.scenarios, dto.name) then Effect(st, Threw(DuplicateName))
    else if !admitted then Effect(st, Threw(Rejected))
    else if !SchemaAccepts(rules, s) then Effect(st, Threw(InvalidDocument))
    else
      var e := Upsert(rules, st.(scenarios := st.scenarios[id := s]), s.group, 1);
      if e.outcome.Threw? || !s.active then e
      else
        var scheduled := ScheduleScenario(rules, e.store, id, s);
        if scheduled.outcome.Done? then scheduled
        else
          var removed := RemoveScenario(rules, e.store, id);
          if removed.outcome.Threw? then removed else Effect(removed.store, Threw(SchedulingFailed))
  }

  /** What an update does behind saving the document: groups, the old job, the new job. */
  function Reschedule(rules: Rules, st: Store, id: string, previous: Scenario, current: Scenario): Effect {
    var e := SyncGroupOnUpdate(rules, st, previous.group, current.group);
    if e.outcome.Threw? then e else ReplaceJob(rules, e.store, id, previous, current)
  }

  function ReplaceJob(rules: Rules, st: Store, id: string, previous: Scenario, current: Scenario): Effect {
    var u := if NeedsJob(previous) then UnscheduleJob(st, previous.name) else Effect(st, Done);
    if u.outcome.Threw? || !NeedsJob(current) then u
    else
      var scheduled := ScheduleScenario(rules, u.store, id, current);
      if scheduled.outcome.Done? then scheduled else RollBack(rules, u.store, id, previous, current)
  }

  /** The failure handler: the old fields are written back and the old scenario is scheduled, active or not. */
  function RollBack(rules: Rules, st: Store, id: string, previous: Scenario, current: Scenario): Effect {
    var restored := st.(scenarios := st.scenarios[id := WriteBack(previous, current)]);
    Effect(ScheduleScenario(rules, restored, id, previous).store, Threw(SchedulingFailed))
  }

  /** The update gets past its checks and saves the document. */
  predicate Saves(rules: Rules, st: Store, id: string, dto: UpdateDto, times: DayTimePoints, admitted: bool) {
    && id in st.scenarios && admitted
    && SchemaAccepts(rules, Assign(st.scenarios[id], dto, times))
    && !NameTaken(st.scenarios - {id}, Assign(st.scenarios[id], dto, times).name)
  }

  function UpdateScenario(rules: Rules, st: Store, id: string, dto: UpdateDto, times: DayTimePoints,
                          admitted: bool): Effect
  {
    if id !in st.scenarios then Effect(st, Threw(NotFound))
    else if !admitted then Effect(st, Threw(Rejected))
    else if !Saves(rules, st, id, dto, times, admitted) then Effect(st, Threw(InvalidDocument))
    else
      var previous := st.scenarios[id];
      var current := Assign(previous, dto, times);
      Reschedule(rules, st.(scenarios := st.scenarios[id := current]), id, previous, current)
  }

  /** Scheduling the active ones of the given scenarios in order; the first failure ends the start of the hub. */
  function ScheduleExisting(rules: Rules, st: Store, ids: seq<string>): Effect
    requires forall id :: id in ids ==> id in st.scenarios
    decreases |ids|
  {
    if ids == [] then Effect(st, Done)
    else
      var s := st.scenarios[ids[0]];
      var e := if s.active then ScheduleScenario(rules, st, ids[0], s) else Effect(st, Done);
      if e.outcome.Threw? then e else ScheduleExisting(rules, e.store, ids[1..])
  }

  // ---------------------------------------------------------------------------------------------
  // The services
  // ---------------------------------------------------------------------------------------------

  /** ScenariosService, ScenarioGroupsService and SchedulerService over the collections and the registry they share. */
  class Hub {
    const rules: Rules
    var scenarios: map<string, Scenario>
    var jobs: map<string, Job>
    var groups: map<string, int>

    ghost function State(): Store
      reads this
    {
      Store(scenarios, jobs, groups)
    }

    /** A started process: the collections as found in the database, and no jobs. */
    constructor (rules: Rules, scenarios: map<string, Scenario>, groups: map<string, int>)
      ensures this.rules == rules && State() == Store(scenarios, map[], groups)
    {
      this.rules, this.scenarios, this.groups := rules, scenarios, groups;
      this.jobs := map[];
    }

    method Schedule(name: string, job: Job) returns (outcome: Outcome)
      modifies this
      ensures Effect(State(), outcome) == ScheduleJob(rules, old(State()), name, job)
    {
      if !rules.cronParses(job.cron) {
        return Threw(SchedulingFailed);
      }
      if name in jobs {
        return Threw(DuplicateJob);
      }
      jobs := jobs[name := job];
      return Done;
    }

    method Unschedule(name: string) returns (outcome: Outcome)
      modifies this
      ensures Effect(State(), outcome) == UnscheduleJob(old(State()), name)
    {
      if name !in jobs {
        return Threw(MissingJob);
      }
      jobs := jobs - {name};
      return Done;
    }

    method ScheduleScenarioJob(id: string, s: Scenario) returns (outcome: Outcome)
      modifies this
      ensures Effect(State(), outcome) == ScheduleScenario(rules, old(State()), id, s)
    {
      if Cron(s) == None {
        return Done;
      }
      outcome := Schedule(s.name, Job(Cron(s).value, id));
      if outcome != Done {
        outcome := Threw(SchedulingFailed);
      }
    }

    method UpsertGroupCount(name: string, incrementBy: int) returns (outcome: Outcome)
      modifies this
      ensures Effect(State(), outcome) == UpsertGroup(rules, old(State()), name, incrementBy)
    {
      if name in groups {
        if groups[name] + incrementBy < 0 {
          return Threw(InvalidGroup);
        }
        groups := groups[name := groups[name] + incrementBy];
      } else {
        if name == "" || !rules.groupName(name) || incrementBy < 0 {
          return Threw(InvalidGroup);
        }
        groups := groups[name := incrementBy];
      }
      return Done;
    }

    method SyncGroup(group: Option<string>, incrementBy: int) returns (outcome: Outcome)
      modifies this
      ensures Effect(State(), outcome) == Upsert(rules, old(State()), group, incrementBy)
    {
      if group == None || group == Some("") {
        return Done;
      }
      outcome := UpsertGroupCount(group.value, incrementBy);
    }

    method SyncGroupOnUpdateInPlace(oldGroup: Option<string>, newGroup: Option<string>) returns (outcome: Outcome)
      modifies this
      ensures Effect(State(), outcome) == SyncGroupOnUpdate(rules, old(State()), oldGroup, newGroup)
    {
      if oldGroup == newGroup {
        return Done;
      }
      outcome := SyncGroup(oldGroup, -1);
      if outcome == Done {
        outcome := SyncGroup(newGroup, 1);
      }
    }

    method Create(name: string) returns (outcome: Outcome)
      modifies this
      ensures Effect(State(), outcome) == CreateGroup(rules, old(State()), name)
    {
      if name in groups {
        return Threw(DuplicateName);
      }
      outcome := UpsertGroupCount(name, 0);
    }

    method Delete(name: string, deleteScenarios: Option<bool>) returns (outcome: Outcome)
      modifies this
      ensures Effect(State(), outcome) == DeleteGroup(old(State()), name, deleteScenarios)
    {
      if name !in groups {
        return Threw(MissingGroup);
      }
      if groups[name] > 0 && deleteScenarios == None {
        return Threw(GroupInUse);
      }
      if groups[name] > 0 {
        if deleteScenarios.value {
          scenarios := WithoutGroupMembers(scenarios, name);
        } else {
          scenarios := WithGroupCleared(scenarios, name);
        }
      }
      groups := groups - {name};
      return Done;
    }

    method Remove(id: string) returns (outcome: Outcome)
      modifies this
      ensures Effect(State(), outcome) == RemoveScenario(rules, old(State()), id)
    {
      if id !in scenarios {
        return Threw(NotFound);
      }
      var s := scenarios[id];
      scenarios := scenarios - {id};
      outcome := SyncGroup(s.group, -1);
      if outcome == Done && s.active {
        outcome := Unschedule(s.name);
      }
    }

    method Add(id: string, dto: Scenario, times: DayTimePoints, admitted: bool) returns (outcome: Outcome)
      requires id !in scenarios
      modifies this
      ensures Effect(State(), outcome) == AddScenario(rules, old(State()), id, dto, times, admitted)
    {
      if exists other :: other in scenarios && scenarios[other].name == dto.name {
        return Threw(DuplicateName);
      }
      if !admitted {
        return Threw(Rejected);
      }
      var s := dto.(trigger := AdjustTrigger(dto.trigger, times));
      if !SchemaAccepts(rules, s) {
        return Threw(InvalidDocument);
      }
      scenarios := scenarios[id := s];
      outcome := SyncGroup(s.group, 1);
      if outcome == Done && s.active {
        outcome := ScheduleScenarioJob(id, s);
        if outcome != Done {
          outcome := Remove(id);
          if outcome == Done {
            outcome := Threw(SchedulingFailed);
          }
        }
      }
    }

    method Update(id: string, dto: UpdateDto, times: DayTimePoints, admitted: bool) returns (outcome: Outcome)
      modifies this
      ensures Effect(State(), outcome) == UpdateScenario(rules, old(State()), id, dto, times, admitted)
    {
      if id !in scenarios {
        return Threw(NotFound);
      }
      if !admitted {
        return Threw(Rejected);
      }
      var oldScenario := scenarios[id];
      var current := Assign(oldScenario, dto, times);
      if !SchemaAccepts(rules, current) || NameTaken(scenarios - {id}, current.name) {
        return Threw(InvalidDocument);
      }
      scenarios := scenarios[id := current];
      outcome := SyncGroupOnUpdateInPlace(oldScenario.group, current.group);
      if outcome == Done && NeedsJob(oldScenario) {
        outcome := Unschedule(oldScenario.name);
      }
      if outcome == Done && NeedsJob(current) {
        outcome := ScheduleScenarioJob(id, current);
        if outcome != Done {
          scenarios := scenarios[id := WriteBack(oldScenario, current)];
          var _ := ScheduleScenarioJob(id, oldScenario);
          outcome := Threw(SchedulingFailed);
        }
      }
    }

    /** Run when the hub starts, over the scenarios in the order the database returns them. */
    method OnModuleInit(ids: seq<string>) returns (outcome: Outcome)
      requires forall id :: id in ids ==> id in scenarios
      modifies this
      ensures Effect(State(), outcome) == ScheduleExisting(rules, old(State()), ids)
    {
      for i := 0 to |ids|
        invariant scenarios == old(scenarios)
        invariant ScheduleExisting(rules, State(), ids[i..]) == ScheduleExisting(rules, old(State()), ids)
      {
        assert ids[i..][0] == ids[i] && ids[i..][1..] == ids[i + 1..];
        if scenarios[ids[i]].active {
          outcome := ScheduleScenarioJob(ids[i], scenarios[ids[i]]);
          if outcome != Done {
            return;
          }
        }
      }
      assert ids[|ids|..] == [];
      return Done;
    }
  }
}
