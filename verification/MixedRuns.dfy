/** Runs of the whole hub: operations on scenarios and groups, scheduled executions, and cascades of device events. */
module MixedRuns {
  import opened Scenarios
  import opened ScenarioStore
  import opened ScenarioInvariants
  import opened Execution
  import opened Cascade
  import ScenarioOutcomes
  import ScenarioRuns

  datatype Activity = Operated(op: Operation) | Fired(id: string) | Cascaded(worlds: seq<World>)

  /** Only stored, active scenarios are executed, and a cascade starts with the store as it is. */
  ghost predicate Possible(env: Setting, st: Store, activity: Activity) {
    match activity
    case Operated(op) => Enabled(st, op)
    case Fired(id) => id in st.scenarios && st.scenarios[id].active
    case Cascaded(ws) => IsCascade(env, ws) && ws[0].progress.store == st
  }

  ghost function After(env: Setting, st: Store, activity: Activity): Store
    requires Possible(env, st, activity)
  {
    match activity
    case Operated(op) => Apply(env.rules, st, op).store
    case Fired(id) => ExecuteScenario(env.rules, Progress(st, [], 0), id, st.scenarios[id]).store
    case Cascaded(ws) => ws[|ws| - 1].progress.store
  }

  ghost predicate IsRun(env: Setting, st: Store, activities: seq<Activity>)
    decreases |activities|
  {
    activities != [] ==>
      Possible(env, st, activities[0]) && IsRun(env, After(env, st, activities[0]), activities[1..])
  }

  ghost function AfterRun(env: Setting, st: Store, activities: seq<Activity>): Store
    requires IsRun(env, st, activities)
    decreases |activities|
  {
    if activities == [] then st else AfterRun(env, After(env, st, activities[0]), activities[1..])
  }

  /** No operation of the run deletes active cron scenarios together with their group. */
  ghost predicate SparesScheduled(env: Setting, st: Store, activities: seq<Activity>)
    requires IsRun(env, st, activities)
    decreases |activities|
  {
    activities != [] ==>
      && (activities[0].Operated? ==> !ScenarioRuns.DeletesScheduled(st, activities[0].op))
      && SparesScheduled(env, After(env, st, activities[0]), activities[1..])
  }

  lemma ActivityKeepsExact(env: Setting, st: Store, activity: Activity)
    requires ScenarioRuns.ChecksCron(env.rules) && Exact(env.rules, st) && Possible(env, st, activity)
    requires activity.Operated? ==> !ScenarioRuns.DeletesScheduled(st, activity.op)
    ensures Exact(env.rules, After(env, st, activity))
  {
    match activity
    case Operated(op) =>
      ScenarioRuns.ExactRegistryNeverFails(env.rules, st, op);
      ScenarioOutcomes.StepIsExact(env.rules, st, op);
    case Fired(id) =>
      ExecutionSpends(env.rules, Progress(st, [], 0), id);
    case Cascaded(ws) =>
      CascadeFollows(env, ws);
  }

  /**
   * Whatever operations, scheduled executions and cascades follow each other: with a schema that accepts only
   * expressions that parse, and no active cron scenario deleted with its group, jobs and counters stay exact.
   */
  lemma {:induction false} MixedRunStaysExact(env: Setting, st: Store, activities: seq<Activity>)
    requires ScenarioRuns.ChecksCron(env.rules) && Exact(env.rules, st)
    requires IsRun(env, st, activities) && SparesScheduled(env, st, activities)
    ensures Exact(env.rules, AfterRun(env, st, activities))
    decreases |activities|
  {
    if activities == [] {
    } else {
      ActivityKeepsExact(env, st, activities[0]);
      MixedRunStaysExact(env, After(env, st, activities[0]), activities[1..]);
    }
  }
}
