/**
 * Cascades in which scenarios are not counted down. If none of them can trigger each other in a cycle, cascades are
 * bounded; if states of the devices lead round such a cycle and back, a cascade never has to end.
 */
module CascadeCycles {
  import opened Options
  import opened Values
  import opened Scenarios
  import opened ScenarioStore
  import opened ScenarioInvariants
  import opened Execution
  import opened Cascade
  import opened Chains
  import opened Descent

  // ---------------------------------------------------------------------------------------------
  // Scenarios that trigger each other
  // ---------------------------------------------------------------------------------------------

  const UPDATED := Context(None, None)

  /** Carrying out the request in this state of the devices lets a completed update execute the scenario. */
  ghost predicate EnablesIn(
    env: Setting, devices: map<string, Device>, deviceId: string, controls: Payload, t: Scenario)
  {
    var after := CarriedOut(env, devices, deviceId, controls);
    after.Some? && ShouldExecute(t, after.value, UPDATED)
  }

  ghost predicate Enables(env: Setting, deviceId: string, controls: Payload, t: Scenario) {
    exists devices: map<string, Device> :: EnablesIn(env, devices, deviceId, controls, t)
  }

  /** The action updates a source device of the scenario and leaves it in a state in which the scenario is executed. */
  ghost predicate FeedsBy(env: Setting, a: Action, t: Scenario) {
    && a.controls.Some? && HasSourceFor(t.trigger.sources, a.externalId)
    && Enables(env, a.externalId, a.controls.value, t)
  }

  ghost predicate Feeds(env: Setting, s: Scenario, t: Scenario) {
    exists a :: a in s.actions && FeedsBy(env, a, t)
  }

  /** Each node feeds the next one. */
  ghost predicate IsPath(env: Setting, nodes: map<string, Scenario>, path: seq<string>) {
    && (forall i :: 0 <= i < |path| ==> path[i] in nodes)
    && (forall i, j :: 0 <= i < j < |path| && j == i + 1 ==> Feeds(env, nodes[path[i]], nodes[path[j]]))
  }

  ghost predicate IsCycle(env: Setting, nodes: map<string, Scenario>, path: seq<string>) {
    IsPath(env, nodes, path) && |path| >= 2 && path[0] == path[|path| - 1]
  }

  ghost predicate Acyclic(env: Setting, nodes: map<string, Scenario>) {
    forall path :: !IsCycle(env, nodes, path)
  }

  // ---------------------------------------------------------------------------------------------
  // Without a cycle the scenarios can be put in order
  // ---------------------------------------------------------------------------------------------

  ghost predicate Fed(env: Setting, nodes: map<string, Scenario>, id: string)
    requires id in nodes
  {
    exists other :: other in nodes && Feeds(env, nodes[other], nodes[id])
  }

  /** Walking backwards through nodes that are all fed ends up on a cycle. */
  lemma {:induction false} FindCycle(env: Setting, nodes: map<string, Scenario>, path: seq<string>)
    returns (cycle: seq<string>)
    requires IsPath(env, nodes, path) && path != []
    requires forall id {:trigger Fed(env, nodes, id)} :: id in nodes ==> Fed(env, nodes, id)
    ensures IsCycle(env, nodes, cycle)
    decreases nodes.Keys - (set id | id in path)
  {
    assert Fed(env, nodes, path[0]);
    var before :| before in nodes && Feeds(env, nodes[before], nodes[path[0]]);
    var longer := [before] + path;
    LongerPath(env, nodes, before, path);
    if before in path {
      cycle := ClosedPath(env, nodes, before, path);
    } else {
      Visited(nodes, before, path);
      cycle := FindCycle(env, nodes, longer);
    }
  }

  lemma ClosedPath(env: Setting, nodes: map<string, Scenario>, before: string, path: seq<string>)
    returns (cycle: seq<string>)
    requires before in path && IsPath(env, nodes, [before] + path)
    ensures IsCycle(env, nodes, cycle)
  {
    var i :| 0 <= i < |path| && path[i] == before;
    cycle := ([before] + path)[..i + 2];
  }

  lemma LongerPath(env: Setting, nodes: map<string, Scenario>, before: string, path: seq<string>)
    requires IsPath(env, nodes, path) && path != [] && before in nodes && Feeds(env, nodes[before], nodes[path[0]])
    ensures IsPath(env, nodes, [before] + path)
  {
    var longer := [before] + path;
    forall i, j | 0 <= i < j < |longer| && j == i + 1
      ensures longer[i] in nodes && longer[j] in nodes && Feeds(env, nodes[longer[i]], nodes[longer[j]])
    {
      assert longer[j] == path[i] && (i > 0 ==> longer[i] == path[i - 1]);
    }
  }

  lemma Visited(nodes: map<string, Scenario>, before: string, path: seq<string>)
    requires before in nodes && before !in path
    ensures nodes.Keys - (set id | id in [before] + path) < nodes.Keys - (set id | id in path)
  {
    assert before in [before] + path;
    assert forall id :: id in path ==> id in [before] + path;
    assert before in nodes.Keys - (set id | id in path);
  }

  lemma PartIsAcyclic(env: Setting, nodes: map<string, Scenario>, id: string)
    requires Acyclic(env, nodes)
    ensures Acyclic(env, nodes - {id})
  {
    forall path
      ensures !IsCycle(env, nodes - {id}, path)
    {
      assert IsCycle(env, nodes - {id}, path) ==> IsCycle(env, nodes, path);
    }
  }

  lemma SomeNodeIsNotFed(env: Setting, nodes: map<string, Scenario>) returns (id: string)
    requires Acyclic(env, nodes) && nodes != map[]
    ensures id in nodes && !Fed(env, nodes, id)
  {
    if forall id {:trigger Fed(env, nodes, id)} :: id in nodes ==> Fed(env, nodes, id) {
      var first :| first in nodes;
      var cycle := FindCycle(env, nodes, [first]);
      assert false;
    }
    id :| id in nodes && !Fed(env, nodes, id);
  }

  /** No node feeds itself or one before it. */
  ghost predicate Ordered(env: Setting, nodes: map<string, Scenario>, order: seq<string>) {
    && (forall i, j :: 0 <= i < j < |order| ==> order[i] != order[j])
    && (forall id :: id in nodes <==> id in order)
    && (forall i, j :: 0 <= i <= j < |order| ==> !Feeds(env, nodes[order[j]], nodes[order[i]]))
  }

  lemma {:induction false} AcyclicHasOrder(env: Setting, nodes: map<string, Scenario>) returns (order: seq<string>)
    requires Acyclic(env, nodes)
    ensures Ordered(env, nodes, order)
    decreases |nodes|
  {
    if nodes == map[] {
      order := [];
    } else {
      var id := SomeNodeIsNotFed(env, nodes);
      RemovedIsSmaller(nodes, id);
      PartIsAcyclic(env, nodes, id);
      var rest := AcyclicHasOrder(env, nodes - {id});
      OrderedBehind(env, nodes, id, rest);
      order := [id] + rest;
    }
  }

  lemma OrderedBehind(env: Setting, nodes: map<string, Scenario>, id: string, rest: seq<string>)
    requires id in nodes && !Fed(env, nodes, id) && Ordered(env, nodes - {id}, rest)
    ensures Ordered(env, nodes, [id] + rest)
  {
    var order := [id] + rest;
    forall i, j | 0 <= i <= j < |order|
      ensures order[j] in nodes && order[i] in nodes && !Feeds(env, nodes[order[j]], nodes[order[i]])
    {
      assert j > 0 ==> order[j] == rest[j - 1] && rest[j - 1] in rest;
      assert i > 0 ==> order[i] == rest[i - 1] && rest[i - 1] in rest;
    }
    assert forall other :: other in nodes <==> other == id || other in nodes - {id};
    assert forall other :: other in order <==> other == id || other in rest;
  }

  // ---------------------------------------------------------------------------------------------
  // Counting events
  // ---------------------------------------------------------------------------------------------

  ghost function Count(queue: seq<Event>, f: Event -> bool): nat {
    if queue == [] then 0 else (if f(queue[0]) then 1 else 0) + Count(queue[1..], f)
  }

  lemma {:induction false} CountAppend(a: seq<Event>, b: seq<Event>, f: Event -> bool)
    ensures Count(a + b, f) == Count(a, f) + Count(b, f)
  {
    if a == [] {
      assert a + b == b;
    } else {
      assert (a + b)[1..] == a[1..] + b;
      CountAppend(a[1..], b, f);
    }
  }

  lemma CountWithout(queue: seq<Event>, i: nat, f: Event -> bool)
    requires i < |queue|
    ensures Count(queue, f) == Count(queue[..i] + queue[i + 1..], f) + (if f(queue[i]) then 1 else 0)
  {
    CountAppend(queue[..i], queue[i + 1..], f);
    assert queue == queue[..i] + queue[i..];
    CountAppend(queue[..i], queue[i..], f);
    assert queue[i..][1..] == queue[i + 1..];
  }

  lemma {:induction false} CountWithinWeight(queue: seq<Event>, f: Event -> bool)
    ensures Count(queue, f) <= Weight(queue)
  {
    if queue == [] {
    } else {
      CountWithinWeight(queue[1..], f);
    }
  }

  lemma {:induction false} CountNone(queue: seq<Event>, f: Event -> bool)
    requires forall e :: e in queue ==> !f(e)
    ensures Count(queue, f) == 0
  {
    if queue == [] {
    } else {
      assert queue[0] in queue;
      CountNone(queue[1..], f);
    }
  }

  // ---------------------------------------------------------------------------------------------
  // What each scenario has still to expect
  // ---------------------------------------------------------------------------------------------

  /** The requests that can bring about a state in which the scenario is executed. */
  ghost function Enabling(env: Setting, t: Scenario): Event -> bool {
    (e: Event) => && e.UpdateRequested? && HasSourceFor(t.trigger.sources, e.deviceId)
                  && Enables(env, e.deviceId, e.controls, t)
  }

  /** The completed updates that trigger the scenario. */
  ghost function Triggering(t: Scenario): Event -> bool {
    (e: Event) => && e.UpdateCompleted? && (e.controlsUpdated || e.measurementsUpdated)
                  && HasSourceFor(t.trigger.sources, e.deviceId)
  }

  ghost function Commanding(): Event -> bool { (e: Event) => e.CommandExecuted? }

  /** Triggering events count only while the devices are in a state in which the scenario is executed. */
  ghost function PairOf(env: Setting, t: Scenario, devices: map<string, Device>, queue: seq<Event>): Pair {
    Pair(Count(queue, Enabling(env, t)),
         if ShouldExecute(t, devices, UPDATED) then Count(queue, Triggering(t)) else 0)
  }

  /** The budget and the commands first, then the unlimited scenarios in order. */
  ghost function PairsOf(env: Setting, nodes: map<string, Scenario>, order: seq<string>, w: World): seq<Pair>
    requires forall id :: id in order ==> id in nodes
  {
    [Pair(Budget(w.progress) + Count(w.progress.queue, Commanding()), 0)]
    + seq(|order|, i requires 0 <= i < |order| => PairOf(env, nodes[order[i]], w.devices, w.progress.queue))
  }

  ghost function MeasureOf(env: Setting, nodes: map<string, Scenario>, order: seq<string>, w: World): Measure
    requires forall id :: id in order ==> id in nodes
  {
    Measure(PairsOf(env, nodes, order, w), Weight(w.progress.queue))
  }

  lemma MeasureFits(env: Setting, nodes: map<string, Scenario>, order: seq<string>, w: World)
    requires forall id :: id in order ==> id in nodes
    ensures Fits(MeasureOf(env, nodes, order, w))
  {
    forall i | 0 <= i < |order|
      ensures var pair := PairOf(env, nodes[order[i]], w.devices, w.progress.queue);
              pair.major <= Weight(w.progress.queue) && pair.minor <= Weight(w.progress.queue)
    {
      CountWithinWeight(w.progress.queue, Enabling(env, nodes[order[i]]));
      CountWithinWeight(w.progress.queue, Triggering(nodes[order[i]]));
    }
  }

  /** The conditions of a scenario do not depend on other devices than its sources. */
  lemma {:induction false} ConditionsFrame(sources: seq<TriggerSource>, devices: map<string, Device>, deviceId: string,
                                           device: Device, context: Context)
    requires deviceId in devices && !HasSourceFor(sources, deviceId)
    ensures Conditions(sources, devices[deviceId := device], context) == Conditions(sources, devices, context)
  {
    if sources == [] {
    } else {
      assert sources[0] in sources && forall source :: source in sources[1..] ==> source in sources;
      ConditionsFrame(sources[1..], devices, deviceId, device, context);
    }
  }

  /** Carrying out a request either uses up an enabling one, or it closes or leaves alone what it does not enable. */
  lemma CarryingOutLowers(env: Setting, t: Scenario, devices: map<string, Device>, devices': map<string, Device>,
                          queue: seq<Event>, i: nat)
    requires i < |queue| && queue[i].UpdateRequested?
    requires CarriedOut(env, devices, queue[i].deviceId, queue[i].controls) == Some(devices')
    ensures var queue' := queue[..i] + queue[i + 1..] + [Completion(env, queue[i].deviceId, queue[i].controls)];
            AtMost(PairOf(env, t, devices', queue'), PairOf(env, t, devices, queue))
  {
    var rest, completed := queue[..i] + queue[i + 1..], Completion(env, queue[i].deviceId, queue[i].controls);
    CountWithout(queue, i, Enabling(env, t));
    CountWithout(queue, i, Triggering(t));
    CountAppend(rest, [completed], Enabling(env, t));
    CountAppend(rest, [completed], Triggering(t));
    CountOne(completed, Enabling(env, t));
    CountOne(completed, Triggering(t));
    if !HasSourceFor(t.trigger.sources, queue[i].deviceId) {
      ConditionsFrame(t.trigger.sources, devices, queue[i].deviceId, devices'[queue[i].deviceId], UPDATED);
    } else if !Enables(env, queue[i].deviceId, queue[i].controls, t) {
      assert !EnablesIn(env, devices, queue[i].deviceId, queue[i].controls, t);
    }
  }

  lemma CountOne(e: Event, f: Event -> bool)
    ensures Count([e], f) == if f(e) then 1 else 0
  {
    assert [e][1..] == [];
  }

  /** Taking an event, and adding requests that do not enable the scenario, raises nothing. */
  lemma TakingLowers(env: Setting, t: Scenario, devices: map<string, Device>, queue: seq<Event>, i: nat,
                     emitted: seq<Event>)
    requires i < |queue|
    requires forall e :: e in emitted ==> !Enabling(env, t)(e) && !Triggering(t)(e)
    ensures var queue' := queue[..i] + queue[i + 1..] + emitted;
            && AtMost(PairOf(env, t, devices, queue'), PairOf(env, t, devices, queue))
            && (Triggering(t)(queue[i]) && ShouldExecute(t, devices, UPDATED) ==>
                  Below(PairOf(env, t, devices, queue'), PairOf(env, t, devices, queue)))
  {
    var rest := queue[..i] + queue[i + 1..];
    CountWithout(queue, i, Enabling(env, t));
    CountWithout(queue, i, Triggering(t));
    CountAppend(rest, emitted, Enabling(env, t));
    CountAppend(rest, emitted, Triggering(t));
    CountNone(emitted, Enabling(env, t));
    CountNone(emitted, Triggering(t));
  }

  // ---------------------------------------------------------------------------------------------
  // The requests of the executed scenarios
  // ---------------------------------------------------------------------------------------------

  lemma {:induction false} RequestedBy(actions: seq<Action>, e: Event) returns (a: Action)
    requires e in Requests(actions)
    ensures a in actions && a.controls.Some? && e == UpdateRequested(a.externalId, a.controls.value)
  {
    if actions[0].controls.Some? && e == UpdateRequested(actions[0].externalId, actions[0].controls.value) {
      a := actions[0];
    } else {
      a := RequestedBy(actions[1..], e);
    }
  }

  lemma {:induction false} EmittedBy(devices: map<string, Device>, ids: seq<string>, found: map<string, Scenario>,
                                     context: Context, e: Event)
    returns (id: string)
    requires forall other :: other in ids ==> other in found
    requires e in Emitted(devices, ids, found, context)
    ensures id in ids && ShouldExecute(found[id], devices, context) && e in Requests(found[id].actions)
  {
    if ShouldExecute(found[ids[0]], devices, context) && e in Requests(found[ids[0]].actions) {
      id := ids[0];
    } else {
      id := EmittedBy(devices, ids[1..], found, context, e);
    }
  }

  lemma EnablingIsFed(env: Setting, s: Scenario, t: Scenario, e: Event)
    requires e in Requests(s.actions) && Enabling(env, t)(e)
    ensures Feeds(env, s, t)
  {
    var a := RequestedBy(s.actions, e);
    assert FeedsBy(env, a, t);
  }

  lemma {:induction false} EmittedWithin(devices: map<string, Device>, ids: seq<string>, found: map<string, Scenario>,
                                         context: Context, charged: map<string, Scenario>)
    requires forall i, j :: 0 <= i < j < |ids| ==> ids[i] != ids[j]
    requires forall id :: id in ids ==> id in found && id in charged && charged[id] == found[id]
    ensures Weight(Emitted(devices, ids, found, context)) <= Total(charged, Cost)
    decreases |ids|
  {
    if ids == [] {
    } else {
      var id := ids[0];
      assert id in ids && id !in ids[1..];
      TotalWithout(charged, Cost, id);
      EmittedWithin(devices, ids[1..], found, context, charged - {id});
      WeightAppend(if ShouldExecute(found[id], devices, context) then Requests(found[id].actions) else [],
                   Emitted(devices, ids[1..], found, context));
    }
  }

  // ---------------------------------------------------------------------------------------------
  // Every step descends
  // ---------------------------------------------------------------------------------------------

  /** The nodes are the unlimited scenarios of the world, in an order in which none feeds an earlier one. */
  ghost predicate Placed(env: Setting, nodes: map<string, Scenario>, order: seq<string>, w: World) {
    && Scheduled(env.rules, w.progress.store) && nodes == Unlimited(w.progress.store.scenarios)
    && Ordered(env, nodes, order)
  }

  lemma PairsAt(env: Setting, nodes: map<string, Scenario>, order: seq<string>, w: World, i: nat)
    requires (forall id :: id in order ==> id in nodes) && i < |order|
    ensures order[i] in order
    ensures PairsOf(env, nodes, order, w)[i + 1] == PairOf(env, nodes[order[i]], w.devices, w.progress.queue)
  {
  }

  /** If no pair of a scenario is raised, nor the budget with the commands, a smaller queue is a descent. */
  lemma SizeIsLowered(env: Setting, nodes: map<string, Scenario>, order: seq<string>, w: World, w': World)
    requires forall id :: id in order ==> id in nodes
    requires forall i :: 0 <= i < |order| ==>
               AtMost(PairOf(env, nodes[order[i]], w'.devices, w'.progress.queue),
                      PairOf(env, nodes[order[i]], w.devices, w.progress.queue))
    requires Budget(w'.progress) + Count(w'.progress.queue, Commanding())
             <= Budget(w.progress) + Count(w.progress.queue, Commanding())
    requires Weight(w'.progress.queue) < Weight(w.progress.queue)
    ensures LowersSize(MeasureOf(env, nodes, order, w), MeasureOf(env, nodes, order, w'))
  {
    var m, m' := MeasureOf(env, nodes, order, w), MeasureOf(env, nodes, order, w');
    forall i | 0 <= i < |m.pairs|
      ensures AtMost(m'.pairs[i], m.pairs[i])
    {
      if i > 0 {
        PairsAt(env, nodes, order, w, i - 1);
        PairsAt(env, nodes, order, w', i - 1);
      }
    }
  }

  /** So is lowering the pair of one scenario, whatever happens to those behind it. */
  lemma PairIsLowered(env: Setting, nodes: map<string, Scenario>, order: seq<string>, w: World, w': World, k: nat,
                      grow: nat)
    requires (forall id :: id in order ==> id in nodes) && k < |order|
    requires forall i :: 0 <= i < k ==>
               AtMost(PairOf(env, nodes[order[i]], w'.devices, w'.progress.queue),
                      PairOf(env, nodes[order[i]], w.devices, w.progress.queue))
    requires Below(PairOf(env, nodes[order[k]], w'.devices, w'.progress.queue),
                   PairOf(env, nodes[order[k]], w.devices, w.progress.queue))
    requires Budget(w'.progress) + Count(w'.progress.queue, Commanding())
             <= Budget(w.progress) + Count(w.progress.queue, Commanding())
    requires Weight(w'.progress.queue) <= Weight(w.progress.queue) + grow
    ensures LowersPair(grow, MeasureOf(env, nodes, order, w), MeasureOf(env, nodes, order, w'), k + 1)
  {
    var m, m' := MeasureOf(env, nodes, order, w), MeasureOf(env, nodes, order, w');
    PairsAt(env, nodes, order, w, k);
    PairsAt(env, nodes, order, w', k);
    forall i | 0 <= i < k + 1
      ensures AtMost(m'.pairs[i], m.pairs[i])
    {
      if i > 0 {
        PairsAt(env, nodes, order, w, i - 1);
        PairsAt(env, nodes, order, w', i - 1);
      }
    }
  }

  lemma RequestDescends(env: Setting, nodes: map<string, Scenario>, order: seq<string>, w: World, w': World, i: nat)
    requires (forall id :: id in order ==> id in nodes) && i < |w.progress.queue|
    requires w.progress.queue[i].UpdateRequested? && Step(env, w, w', i)
    ensures LowersSize(MeasureOf(env, nodes, order, w), MeasureOf(env, nodes, order, w'))
  {
    var p := w.progress;
    var rest, e := p.queue[..i] + p.queue[i + 1..], p.queue[i];
    var completed := Completion(env, e.deviceId, e.controls);
    var carried := w'.progress.queue == rest + [completed]
                   && CarriedOut(env, w.devices, e.deviceId, e.controls) == Some(w'.devices);
    WeightWithout(p.queue, i);
    WeightAppend(rest, [completed]);
    assert Weight([completed]) == 1;
    CountWithout(p.queue, i, Commanding());
    CountAppend(rest, [completed], Commanding());
    CountOne(completed, Commanding());
    forall k | 0 <= k < |order|
      ensures AtMost(PairOf(env, nodes[order[k]], w'.devices, w'.progress.queue),
                     PairOf(env, nodes[order[k]], w.devices, p.queue))
    {
      if carried {
        CarryingOutLowers(env, nodes[order[k]], w.devices, w'.devices, p.queue, i);
      } else {
        assert rest + [] == rest;
        TakingLowers(env, nodes[order[k]], w.devices, p.queue, i, []);
      }
    }
    SizeIsLowered(env, nodes, order, w, w');
  }

  /** The position is that of a scenario the event executes. */
  ghost function FiresAt(w: World, ids: seq<string>, order: seq<string>, context: Context): nat -> bool {
    (k: nat) => && k < |order| && order[k] in ids && order[k] in w.progress.store.scenarios
                && ShouldExecute(w.progress.store.scenarios[order[k]], w.devices, context)
  }

  lemma {:induction false} Least(f: nat -> bool, n: nat) returns (k: nat)
    requires f(n)
    ensures f(k) && forall j: nat :: j < k ==> !f(j)
    decreases n
  {
    k := n;
    if j: nat :| j < n && f(j) {
      k := Least(f, j);
    }
  }

  /** Unless a limited scenario is executed, what is emitted comes from executed nodes. */
  lemma EmittedByNode(env: Setting, nodes: map<string, Scenario>, order: seq<string>, w: World, deviceId: string,
                      ids: seq<string>, context: Context, e: Event)
    returns (k: nat)
    requires Placed(env, nodes, order, w) && Triggered(w.progress.store.scenarios, deviceId, ids)
    requires !SomePaid(w.devices, ids, w.progress.store.scenarios, context)
    requires e in Emitted(w.devices, ids, w.progress.store.scenarios, context)
    ensures FiresAt(w, ids, order, context)(k) && e in Requests(nodes[order[k]].actions)
  {
    var scenarios := w.progress.store.scenarios;
    var id := EmittedBy(w.devices, ids, scenarios, context, e);
    assert !Limited(scenarios[id]) && TriggeredBy(scenarios[id], deviceId);
    assert id in nodes && nodes[id] == scenarios[id].(repeatTimes := Unset);
    k :| 0 <= k < |order| && order[k] == id;
  }

  lemma EmittedAreRequests(devices: map<string, Device>, ids: seq<string>, found: map<string, Scenario>,
                           context: Context)
    requires forall id :: id in ids ==> id in found
    ensures forall e :: e in Emitted(devices, ids, found, context) ==> e.UpdateRequested?
  {
    forall e | e in Emitted(devices, ids, found, context)
      ensures e.UpdateRequested?
    {
      var id := EmittedBy(devices, ids, found, context, e);
      var a := RequestedBy(found[id].actions, e);
    }
  }

  /** No scenario before the first executed one, nor that one itself, is enabled by what is emitted. */
  lemma EmittedEnablesNoneBefore(env: Setting, nodes: map<string, Scenario>, order: seq<string>, w: World,
                                 deviceId: string, ids: seq<string>, context: Context, k: nat, j: nat)
    requires Placed(env, nodes, order, w) && Triggered(w.progress.store.scenarios, deviceId, ids)
    requires !SomePaid(w.devices, ids, w.progress.store.scenarios, context)
    requires j <= k < |order| && forall i: nat :: i < k ==> !FiresAt(w, ids, order, context)(i)
    ensures forall e :: e in Emitted(w.devices, ids, w.progress.store.scenarios, context) ==>
              !Enabling(env, nodes[order[j]])(e) && !Triggering(nodes[order[j]])(e)
  {
    EmittedAreRequests(w.devices, ids, w.progress.store.scenarios, context);
    forall e | e in Emitted(w.devices, ids, w.progress.store.scenarios, context)
      ensures !Enabling(env, nodes[order[j]])(e)
    {
      var i := EmittedByNode(env, nodes, order, w, deviceId, ids, context, e);
      if Enabling(env, nodes[order[j]])(e) {
        EnablingIsFed(env, nodes[order[i]], nodes[order[j]], e);
      }
    }
  }

  /** What handling a triggering event comes to: `emitted` behind the rest of the queue. */
  ghost predicate Emits(w: World, w': World, i: nat, emitted: seq<Event>) {
    && i < |w.progress.queue| && w'.devices == w.devices
    && w'.progress.queue == w.progress.queue[..i] + w.progress.queue[i + 1..] + emitted
    && (forall e :: e in emitted ==> e.UpdateRequested?)
    && Budget(w'.progress) <= Budget(w.progress)
  }

  lemma EmissionCounts(w: World, w': World, i: nat, emitted: seq<Event>)
    requires Emits(w, w', i, emitted)
    ensures Weight(w'.progress.queue) + EventWeight(w.progress.queue[i]) == Weight(w.progress.queue) + Weight(emitted)
    ensures Count(w'.progress.queue, Commanding()) + (if w.progress.queue[i].CommandExecuted? then 1 else 0)
            == Count(w.progress.queue, Commanding())
  {
    var rest := w.progress.queue[..i] + w.progress.queue[i + 1..];
    WeightWithout(w.progress.queue, i);
    WeightAppend(rest, emitted);
    CountWithout(w.progress.queue, i, Commanding());
    CountAppend(rest, emitted, Commanding());
    CountNone(emitted, Commanding());
  }

  /** A command, or an execution of a limited scenario, lowers the first pair. */
  lemma FirstPairIsLowered(env: Setting, nodes: map<string, Scenario>, order: seq<string>, w: World, w': World, i: nat,
                           emitted: seq<Event>, grow: nat)
    requires (forall id :: id in order ==> id in nodes) && Emits(w, w', i, emitted) && Weight(emitted) <= grow
    requires w.progress.queue[i].CommandExecuted? || Budget(w'.progress) < Budget(w.progress)
    ensures LowersPair(grow, MeasureOf(env, nodes, order, w), MeasureOf(env, nodes, order, w'), 0)
  {
    EmissionCounts(w, w', i, emitted);
  }

  /** A completed update that executes nodes lowers the pair of the first of them. */
  lemma NodePairIsLowered(env: Setting, nodes: map<string, Scenario>, order: seq<string>, w: World, w': World, i: nat,
                          deviceId: string, ids: seq<string>, k: nat, grow: nat)
    requires Placed(env, nodes, order, w) && Triggered(w.progress.store.scenarios, deviceId, ids)
    requires !SomePaid(w.devices, ids, w.progress.store.scenarios, UPDATED)
    requires Emits(w, w', i, Emitted(w.devices, ids, w.progress.store.scenarios, UPDATED))
    requires Weight(Emitted(w.devices, ids, w.progress.store.scenarios, UPDATED)) <= grow
    requires var e := w.progress.queue[i];
             e.UpdateCompleted? && e.deviceId == deviceId && (e.controlsUpdated || e.measurementsUpdated)
    requires FiresAt(w, ids, order, UPDATED)(k)
    requires forall j: nat :: j < k ==> !FiresAt(w, ids, order, UPDATED)(j)
    ensures LowersPair(grow, MeasureOf(env, nodes, order, w), MeasureOf(env, nodes, order, w'), k + 1)
  {
    var emitted := Emitted(w.devices, ids, w.progress.store.scenarios, UPDATED);
    EmissionCounts(w, w', i, emitted);
    forall j | 0 <= j <= k
      ensures AtMost(PairOf(env, nodes[order[j]], w'.devices, w'.progress.queue),
                     PairOf(env, nodes[order[j]], w.devices, w.progress.queue))
      ensures j == k ==> Below(PairOf(env, nodes[order[j]], w'.devices, w'.progress.queue),
                               PairOf(env, nodes[order[j]], w.devices, w.progress.queue))
    {
      EmittedEnablesNoneBefore(env, nodes, order, w, deviceId, ids, UPDATED, k, j);
      TakingLowers(env, nodes[order[j]], w.devices, w.progress.queue, i, emitted);
      if j == k {
        NodeIsTriggered(w, nodes, order, deviceId, ids, k);
      }
    }
    PairIsLowered(env, nodes, order, w, w', k, grow);
  }

  lemma NodeIsTriggered(w: World, nodes: map<string, Scenario>, order: seq<string>, deviceId: string, ids: seq<string>,
                        k: nat)
    requires nodes == Unlimited(w.progress.store.scenarios) && forall id :: id in order ==> id in nodes
    requires Triggered(w.progress.store.scenarios, deviceId, ids) && FiresAt(w, ids, order, UPDATED)(k)
    ensures HasSourceFor(nodes[order[k]].trigger.sources, deviceId)
    ensures ShouldExecute(nodes[order[k]], w.devices, UPDATED)
  {
    var s := w.progress.store.scenarios[order[k]];
    assert order[k] in order && nodes[order[k]] == s.(repeatTimes := Unset);
    assert TriggeredBy(s, deviceId);
  }

  /** If nothing is executed, the queue is smaller by one event. */
  lemma QuietEventDescends(env: Setting, nodes: map<string, Scenario>, order: seq<string>, w: World, w': World, i: nat)
    requires (forall id :: id in order ==> id in nodes) && Emits(w, w', i, [])
    ensures LowersSize(MeasureOf(env, nodes, order, w), MeasureOf(env, nodes, order, w'))
  {
    EmissionCounts(w, w', i, []);
    forall k | 0 <= k < |order|
      ensures AtMost(PairOf(env, nodes[order[k]], w'.devices, w'.progress.queue),
                     PairOf(env, nodes[order[k]], w.devices, w.progress.queue))
    {
      TakingLowers(env, nodes[order[k]], w.devices, w.progress.queue, i, []);
    }
    SizeIsLowered(env, nodes, order, w, w');
  }

  /** The effect of a triggering event, as far as the measure depends on it. */
  lemma TriggersEmit(env: Setting, w: World, w': World, i: nat, deviceId: string, context: Context)
    returns (ids: seq<string>)
    requires Scheduled(env.rules, w.progress.store) && i < |w.progress.queue| && w'.devices == w.devices
    requires Triggers(env.rules, w.devices, deviceId, context,
                      w.progress.(queue := w.progress.queue[..i] + w.progress.queue[i + 1..]), w'.progress)
    ensures Triggered(w.progress.store.scenarios, deviceId, ids)
    ensures var emitted := Emitted(w.devices, ids, w.progress.store.scenarios, context);
            && Emits(w, w', i, emitted) && Weight(emitted) <= Total(w.progress.store.scenarios, Cost)
            && (SomePaid(w.devices, ids, w.progress.store.scenarios, context)
                ==> Budget(w'.progress) < Budget(w.progress))
  {
    var rest := w.progress.(queue := w.progress.queue[..i] + w.progress.queue[i + 1..]);
    ids := TriggersExecute(env.rules, w.devices, deviceId, context, rest, w'.progress);
    EmittedAreRequests(w.devices, ids, w.progress.store.scenarios, context);
    EmittedWithin(w.devices, ids, w.progress.store.scenarios, context, w.progress.store.scenarios);
  }

  lemma StepDescends(env: Setting, nodes: map<string, Scenario>, order: seq<string>, w: World, w': World, i: nat)
    requires Placed(env, nodes, order, w) && i < |w.progress.queue| && Step(env, w, w', i)
    ensures Descends(Total(w.progress.store.scenarios, Cost), MeasureOf(env, nodes, order, w),
                     MeasureOf(env, nodes, order, w'))
  {
    var grow, e := Total(w.progress.store.scenarios, Cost), w.progress.queue[i];
    if e.UpdateRequested? {
      RequestDescends(env, nodes, order, w, w', i);
    } else if e.CommandExecuted? {
      var ids := TriggersEmit(env, w, w', i, e.deviceId, Context(None, Some(e.commands)));
      FirstPairIsLowered(env, nodes, order, w, w', i,
                         Emitted(w.devices, ids, w.progress.store.scenarios, Context(None, Some(e.commands))), grow);
    } else if !e.controlsUpdated && !e.measurementsUpdated {
      var rest := w.progress.queue[..i] + w.progress.queue[i + 1..];
      assert rest + [] == rest;
      QuietEventDescends(env, nodes, order, w, w', i);
    } else {
      CompletionDescends(env, nodes, order, w, w', i);
    }
  }

  lemma CompletionDescends(env: Setting, nodes: map<string, Scenario>, order: seq<string>, w: World, w': World, i: nat)
    requires Placed(env, nodes, order, w) && i < |w.progress.queue| && Step(env, w, w', i)
    requires var e := w.progress.queue[i]; e.UpdateCompleted? && (e.controlsUpdated || e.measurementsUpdated)
    ensures Descends(Total(w.progress.store.scenarios, Cost), MeasureOf(env, nodes, order, w),
                     MeasureOf(env, nodes, order, w'))
  {
    var grow, deviceId := Total(w.progress.store.scenarios, Cost), w.progress.queue[i].deviceId;
    var ids := TriggersEmit(env, w, w', i, deviceId, UPDATED);
    var emitted := Emitted(w.devices, ids, w.progress.store.scenarios, UPDATED);
    if SomePaid(w.devices, ids, w.progress.store.scenarios, UPDATED) {
      FirstPairIsLowered(env, nodes, order, w, w', i, emitted, grow);
    } else if emitted == [] {
      QuietEventDescends(env, nodes, order, w, w', i);
    } else {
      assert emitted[0] in emitted;
      var n := EmittedByNode(env, nodes, order, w, deviceId, ids, UPDATED, emitted[0]);
      var k := Least(FiresAt(w, ids, order, UPDATED), n);
      NodePairIsLowered(env, nodes, order, w, w', i, deviceId, ids, k, grow);
    }
  }

  // ---------------------------------------------------------------------------------------------
  // Cascades without a cycle are bounded
  // ---------------------------------------------------------------------------------------------

  ghost predicate BoundedBy(env: Setting, w: World, n: nat) {
    forall ws :: IsCascade(env, ws) && ws[0] == w ==> |ws| <= n
  }

  /** The cascades that start here have a greatest length. */
  ghost predicate Bounded(env: Setting, w: World) {
    exists n: nat :: BoundedBy(env, w, n)
  }

  ghost function HeightOf(env: Setting, nodes: map<string, Scenario>, order: seq<string>, grow: nat, w: World): nat
    requires forall id :: id in order ==> id in nodes
  {
    Height(grow, PairsOf(env, nodes, order, w), Weight(w.progress.queue))
  }

  lemma NextLowersHeight(env: Setting, nodes: map<string, Scenario>, order: seq<string>, w: World, w': World)
    requires Placed(env, nodes, order, w) && Next(env, w, w')
    ensures var grow := Total(w.progress.store.scenarios, Cost);
            && Placed(env, nodes, order, w') && Total(w'.progress.store.scenarios, Cost) == grow
            && HeightOf(env, nodes, order, grow, w') < HeightOf(env, nodes, order, grow, w)
  {
    var i: nat :| i < |w.progress.queue| && Step(env, w, w', i);
    NextFollows(env, w, w');
    StepDescends(env, nodes, order, w, w', i);
    MeasureFits(env, nodes, order, w');
    DescentLowersHeight(Total(w.progress.store.scenarios, Cost), MeasureOf(env, nodes, order, w),
                        MeasureOf(env, nodes, order, w'));
  }

  lemma {:induction false} CascadeWithinHeight(env: Setting, nodes: map<string, Scenario>, order: seq<string>,
                                               grow: nat, ws: seq<World>)
    requires IsCascade(env, ws) && Placed(env, nodes, order, ws[0])
    requires grow == Total(ws[0].progress.store.scenarios, Cost)
    ensures |ws| <= 1 + HeightOf(env, nodes, order, grow, ws[0])
    decreases |ws|
  {
    if |ws| == 1 {
    } else {
      RestOfChain(NextIn(env), ws);
      NextLowersHeight(env, nodes, order, ws[0], ws[1]);
      CascadeWithinHeight(env, nodes, order, grow, ws[1..]);
    }
  }

  /**
   * If no scenarios that are not counted down trigger each other in a cycle, the cascades from any queue and any state
   * of the devices have a greatest length.
   */
  lemma AcyclicIsBounded(env: Setting, w: World)
    requires Scheduled(env.rules, w.progress.store) && Acyclic(env, Unlimited(w.progress.store.scenarios))
    ensures Bounded(env, w)
  {
    var nodes, grow := Unlimited(w.progress.store.scenarios), Total(w.progress.store.scenarios, Cost);
    var order := AcyclicHasOrder(env, nodes);
    var n := 1 + HeightOf(env, nodes, order, grow, w);
    forall ws | IsCascade(env, ws) && ws[0] == w
      ensures |ws| <= n
    {
      CascadeWithinHeight(env, nodes, order, grow, ws);
    }
    assert BoundedBy(env, w, n);
  }

  // ---------------------------------------------------------------------------------------------
  // Round and round: a cascade that never has to end
  // ---------------------------------------------------------------------------------------------

  /** A scenario and the state of the devices in which it is executed. */
  datatype Stop = Stop(id: string, devices: map<string, Device>)

  /** Carrying out the action of the first scenario leads from the first state to the second and triggers the second. */
  ghost predicate LeadsBy(env: Setting, nodes: map<string, Scenario>, first: Stop, second: Stop, a: Action)
    requires first.id in nodes && second.id in nodes
  {
    && a in nodes[first.id].actions && a.controls.Some? && ControlsUpdated(env, a.externalId, a.controls.value)
    && HasSourceFor(nodes[second.id].trigger.sources, a.externalId)
    && CarriedOut(env, first.devices, a.externalId, a.controls.value) == Some(second.devices)
  }

  ghost predicate Leads(env: Setting, nodes: map<string, Scenario>, first: Stop, second: Stop)
    requires first.id in nodes && second.id in nodes
  {
    exists a :: LeadsBy(env, nodes, first, second, a)
  }

  /** Each scenario is executed in its state, each leads to the next one, and the last stop is the first. */
  ghost predicate IsLoop(env: Setting, nodes: map<string, Scenario>, stops: seq<Stop>) {
    && |stops| >= 2 && stops[0] == stops[|stops| - 1]
    && (forall i :: 0 <= i < |stops| ==>
          stops[i].id in nodes && ShouldExecute(nodes[stops[i].id], stops[i].devices, UPDATED))
    && (forall i, j :: 0 <= i < j < |stops| && j == i + 1 ==> Leads(env, nodes, stops[i], stops[j]))
  }

  /** A loop is a cycle that can be gone round: the two conditions do not contradict each other. */
  lemma LoopIsCycle(env: Setting, nodes: map<string, Scenario>, stops: seq<Stop>) returns (path: seq<string>)
    requires IsLoop(env, nodes, stops)
    ensures IsCycle(env, nodes, path)
  {
    path := seq(|stops|, i requires 0 <= i < |stops| => stops[i].id);
    forall i, j | 0 <= i < j < |path| && j == i + 1
      ensures Feeds(env, nodes[path[i]], nodes[path[j]])
    {
      LeadsFeeds(env, nodes, stops[i], stops[j]);
    }
  }

  lemma LeadsFeeds(env: Setting, nodes: map<string, Scenario>, first: Stop, second: Stop)
    requires first.id in nodes && second.id in nodes && Leads(env, nodes, first, second)
    requires ShouldExecute(nodes[second.id], second.devices, UPDATED)
    ensures Feeds(env, nodes[first.id], nodes[second.id])
  {
    var a :| LeadsBy(env, nodes, first, second, a);
    assert EnablesIn(env, first.devices, a.externalId, a.controls.value, nodes[second.id]);
    assert FeedsBy(env, a, nodes[second.id]);
  }

  lemma {:induction false} ActionIsRequested(actions: seq<Action>, a: Action)
    requires a in actions && a.controls.Some?
    ensures UpdateRequested(a.externalId, a.controls.value) in Requests(actions)
  {
    if actions[0] == a {
      assert Requests(actions)[0] == UpdateRequested(a.externalId, a.controls.value);
    } else {
      ActionIsRequested(actions[1..], a);
    }
  }

  lemma {:induction false} Enumerate(ids: set<string>) returns (list: seq<string>)
    ensures forall i, j :: 0 <= i < j < |list| ==> list[i] != list[j]
    ensures forall id :: id in list <==> id in ids
    decreases ids
  {
    if ids == {} {
      list := [];
    } else {
      var id :| id in ids;
      var rest := Enumerate(ids - {id});
      list := [id] + rest;
    }
  }

  lemma {:induction false} EmitsOf(devices: map<string, Device>, ids: seq<string>, found: map<string, Scenario>,
                                   context: Context, id: string, e: Event)
    requires forall other :: other in ids ==> other in found
    requires id in ids && ShouldExecute(found[id], devices, context) && e in Requests(found[id].actions)
    ensures e in Emitted(devices, ids, found, context)
  {
    if ids[0] == id {
    } else {
      EmitsOf(devices, ids[1..], found, context, id, e);
    }
  }

  /** Executing a list of scenarios counts those that are executed. */
  lemma {:induction false} ExecutionIsCounted(rules: Rules, p: Progress, devices: map<string, Device>,
                                              ids: seq<string>, found: map<string, Scenario>, context: Context)
    requires forall id :: id in ids ==> id in found
    ensures p.executed <= ExecuteAll(rules, p, devices, ids, found, context).executed
    ensures (exists id :: id in ids && ShouldExecute(found[id], devices, context)) ==>
              p.executed < ExecuteAll(rules, p, devices, ids, found, context).executed
    decreases |ids|
  {
    if ids == [] {
    } else {
      ExecutionIsCounted(rules, Execute(rules, p, devices, ids[0], found[ids[0]], context), devices, ids[1..], found,
                         context);
      assert forall id :: id in ids <==> id == ids[0] || id in ids[1..];
    }
  }

  /** A request in the queue that is accepted can be carried out next. */
  lemma CarryOut(env: Setting, w: World, deviceId: string, controls: Payload) returns (mid: World)
    requires UpdateRequested(deviceId, controls) in w.progress.queue
    requires CarriedOut(env, w.devices, deviceId, controls).Some? && ControlsUpdated(env, deviceId, controls)
    ensures Next(env, w, mid) && Some(mid.devices) == CarriedOut(env, w.devices, deviceId, controls)
    ensures mid.progress.store == w.progress.store && mid.progress.executed == w.progress.executed
    ensures UpdateCompleted(deviceId, true, false) in mid.progress.queue
  {
    var p := w.progress;
    var i :| 0 <= i < |p.queue| && p.queue[i] == UpdateRequested(deviceId, controls);
    var rest := p.(queue := p.queue[..i] + p.queue[i + 1..]);
    var queue := rest.queue + [UpdateCompleted(deviceId, true, false)];
    mid := World(rest.(queue := queue), CarriedOut(env, w.devices, deviceId, controls).value);
    assert queue[|rest.queue|] == UpdateCompleted(deviceId, true, false);
    assert Step(env, w, mid, i);
  }

  /** A completed update in the queue can be handled next, and executes a node on its device that is executed here. */
  lemma Complete(env: Setting, w: World, deviceId: string, id: string) returns (next: World)
    requires Scheduled(env.rules, w.progress.store) && UpdateCompleted(deviceId, true, false) in w.progress.queue
    requires id in w.progress.store.scenarios && TriggeredBy(w.progress.store.scenarios[id], deviceId)
    requires ShouldExecute(w.progress.store.scenarios[id], w.devices, UPDATED)
    ensures Next(env, w, next) && next.devices == w.devices && next.progress.executed >= w.progress.executed + 1
    ensures forall e :: e in Requests(w.progress.store.scenarios[id].actions) ==> e in next.progress.queue
  {
    var p, scenarios := w.progress, w.progress.store.scenarios;
    var i :| 0 <= i < |p.queue| && p.queue[i] == UpdateCompleted(deviceId, true, false);
    var rest := p.(queue := p.queue[..i] + p.queue[i + 1..]);
    var ids := Enumerate(set other | other in scenarios && TriggeredBy(scenarios[other], deviceId));
    assert Triggered(scenarios, deviceId, ids);
    var p' := ExecuteAll(env.rules, rest, w.devices, ids, scenarios, UPDATED);
    assert Triggers(env.rules, w.devices, deviceId, UPDATED, rest, p');
    next := World(p', w.devices);
    assert Step(env, w, next, i);
    ExecutionIsCounted(env.rules, rest, w.devices, ids, scenarios, UPDATED);
    AllExecutions(env.rules, rest, w.devices, deviceId, ids, scenarios, UPDATED);
    forall e | e in Requests(scenarios[id].actions)
      ensures e in next.progress.queue
    {
      EmitsOf(w.devices, ids, scenarios, UPDATED, id, e);
    }
  }

  /** The devices are in the state of stop `j`, and a request that leads to the next stop is pending. */
  ghost predicate OnLoop(env: Setting, stops: seq<Stop>, w: World, j: nat) {
    var nodes := Unlimited(w.progress.store.scenarios);
    && Scheduled(env.rules, w.progress.store) && IsLoop(env, nodes, stops)
    && j + 1 < |stops| && w.devices == stops[j].devices
    && exists a :: LeadsBy(env, nodes, stops[j], stops[j + 1], a)
                && UpdateRequested(a.externalId, a.controls.value) in w.progress.queue
  }

  /** Two steps from one stop of the loop to the next. */
  lemma NextStop(env: Setting, stops: seq<Stop>, w: World, j: nat) returns (mid: World, next: World, k: nat)
    requires OnLoop(env, stops, w, j)
    ensures Next(env, w, mid) && Next(env, mid, next) && OnLoop(env, stops, next, k)
    ensures next.progress.executed >= w.progress.executed + 1
  {
    var nodes := Unlimited(w.progress.store.scenarios);
    var a :| LeadsBy(env, nodes, stops[j], stops[j + 1], a)
          && UpdateRequested(a.externalId, a.controls.value) in w.progress.queue;
    mid := CarryOut(env, w, a.externalId, a.controls.value);
    assert stops[j + 1].id in nodes && ShouldExecute(nodes[stops[j + 1].id], mid.devices, UPDATED);
    NodeIsStored(w.progress.store.scenarios, stops[j + 1].id, a.externalId, mid.devices);
    next := Complete(env, mid, a.externalId, stops[j + 1].id);
    NextFollows(env, mid, next);
    k := if j + 2 < |stops| then j + 1 else 0;
    assert stops[k] == stops[j + 1];
    NextIsRequested(env, nodes, stops, k, next.progress.queue);
  }

  lemma NodeIsStored(scenarios: map<string, Scenario>, id: string, deviceId: string, devices: map<string, Device>)
    requires id in Unlimited(scenarios) && HasSourceFor(Unlimited(scenarios)[id].trigger.sources, deviceId)
    requires ShouldExecute(Unlimited(scenarios)[id], devices, UPDATED)
    ensures id in scenarios && TriggeredBy(scenarios[id], deviceId) && ShouldExecute(scenarios[id], devices, UPDATED)
    ensures scenarios[id].actions == Unlimited(scenarios)[id].actions
  {
  }

  lemma NextIsRequested(env: Setting, nodes: map<string, Scenario>, stops: seq<Stop>, k: nat, queue: seq<Event>)
    requires IsLoop(env, nodes, stops) && k + 1 < |stops|
    requires forall e :: e in Requests(nodes[stops[k].id].actions) ==> e in queue
    ensures exists a :: LeadsBy(env, nodes, stops[k], stops[k + 1], a)
                     && UpdateRequested(a.externalId, a.controls.value) in queue
  {
    assert Leads(env, nodes, stops[k], stops[k + 1]);
    var a :| LeadsBy(env, nodes, stops[k], stops[k + 1], a);
    ActionIsRequested(nodes[stops[k].id].actions, a);
  }

  function ExecutedIn(): World -> int { (w: World) => w.progress.executed }

  ghost function SomewhereOn(env: Setting, stops: seq<Stop>): World -> bool {
    w => exists j: nat :: OnLoop(env, stops, w, j)
  }

  lemma LoopRecurs(env: Setting, stops: seq<Stop>, w: World)
    requires SomewhereOn(env, stops)(w)
    ensures Recurs(NextIn(env), ExecutedIn(), SomewhereOn(env, stops), w)
  {
    var j: nat :| OnLoop(env, stops, w, j);
    var mid, next, k := NextStop(env, stops, w, j);
    assert IsRound(NextIn(env), ExecutedIn(), w, mid, next);
  }

  lemma LoopAlwaysRecurs(env: Setting, stops: seq<Stop>)
    ensures forall w {:trigger Recurs(NextIn(env), ExecutedIn(), SomewhereOn(env, stops), w)} ::
              SomewhereOn(env, stops)(w) ==> Recurs(NextIn(env), ExecutedIn(), SomewhereOn(env, stops), w)
  {
    forall w {:trigger Recurs(NextIn(env), ExecutedIn(), SomewhereOn(env, stops), w)} | SomewhereOn(env, stops)(w)
      ensures Recurs(NextIn(env), ExecutedIn(), SomewhereOn(env, stops), w)
    {
      LoopRecurs(env, stops, w);
    }
  }

  /** Some cascade that starts here executes at least `n` scenarios. */
  ghost predicate CanExecute(env: Setting, w: World, n: nat) {
    exists ws: seq<World> :: IsCascade(env, ws) && ws[0] == w && |ws| > n
                          && ws[|ws| - 1].progress.executed >= w.progress.executed + n
  }

  /** From any stop of a loop, with the request to the next one pending, cascades execute any number of scenarios. */
  lemma LoopIsEndless(env: Setting, stops: seq<Stop>, w: World, j: nat, n: nat)
    requires OnLoop(env, stops, w, j)
    ensures CanExecute(env, w, n) && !BoundedBy(env, w, n)
  {
    LoopAlwaysRecurs(env, stops);
    assert SomewhereOn(env, stops)(w);
    RecurringRounds(NextIn(env), ExecutedIn(), SomewhereOn(env, stops), w, n + 1);
    var ws := RoundsAreChain(NextIn(env), ExecutedIn(), w, n + 1);
    assert IsCascade(env, ws) && ws[0] == w && |ws| > n;
  }
}
