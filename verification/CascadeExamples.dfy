/** A lamp that is kept on for ever, one that is switched on once, and two devices between the two conditions. */
module CascadeExamples {
  import opened Options
  import opened Values
  import opened Scenarios
  import opened ScenarioStore
  import opened ScenarioInvariants
  import opened Execution
  import opened Cascade
  import opened CascadeCycles
  import DeviceConfigs
  import DevicePayloads
  import TriggerText

  const ON: Payload := map["on" := Boolean(true)]
  const OFF: Payload := map["on" := Boolean(false)]

  function When(deviceId: string, controls: Payload): TriggerSource {
    DeviceSource(deviceId, Some(controls), None, None)
  }

  /** An active scenario that is not counted down and switches on one device. */
  function Switching(sources: seq<TriggerSource>, logic: string, deviceId: string): Scenario {
    Scenario("switch", None, None, true, Unset, Trigger(sources, logic), [Action(deviceId, Some(ON))])
  }

  /** When the lamp is on, switch it on. */
  const KEEP_ON := Switching([When("lamp", ON)], "1", "lamp")

  /** When the lamp is off, switch it on. */
  const SWITCH_ON := Switching([When("lamp", OFF)], "1", "lamp")

  ghost predicate IsOn(devices: map<string, Device>, deviceId: string, flag: bool) {
    && deviceId in devices && devices[deviceId].controls.Some?
    && Field(devices[deviceId].controls.value, "on") == Boolean(flag)
  }

  lemma WhenMet(deviceId: string, flag: bool, devices: map<string, Device>)
    requires deviceId in devices
    ensures Condition(When(deviceId, map["on" := Boolean(flag)]), devices, UPDATED) <==> IsOn(devices, deviceId, flag)
  {
    assert "on" in map["on" := Boolean(flag)];
  }

  lemma SwitchingOnOne(deviceId: string, flag: bool, target: string, devices: map<string, Device>)
    ensures var s := Switching([When(deviceId, map["on" := Boolean(flag)])], "1", target);
            ShouldExecute(s, devices, UPDATED) <==> IsOn(devices, deviceId, flag)
  {
    var source := When(deviceId, map["on" := Boolean(flag)]);
    assert [source][1..] == [] && Conditions([], devices, UPDATED) == Some([]);
    if deviceId in devices {
      WhenMet(deviceId, flag, devices);
      TriggerText.SingleCondition(Condition(source, devices, UPDATED));
      assert [Condition(source, devices, UPDATED)] + [] == [Condition(source, devices, UPDATED)];
      assert Conditions([source], devices, UPDATED) == Some([Condition(source, devices, UPDATED)]);
    } else {
      assert Conditions([source], devices, UPDATED) == None;
    }
  }

  lemma SwitchingFeatures(sources: seq<TriggerSource>, logic: string, deviceId: string)
    requires sources != [] && sources[0].DeviceSource?
    ensures var s := Switching(sources, logic, deviceId);
            && DeviceTriggered(s) && !Limited(s) && s.(repeatTimes := Unset) == s
            && (forall a :: a in s.actions <==> a == Action(deviceId, Some(ON)))
  {
    assert sources[0] in sources;
  }

  // ---------------------------------------------------------------------------------------------
  // Kept on for ever
  // ---------------------------------------------------------------------------------------------

  /** Brands and configurations that object to nothing. */
  function PermissiveSetting(rules: Rules, rt: DeviceConfigs.Runtime): Setting {
    Setting(rules, rt, _ => DevicePayloads.Brand(_ => true, _ => true), _ => None)
  }

  const LAMP_ON: map<string, Device> := map["lamp" := Device(Some(ON), None)]

  lemma SwitchingOnAgain(env: Setting, rules: Rules, rt: DeviceConfigs.Runtime)
    requires env == PermissiveSetting(rules, rt)
    ensures CarriedOut(env, LAMP_ON, "lamp", ON) == Some(LAMP_ON) && ControlsUpdated(env, "lamp", ON)
  {
    assert "on" != DevicePayloads.PayloadValidator.OVERRIDE;
    assert ON - {DevicePayloads.PayloadValidator.OVERRIDE} == ON && ON + ON == ON && "on" in ON;
    assert LAMP_ON["lamp" := Device(Some(ON), None)] == LAMP_ON;
  }

  lemma KeptOnIsScheduled(rules: Rules, nodes: map<string, Scenario>)
    requires SchemaAccepts(rules, KEEP_ON) && nodes == map["id" := KEEP_ON]
    ensures Scheduled(rules, Store(nodes, map[], map[])) && Unlimited(nodes) == nodes
  {
    var sources := [When("lamp", ON)];
    assert sources[1..] == [] && CronOf(sources[1..]) == None && CronOf(sources) == None;
    SwitchingFeatures(sources, "1", "lamp");
  }

  lemma KeptOnLoops(env: Setting, rules: Rules, rt: DeviceConfigs.Runtime, nodes: map<string, Scenario>)
    requires env == PermissiveSetting(rules, rt) && nodes == map["id" := KEEP_ON]
    ensures var stop := Stop("id", LAMP_ON);
            LeadsBy(env, nodes, stop, stop, Action("lamp", Some(ON))) && IsLoop(env, nodes, [stop, stop])
  {
    var sources, stop := [When("lamp", ON)], Stop("id", LAMP_ON);
    SwitchingFeatures(sources, "1", "lamp");
    SwitchingOnOne("lamp", true, "lamp", LAMP_ON);
    SwitchingOnAgain(env, rules, rt);
    assert "on" in ON && sources[0] in sources && HasSourceFor(sources, "lamp");
    assert LeadsBy(env, nodes, stop, stop, Action("lamp", Some(ON)));
  }

  /** One request for a lamp that is on is followed by as many executions as one likes. */
  lemma KeptOnIsEndless(rules: Rules, rt: DeviceConfigs.Runtime, executed: nat, n: nat)
    requires SchemaAccepts(rules, KEEP_ON)
    ensures var st := Store(map["id" := KEEP_ON], map[], map[]);
            var p := Progress(st, [UpdateRequested("lamp", ON)], executed);
            CanExecute(PermissiveSetting(rules, rt), World(p, LAMP_ON), n)
  {
    var env, nodes := PermissiveSetting(rules, rt), map["id" := KEEP_ON];
    var w := World(Progress(Store(nodes, map[], map[]), [UpdateRequested("lamp", ON)], executed), LAMP_ON);
    var stop, a := Stop("id", LAMP_ON), Action("lamp", Some(ON));
    KeptOnIsScheduled(rules, nodes);
    KeptOnLoops(env, rules, rt, nodes);
    assert LeadsBy(env, nodes, stop, stop, a);
    assert w.progress.queue[0] == UpdateRequested("lamp", ON);
    assert OnLoop(env, [stop, stop], w, 0);
    LoopIsEndless(env, [stop, stop], w, 0, n);
  }

  // ---------------------------------------------------------------------------------------------
  // Switched on once
  // ---------------------------------------------------------------------------------------------

  /** The merged controls falsify the condition: whatever the devices and their configurations, this comes to an end. */
  lemma SwitchedOnIsBounded(env: Setting, w: World, id: string)
    requires Scheduled(env.rules, w.progress.store) && w.progress.store.scenarios == map[id := SWITCH_ON]
    ensures Bounded(env, w)
  {
    var nodes := Unlimited(w.progress.store.scenarios);
    SwitchingFeatures([When("lamp", OFF)], "1", "lamp");
    forall path | IsCycle(env, nodes, path)
      ensures false
    {
      assert path[0] in nodes && path[1] in nodes && Feeds(env, nodes[path[0]], nodes[path[1]]);
      SwitchOnDoesNotFeedItself(env);
    }
    AcyclicIsBounded(env, w);
  }

  lemma SwitchOnDoesNotFeedItself(env: Setting)
    ensures !Feeds(env, SWITCH_ON, SWITCH_ON)
  {
    SwitchingFeatures([When("lamp", OFF)], "1", "lamp");
    forall devices: map<string, Device>
      ensures !EnablesIn(env, devices, "lamp", ON, SWITCH_ON)
    {
      if CarriedOut(env, devices, "lamp", ON).Some? {
        var after := CarriedOut(env, devices, "lamp", ON).value;
        assert "on" in ON && "on" != DevicePayloads.PayloadValidator.OVERRIDE;
        CarryingOutSets(env, devices, "lamp", ON, "on");
        SwitchingOnOne("lamp", false, "lamp", after);
      }
    }
  }

  // ---------------------------------------------------------------------------------------------
  // Between the two conditions
  // ---------------------------------------------------------------------------------------------

  /** When the lamp is on and the plug is off, switch on the plug; when the plug is on, switch on the lamp. */
  const LAMP_TO_PLUG := Switching([When("lamp", ON), When("plug", OFF)], "1 AND 2", "plug")
  const PLUG_TO_LAMP := Switching([When("plug", ON)], "1", "lamp")

  function TwoSwitches(): map<string, Scenario> { map["first" := LAMP_TO_PLUG, "second" := PLUG_TO_LAMP] }

  lemma LampToPlugExecuted(devices: map<string, Device>)
    ensures ShouldExecute(LAMP_TO_PLUG, devices, UPDATED)
            <==> IsOn(devices, "lamp", true) && IsOn(devices, "plug", false)
  {
    var lamp, plug := When("lamp", ON), When("plug", OFF);
    assert [lamp, plug][1..] == [plug] && [plug][1..] == [] && Conditions([], devices, UPDATED) == Some([]);
    if "lamp" in devices && "plug" in devices {
      WhenMet("lamp", true, devices);
      WhenMet("plug", false, devices);
      var first, second := Condition(lamp, devices, UPDATED), Condition(plug, devices, UPDATED);
      assert [second] + [] == [second] && Conditions([plug], devices, UPDATED) == Some([second]);
      assert [first] + [second] == [first, second];
      assert Conditions([lamp, plug], devices, UPDATED) == Some([first, second]);
      TriggerText.BothConditions(first, second);
    } else if "lamp" in devices {
      assert Conditions([plug], devices, UPDATED) == None;
    }
  }

  lemma SourcesOfSwitches(deviceId: string)
    ensures HasSourceFor(LAMP_TO_PLUG.trigger.sources, deviceId) <==> deviceId == "lamp" || deviceId == "plug"
    ensures HasSourceFor(PLUG_TO_LAMP.trigger.sources, deviceId) <==> deviceId == "plug"
  {
    assert LAMP_TO_PLUG.trigger.sources == [When("lamp", ON), When("plug", OFF)];
    assert LAMP_TO_PLUG.trigger.sources[0] == When("lamp", ON) && LAMP_TO_PLUG.trigger.sources[1] == When("plug", OFF);
    assert PLUG_TO_LAMP.trigger.sources[0] == When("plug", ON);
  }

  function LampAndPlug(lamp: bool, plug: bool): map<string, Device> {
    map["lamp" := Device(Some(map["on" := Boolean(lamp)]), None),
        "plug" := Device(Some(map["on" := Boolean(plug)]), None)]
  }

  lemma LampToPlugFeeds(rules: Rules, rt: DeviceConfigs.Runtime)
    ensures Feeds(PermissiveSetting(rules, rt), LAMP_TO_PLUG, PLUG_TO_LAMP)
  {
    var env, devices := PermissiveSetting(rules, rt), LampAndPlug(true, false);
    SwitchingFeatures([When("lamp", ON), When("plug", OFF)], "1 AND 2", "plug");
    SourcesOfSwitches("plug");
    SwitchingIsAccepted(env, rules, rt, devices, "plug");
    SwitchingOnOne("plug", true, "lamp", CarriedOut(env, devices, "plug", ON).value);
    assert EnablesIn(env, devices, "plug", ON, PLUG_TO_LAMP);
    assert FeedsBy(env, Action("plug", Some(ON)), PLUG_TO_LAMP);
  }

  lemma PlugToLampFeeds(rules: Rules, rt: DeviceConfigs.Runtime)
    ensures Feeds(PermissiveSetting(rules, rt), PLUG_TO_LAMP, LAMP_TO_PLUG)
  {
    var env, devices := PermissiveSetting(rules, rt), LampAndPlug(false, false);
    SwitchingFeatures([When("plug", ON)], "1", "lamp");
    SourcesOfSwitches("lamp");
    SwitchingIsAccepted(env, rules, rt, devices, "lamp");
    LampToPlugExecuted(CarriedOut(env, devices, "lamp", ON).value);
    assert EnablesIn(env, devices, "lamp", ON, LAMP_TO_PLUG);
    assert FeedsBy(env, Action("lamp", Some(ON)), LAMP_TO_PLUG);
  }

  lemma SwitchingIsAccepted(env: Setting, rules: Rules, rt: DeviceConfigs.Runtime, devices: map<string, Device>,
                            deviceId: string)
    requires env == PermissiveSetting(rules, rt) && deviceId in devices
    ensures var after := CarriedOut(env, devices, deviceId, ON);
            && after.Some? && IsOn(after.value, deviceId, true)
            && forall other :: other in devices && other != deviceId ==>
                 other in after.value && after.value[other] == devices[other]
  {
    assert "on" in ON && "on" != DevicePayloads.PayloadValidator.OVERRIDE;
    CarryingOutSets(env, devices, deviceId, ON, "on");
  }

  /** Executed once, the second scenario leaves the plug on, and then the first one is never executed. */
  lemma SecondDoesNotLeadToFirst(env: Setting, first: Stop, second: Stop, a: Action)
    requires a == Action("lamp", Some(ON)) && ShouldExecute(PLUG_TO_LAMP, first.devices, UPDATED)
    requires CarriedOut(env, first.devices, a.externalId, a.controls.value) == Some(second.devices)
    ensures !ShouldExecute(LAMP_TO_PLUG, second.devices, UPDATED)
  {
    SwitchingOnOne("plug", true, "lamp", first.devices);
    assert "plug" != "lamp" && second.devices["plug"] == first.devices["plug"];
    LampToPlugExecuted(second.devices);
  }

  lemma FirstDoesNotLeadToItself(env: Setting, first: Stop, second: Stop, a: Action)
    requires a == Action("plug", Some(ON))
    requires CarriedOut(env, first.devices, a.externalId, a.controls.value) == Some(second.devices)
    ensures !ShouldExecute(LAMP_TO_PLUG, second.devices, UPDATED)
  {
    assert "on" in ON && "on" != DevicePayloads.PayloadValidator.OVERRIDE;
    CarryingOutSets(env, first.devices, "plug", ON, "on");
    LampToPlugExecuted(second.devices);
  }

  /** Only the first scenario leads anywhere, and only to the second one. */
  lemma SwitchLeads(env: Setting, first: Stop, second: Stop)
    requires first.id in TwoSwitches() && second.id in TwoSwitches() && Leads(env, TwoSwitches(), first, second)
    requires ShouldExecute(TwoSwitches()[first.id], first.devices, UPDATED)
    requires ShouldExecute(TwoSwitches()[second.id], second.devices, UPDATED)
    ensures first.id == "first" && second.id == "second"
  {
    var a :| LeadsBy(env, TwoSwitches(), first, second, a);
    SwitchingFeatures([When("lamp", ON), When("plug", OFF)], "1 AND 2", "plug");
    SwitchingFeatures([When("plug", ON)], "1", "lamp");
    SourcesOfSwitches(a.externalId);
    if first.id == "first" {
      if second.id == "first" {
        FirstDoesNotLeadToItself(env, first, second, a);
      }
    } else {
      assert first.id == "second" && a == Action("lamp", Some(ON)) && "lamp" != "plug";
      if second.id == "first" {
        SecondDoesNotLeadToFirst(env, first, second, a);
      }
    }
  }

  lemma MutualIsCycle(env: Setting, nodes: map<string, Scenario>, s: string, t: string)
    requires s in nodes && t in nodes && Feeds(env, nodes[s], nodes[t]) && Feeds(env, nodes[t], nodes[s])
    ensures !Acyclic(env, nodes)
  {
    assert IsCycle(env, nodes, [s, t, s]);
  }

  lemma NoLoopOfSwitches(env: Setting, stops: seq<Stop>)
    ensures !IsLoop(env, TwoSwitches(), stops)
  {
    if IsLoop(env, TwoSwitches(), stops) {
      SwitchLeads(env, stops[0], stops[1]);
      if |stops| > 2 {
        SwitchLeads(env, stops[1], stops[2]);
      }
    }
  }

  /** Two scenarios that feed each other in a cycle that no states of the devices lead round. */
  lemma CycleWithoutLoop(rules: Rules, rt: DeviceConfigs.Runtime, stops: seq<Stop>)
    ensures !Acyclic(PermissiveSetting(rules, rt), TwoSwitches())
    ensures !IsLoop(PermissiveSetting(rules, rt), TwoSwitches(), stops)
  {
    LampToPlugFeeds(rules, rt);
    PlugToLampFeeds(rules, rt);
    MutualIsCycle(PermissiveSetting(rules, rt), TwoSwitches(), "first", "second");
    NoLoopOfSwitches(PermissiveSetting(rules, rt), stops);
  }
}
