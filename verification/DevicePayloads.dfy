/**
 * Updating the stored payloads of a device (devices/devices.service.ts, devices-control/devices-control.service.ts):
 * validation under the policy of the update's origin, merging with the stored payload, and reconciling stored payloads
 * with a changed configuration.
 */
module DevicePayloads {
  import opened Options
  import opened Values
  import opened DeviceConfigs
  import opened PayloadValidator

  datatype Origin = FromApi | FromDevice

  datatype DeviceUpdate = DeviceUpdate(controls: Option<Payload>, measurements: Option<Payload>)

  /** The checks a brand makes of merged payloads; they reject or leave the payload unchanged. */
  datatype Brand = Brand(controls: Payload -> bool, measurements: Payload -> bool)

  function PolicyOf(origin: Origin): Policy {
    if origin == FromDevice then Sanitize else Reject
  }

  function MergePayload(payload: Payload, stored: Option<Payload>): Payload {
    var fields := payload - {OVERRIDE};
    if Truthy(Field(payload, OVERRIDE)) then fields else GetOr(stored, map[]) + fields
  }

  /** The outcome of validating a payload of a section, without the order in which errors are listed. */
  ghost function ValidatedPayload(rt: Runtime, config: Option<Config>, section: Section, payload: Payload,
                                  policy: Policy): Option<Payload>
  {
    if config.None? || config.value.Declared(section).None? then Some(payload)
    else
      var rule := RuleOf(config.value, section);
      if policy == Sanitize then Some(SanitizePayload(rt, rule, payload))
      else if HasErrors(rt, rule, payload) then None
      else Some(NormalizeOverride(payload, payload))
  }

  lemma ValidatedIgnoresOrder(rt: Runtime, config: Option<Config>, section: Section, entries: Entries, payload: Payload,
                              policy: Policy)
    requires EntriesOf(entries, payload)
    ensures var validated := Validated(rt, config, section, entries, payload, policy);
            ValidatedPayload(rt, config, section, payload, policy)
            == if validated.Accepted? then Some(validated.payload) else None
  {
    if config.Some? && config.value.Declared(section).Some? && policy == Reject {
      NoErrorsIffRulesKept(rt, RuleOf(config.value, section), entries, payload);
    }
  }

  /** None: the update throws. */
  ghost function MergeValidate(rt: Runtime, config: Option<Config>, section: Section, check: Payload -> bool,
                               payload: Payload, stored: Option<Payload>, policy: Policy): Option<Payload>
  {
    var validated := ValidatedPayload(rt, config, section, payload, policy);
    if validated.None? then None
    else
      var merged := MergePayload(validated.value, stored);
      if check(merged) then Some(merged) else None
  }

  /** The stored document after an update: nothing is saved when either section throws. */
  ghost function Updated(rt: Runtime, brand: Brand, config: Option<Config>, device: Device, update: DeviceUpdate,
                         origin: Origin): Device
  {
    var controls := if update.controls.None? then device.controls
                    else MergeValidate(rt, config, Controls, brand.controls, update.controls.value, device.controls,
                                       PolicyOf(origin));
    var measurements := if update.measurements.None? then device.measurements
                        else MergeValidate(rt, config, Measurements, brand.measurements, update.measurements.value,
                                           device.measurements, PolicyOf(origin));
    if (update.controls.Some? && controls.None?) || (update.measurements.Some? && measurements.None?) then device
    else Device(controls, measurements)
  }

  // ---------------------------------------------------------------------------------------------
  // What an update of either origin does
  // ---------------------------------------------------------------------------------------------

  predicate Checks(config: Option<Config>, section: Section) {
    config.Some? && config.value.Declared(section).Some?
  }

  /** A submitted field that an accepted update stores. */
  predicate IsTaken(rt: Runtime, config: Option<Config>, section: Section, payload: Payload, name: string) {
    && name in payload && name != OVERRIDE
    && (Checks(config, section) ==> FieldPasses(rt, RuleOf(config.value, section), name, payload[name]))
  }

  /** The update drops what was stored before. */
  predicate Overrides(config: Option<Config>, section: Section, payload: Payload) {
    && OVERRIDE in payload
    && if Checks(config, section) then payload[OVERRIDE] in {Boolean(true), Text("true")}
       else payload[OVERRIDE] !in {Null, Undefined, NaN, Boolean(false), Number(0.0), Text("")}
  }

  /** The section holds what was taken and, unless overridden, what was stored before, and nothing else. */
  ghost predicate Merges(rt: Runtime, config: Option<Config>, section: Section, payload: Payload,
                         stored: Option<Payload>, merged: Payload)
  {
    forall name ::
      if IsTaken(rt, config, section, payload, name) then name in merged && merged[name] == payload[name]
      else if !Overrides(config, section, payload) && stored.Some? && name in stored.value
      then name in merged && merged[name] == stored.value[name]
      else name !in merged
  }

  /** The payload of a checked section has an invalid field or lacks a required one. */
  ghost predicate BreaksRule(rt: Runtime, config: Option<Config>, section: Section, payload: Payload) {
    Checks(config, section) && HasErrors(rt, RuleOf(config.value, section), payload)
  }

  ghost predicate RefusesSection(rt: Runtime, config: Option<Config>, section: Section, check: Payload -> bool,
                                 payload: Payload, stored: Option<Payload>, origin: Origin)
  {
    || (origin == FromApi && BreaksRule(rt, config, section, payload))
    || exists merged :: Merges(rt, config, section, payload, stored, merged) && !check(merged)
  }

  /** One of the submitted sections is refused. */
  ghost predicate Refused(rt: Runtime, brand: Brand, config: Option<Config>, device: Device, update: DeviceUpdate,
                          origin: Origin)
  {
    || (update.controls.Some?
        && RefusesSection(rt, config, Controls, brand.controls, update.controls.value, device.controls, origin))
    || (update.measurements.Some?
        && RefusesSection(rt, config, Measurements, brand.measurements, update.measurements.value, device.measurements,
                          origin))
  }

  lemma SomeMerge(rt: Runtime, config: Option<Config>, section: Section, payload: Payload, stored: Option<Payload>)
    returns (merged: Payload)
    ensures Merges(rt, config, section, payload, stored, merged)
  {
    merged := (if Overrides(config, section, payload) then map[] else GetOr(stored, map[]))
              + (map name | name in payload && IsTaken(rt, config, section, payload, name) :: payload[name]);
  }

  lemma OneMerge(rt: Runtime, config: Option<Config>, section: Section, payload: Payload, stored: Option<Payload>,
                 a: Payload, b: Payload)
    requires Merges(rt, config, section, payload, stored, a) && Merges(rt, config, section, payload, stored, b)
    ensures a == b
  {
  }

  /** Only updates by the hub's own side are refused for what they contain; the brand checks what would be stored. */
  lemma MergedSection(rt: Runtime, config: Option<Config>, section: Section, check: Payload -> bool, payload: Payload,
                      stored: Option<Payload>, origin: Origin, merged: Payload)
    requires Merges(rt, config, section, payload, stored, merged)
    ensures MergeValidate(rt, config, section, check, payload, stored, PolicyOf(origin))
            == if (origin == FromApi && BreaksRule(rt, config, section, payload)) || !check(merged) then None
               else Some(merged)
  {
    ValidatedFields(rt, config, section, payload, origin);
    if !(origin == FromApi && BreaksRule(rt, config, section, payload)) {
      var validated := ValidatedPayload(rt, config, section, payload, PolicyOf(origin)).value;
      OneMerge(rt, config, section, payload, stored, merged, MergePayload(validated, stored));
    }
  }

  /** Validating leaves the fields that are taken, and an override key that counts as it did before. */
  lemma ValidatedFields(rt: Runtime, config: Option<Config>, section: Section, payload: Payload, origin: Origin)
    ensures var validated := ValidatedPayload(rt, config, section, payload, PolicyOf(origin));
            && (validated.None? <==> origin == FromApi && BreaksRule(rt, config, section, payload))
            && (validated.Some? ==>
                  && (Truthy(Field(validated.value, OVERRIDE)) <==> Overrides(config, section, payload))
                  && (forall name :: name in validated.value && name != OVERRIDE <==>
                                     IsTaken(rt, config, section, payload, name))
                  && (forall name :: name in validated.value && name != OVERRIDE ==>
                        validated.value[name] == payload[name]))
  {
  }

  lemma RefusedSectionIffNoMerge(rt: Runtime, config: Option<Config>, section: Section, check: Payload -> bool,
                                 payload: Payload, stored: Option<Payload>, origin: Origin)
    ensures var merged := MergeValidate(rt, config, section, check, payload, stored, PolicyOf(origin));
            && (merged.None? <==> RefusesSection(rt, config, section, check, payload, stored, origin))
            && (merged.Some? ==> Merges(rt, config, section, payload, stored, merged.value))
  {
    var merged := SomeMerge(rt, config, section, payload, stored);
    MergedSection(rt, config, section, check, payload, stored, origin, merged);
    forall other | Merges(rt, config, section, payload, stored, other)
      ensures other == merged
    {
      OneMerge(rt, config, section, payload, stored, merged, other);
    }
  }

  lemma RefusedIffNoMerge(rt: Runtime, brand: Brand, config: Option<Config>, device: Device, update: DeviceUpdate,
                          origin: Origin)
    ensures Refused(rt, brand, config, device, update, origin) <==>
              || (update.controls.Some?
                  && MergeValidate(rt, config, Controls, brand.controls, update.controls.value, device.controls,
                                   PolicyOf(origin)).None?)
              || (update.measurements.Some?
                  && MergeValidate(rt, config, Measurements, brand.measurements, update.measurements.value,
                                   device.measurements, PolicyOf(origin)).None?)
  {
    if update.controls.Some? {
      RefusedSectionIffNoMerge(rt, config, Controls, brand.controls, update.controls.value, device.controls, origin);
    }
    if update.measurements.Some? {
      RefusedSectionIffNoMerge(rt, config, Measurements, brand.measurements, update.measurements.value,
                               device.measurements, origin);
    }
  }

  /** A submitted section is merged, another one stays. */
  ghost predicate MergesSubmitted(rt: Runtime, config: Option<Config>, section: Section, payload: Option<Payload>,
                                  stored: Option<Payload>, after: Option<Payload>)
  {
    if payload.None? then after == stored
    else after.Some? && Merges(rt, config, section, payload.value, stored, after.value)
  }

  /** An update leaves the device as it was iff one of its sections is refused, and otherwise merges every section. */
  lemma UpdateMergesOrIsRefused(rt: Runtime, brand: Brand, config: Option<Config>, device: Device, update: DeviceUpdate,
                                origin: Origin)
    ensures var after := Updated(rt, brand, config, device, update, origin);
            if Refused(rt, brand, config, device, update, origin) then after == device
            else
              && MergesSubmitted(rt, config, Controls, update.controls, device.controls, after.controls)
              && MergesSubmitted(rt, config, Measurements, update.measurements, device.measurements, after.measurements)
  {
    RefusedIffNoMerge(rt, brand, config, device, update, origin);
    if update.controls.Some? {
      RefusedSectionIffNoMerge(rt, config, Controls, brand.controls, update.controls.value, device.controls, origin);
    }
    if update.measurements.Some? {
      RefusedSectionIffNoMerge(rt, config, Measurements, brand.measurements, update.measurements.value,
                               device.measurements, origin);
    }
  }

  /** The brand objects to nothing. */
  ghost predicate Permissive(brand: Brand) {
    forall payload: Payload :: brand.controls(payload) && brand.measurements(payload)
  }

  ghost predicate HoldsTaken(rt: Runtime, config: Option<Config>, section: Section, payload: Option<Payload>,
                             after: Option<Payload>)
  {
    payload.Some? ==>
      forall name :: IsTaken(rt, config, section, payload.value, name) ==>
        after.Some? && name in after.value && after.value[name] == payload.value[name]
  }

  /** Whatever else a report of the device contains, each of its valid fields is stored; a report is never refused. */
  lemma ReportIsStored(rt: Runtime, brand: Brand, config: Option<Config>, device: Device, update: DeviceUpdate)
    requires Permissive(brand)
    ensures var after := Updated(rt, brand, config, device, update, FromDevice);
            && !Refused(rt, brand, config, device, update, FromDevice)
            && HoldsTaken(rt, config, Controls, update.controls, after.controls)
            && HoldsTaken(rt, config, Measurements, update.measurements, after.measurements)
  {
    UpdateMergesOrIsRefused(rt, brand, config, device, update, FromDevice);
  }

  ghost predicate HoldsAll(payload: Option<Payload>, after: Option<Payload>) {
    payload.Some? ==>
      forall name :: name in payload.value && name != OVERRIDE ==>
        after.Some? && name in after.value && after.value[name] == payload.value[name]
  }

  /** A request of the API is carried out as a whole or not at all: one broken rule in either section refuses it. */
  lemma RequestIsAllOrNothing(rt: Runtime, brand: Brand, config: Option<Config>, device: Device, update: DeviceUpdate)
    ensures var after := Updated(rt, brand, config, device, update, FromApi);
            var broken := || (update.controls.Some? && BreaksRule(rt, config, Controls, update.controls.value))
                          || (update.measurements.Some?
                              && BreaksRule(rt, config, Measurements, update.measurements.value));
            && (broken ==> Refused(rt, brand, config, device, update, FromApi) && after == device)
            && (!broken && Permissive(brand) ==>
                  && !Refused(rt, brand, config, device, update, FromApi)
                  && HoldsAll(update.controls, after.controls) && HoldsAll(update.measurements, after.measurements))
  {
    UpdateMergesOrIsRefused(rt, brand, config, device, update, FromApi);
    ValidFieldsAreTaken(rt, config, Controls, update.controls);
    ValidFieldsAreTaken(rt, config, Measurements, update.measurements);
  }

  lemma ValidFieldsAreTaken(rt: Runtime, config: Option<Config>, section: Section, payload: Option<Payload>)
    ensures payload.Some? && !BreaksRule(rt, config, section, payload.value) ==>
              forall name :: name in payload.value && name != OVERRIDE ==>
                IsTaken(rt, config, section, payload.value, name)
  {
  }

  // ---------------------------------------------------------------------------------------------
  // The services
  // ---------------------------------------------------------------------------------------------

  /** A device document together with the configuration of its brand, type and protocol. */
  class DeviceDocument {
    const rt: Runtime
    const brand: Brand
    var config: Option<Config>
    var device: Device

    constructor (rt: Runtime, brand: Brand, config: Option<Config>, device: Device)
      ensures this.rt == rt && this.brand == brand && this.config == config && this.device == device
    {
      this.rt, this.brand, this.config, this.device := rt, brand, config, device;
    }

    /** The override key is deleted from the payload before it is spread. */
    method Merge(payload: Payload, stored: Option<Payload>) returns (fields: Payload)
      ensures fields == MergePayload(payload, stored)
    {
      var override := OVERRIDE in payload && Truthy(payload[OVERRIDE]);
      fields := payload - {OVERRIDE};
      if !override {
        fields := GetOr(stored, map[]) + fields;
      }
    }

    method MergeValidateSection(section: Section, check: Payload -> bool, entries: Entries, payload: Payload,
                                stored: Option<Payload>, policy: Policy)
      returns (merged: Option<Payload>)
      requires EntriesOf(entries, payload)
      ensures merged == MergeValidate(rt, config, section, check, payload, stored, policy)
    {
      ValidatedIgnoresOrder(rt, config, section, entries, payload, policy);
      var validated := ValidateSection(rt, config, section, entries, payload, policy);
      if validated.Rejected? {
        return None;
      }
      var fields := Merge(validated.payload, stored);
      if !check(fields) {
        return None;
      }
      return Some(fields);
    }

    /** The entry lists are the submitted payloads in the order of their fields. */
    method Update(update: DeviceUpdate, controls: Entries, measurements: Entries, origin: Origin) returns (saved: bool)
      requires update.controls.Some? ==> EntriesOf(controls, update.controls.value)
      requires update.measurements.Some? ==> EntriesOf(measurements, update.measurements.value)
      modifies this
      ensures config == old(config)
      ensures device == Updated(rt, brand, config, old(device), update, origin)
      ensures saved <==> !Refused(rt, brand, config, old(device), update, origin)
      ensures !saved ==> device == old(device)
    {
      RefusedIffNoMerge(rt, brand, config, device, update, origin);
      var next := device;
      if update.controls.Some? {
        var merged := MergeValidateSection(Controls, brand.controls, controls, update.controls.value, device.controls,
                                           PolicyOf(origin));
        if merged == None {
          return false;
        }
        next := next.(controls := merged);
      }
      if update.measurements.Some? {
        var merged := MergeValidateSection(Measurements, brand.measurements, measurements, update.measurements.value,
                                           device.measurements, PolicyOf(origin));
        if merged == None {
          return false;
        }
        next := next.(measurements := merged);
      }
      device := next;
      return true;
    }

    /** Run when a device is created and when its configuration becomes another one. */
    method ApplyConfigDefaults()
      modifies this
      ensures config == old(config)
      ensures device == WithDefaults(config, old(device))
      ensures DefaultsFilledIn(config, old(device), device)
    {
      DefaultsFillIn(config, device);
      var controls := Defaults(ConfigItems(config, Controls));
      var measurements := Defaults(ConfigItems(config, Measurements));
      device := Device(Some(controls + GetOr(device.controls, map[])),
                       Some(measurements + GetOr(device.measurements, map[])));
    }

    /** `stored` lists the fields of the stored payloads in the order in which they are visited. */
    method Reconcile(controlNames: seq<string>, measurementNames: seq<string>) returns (changed: bool)
      requires config.Some?
      requires forall n :: n in controlNames <==> n in GetOr(device.controls, map[])
      requires forall n :: n in measurementNames <==> n in GetOr(device.measurements, map[])
      modifies this
      ensures config == old(config)
      ensures device == ApplyChange(ReconcileChange(config.value, old(device)), old(device))
      ensures changed <==> ReconcileChange(config.value, old(device)) != NO_CHANGE
    {
      var controls := BuildSectionChange(config.value.Items(Controls), GetOr(device.controls, map[]), controlNames);
      var measurements := BuildSectionChange(config.value.Items(Measurements), GetOr(device.measurements, map[]),
                                             measurementNames);
      var change := Change(controls, measurements);
      changed := change != NO_CHANGE;
      if changed {
        device := ApplyChange(change, device);
      } else {
        NothingToApply(device.controls);
        NothingToApply(device.measurements);
      }
    }
  }

  function ConfigItems(config: Option<Config>, section: Section): seq<Item> {
    if config.None? then [] else config.value.Items(section)
  }

  /** A later item of the same name overwrites an earlier one. */
  function Defaults(items: seq<Item>): Payload {
    if items == [] then map[]
    else Defaults(items[..|items| - 1])[items[|items| - 1].name := ItemDefaultValue(items[|items| - 1])]
  }

  /** The configured defaults fill in what the device does not have. */
  function WithDefaults(config: Option<Config>, device: Device): Device {
    Device(Some(Defaults(ConfigItems(config, Controls)) + GetOr(device.controls, map[])),
           Some(Defaults(ConfigItems(config, Measurements)) + GetOr(device.measurements, map[])))
  }

  // ---------------------------------------------------------------------------------------------
  // What filling in defaults does
  // ---------------------------------------------------------------------------------------------

  predicate Declares(items: seq<Item>, name: string) {
    exists item :: item in items && item.name == name
  }

  /** The item at position `i` is the last of its name. */
  ghost predicate IsLastNamed(items: seq<Item>, i: nat)
    requires i < |items|
  {
    forall j :: i < j < |items| ==> items[j].name != items[i].name
  }

  lemma {:induction false} DefaultsOfItems(items: seq<Item>)
    ensures forall name :: name in Defaults(items) <==> Declares(items, name)
    ensures forall i :: 0 <= i < |items| && IsLastNamed(items, i) ==>
              items[i].name in Defaults(items) && Defaults(items)[items[i].name] == ItemDefaultValue(items[i])
  {
    if items == [] {
    } else {
      var n := |items| - 1;
      DefaultsOfItems(items[..n]);
      assert items == items[..n] + [items[n]];
      assert forall item :: item in items <==> item in items[..n] || item == items[n];
      forall i | 0 <= i < n && IsLastNamed(items, i)
        ensures items[i].name in Defaults(items) && Defaults(items)[items[i].name] == ItemDefaultValue(items[i])
      {
        assert IsLastNamed(items[..n], i) && items[..n][i] == items[i];
      }
    }
  }

  lemma {:induction false} LastNamed(items: seq<Item>, name: string) returns (i: nat)
    requires Declares(items, name)
    ensures i < |items| && items[i].name == name && IsLastNamed(items, i)
  {
    var n := |items| - 1;
    if items[n].name == name {
      i := n;
    } else {
      assert items == items[..n] + [items[n]];
      i := LastNamed(items[..n], name);
    }
  }

  /** The value of every new name is the default of the last item of that name, or null if it has none. */
  ghost predicate NewNamesHaveDefaults(items: seq<Item>, stored: Payload, filled: Payload) {
    forall i :: 0 <= i < |items| && IsLastNamed(items, i) && items[i].name !in stored ==>
      && items[i].name in filled
      && filled[items[i].name] == if items[i].default.Some? then items[i].default.value else Null
  }

  /** Stored values stay, new names have their defaults, and there is nothing else. */
  ghost predicate FilledIn(items: seq<Item>, stored: Payload, filled: Payload) {
    && (forall name :: name in stored ==> name in filled && filled[name] == stored[name])
    && (forall name :: name in filled <==> name in stored || Declares(items, name))
    && NewNamesHaveDefaults(items, stored, filled)
  }

  lemma FilledInWithDefaults(items: seq<Item>, stored: Payload)
    ensures FilledIn(items, stored, Defaults(items) + stored)
    ensures Defaults(items) + (Defaults(items) + stored) == Defaults(items) + stored
  {
    DefaultsOfItems(items);
  }

  ghost predicate DefaultsFilledIn(config: Option<Config>, before: Device, after: Device) {
    && after.controls.Some? && after.measurements.Some?
    && FilledIn(if config.Some? then GetOr(config.value.controls, []) else [], GetOr(before.controls, map[]),
                after.controls.value)
    && FilledIn(if config.Some? then GetOr(config.value.measurements, []) else [], GetOr(before.measurements, map[]),
                after.measurements.value)
  }

  /** Stored values win over the configured defaults in both sections, and a second time nothing changes. */
  lemma DefaultsFillIn(config: Option<Config>, device: Device)
    ensures DefaultsFilledIn(config, device, WithDefaults(config, device))
    ensures WithDefaults(config, WithDefaults(config, device)) == WithDefaults(config, device)
  {
    FilledInWithDefaults(ConfigItems(config, Controls), GetOr(device.controls, map[]));
    FilledInWithDefaults(ConfigItems(config, Measurements), GetOr(device.measurements, map[]));
  }

  // ---------------------------------------------------------------------------------------------
  // Reconciling
  // ---------------------------------------------------------------------------------------------

  /** The `$set` and `$unset` parts for one section. */
  datatype SectionChange = SectionChange(added: Payload, removed: set<string>)

  datatype Change = Change(controls: SectionChange, measurements: SectionChange)

  const NO_SECTION_CHANGE := SectionChange(map[], {})
  const NO_CHANGE := Change(NO_SECTION_CHANGE, NO_SECTION_CHANGE)

  /** A section without items is left alone. */
  function SectionChangeFor(items: seq<Item>, stored: Payload): SectionChange {
    if items == [] then NO_SECTION_CHANGE
    else SectionChange(Defaults(items) - stored.Keys, set name | name in stored && !Declares(items, name))
  }

  function ReconcileChange(config: Config, device: Device): Change {
    Change(SectionChangeFor(config.Items(Controls), GetOr(device.controls, map[])),
           SectionChangeFor(config.Items(Measurements), GetOr(device.measurements, map[])))
  }

  function ApplySectionChange(change: SectionChange, stored: Option<Payload>): Option<Payload> {
    if change.added == map[] && stored.None? then None
    else Some((GetOr(stored, map[]) - change.removed) + change.added)
  }

  function ApplyChange(change: Change, device: Device): Device {
    Device(ApplySectionChange(change.controls, device.controls),
           ApplySectionChange(change.measurements, device.measurements))
  }

  lemma NothingToApply(stored: Option<Payload>)
    ensures ApplySectionChange(NO_SECTION_CHANGE, stored) == stored
  {
    if stored.Some? {
      assert (stored.value - {}) + map[] == stored.value;
    }
  }

  method BuildSectionChange(items: seq<Item>, stored: Payload, names: seq<string>) returns (change: SectionChange)
    requires forall n :: n in names <==> n in stored
    ensures change == SectionChangeFor(items, stored)
  {
    if items == [] {
      return NO_SECTION_CHANGE;
    }
    var setFields: Payload := map[];
    for i := 0 to |items|
      invariant setFields == Defaults(items[..i]) - stored.Keys
    {
      assert items[..i + 1][..i] == items[..i];
      if items[i].name !in stored {
        setFields := setFields[items[i].name := ItemDefaultValue(items[i])];
      }
    }
    assert items[..|items|] == items;
    var unsetFields: set<string> := {};
    for i := 0 to |names|
      invariant unsetFields == set name | name in names[..i] && !Declares(items, name)
    {
      assert names[..i + 1] == names[..i] + [names[i]];
      if !Declares(items, names[i]) {
        unsetFields := unsetFields + {names[i]};
      }
    }
    assert names[..|names|] == names;
    return SectionChange(setFields, unsetFields);
  }

  /**
   * A reconciled section has exactly the declared names: retained values are kept, new names have the default of the
   * last item of that name or null. A section without items is untouched.
   */
  ghost predicate IsReconciled(items: seq<Item>, stored: Option<Payload>, result: Option<Payload>) {
    if items == [] then result == stored
    else
      && result.Some?
      && (forall name :: name in result.value <==> Declares(items, name))
      && (forall name :: name in result.value && name in GetOr(stored, map[]) ==>
            result.value[name] == GetOr(stored, map[])[name])
      && NewNamesHaveDefaults(items, GetOr(stored, map[]), result.value)
  }

  lemma ReconcileSection(items: seq<Item>, stored: Option<Payload>)
    ensures var result := ApplySectionChange(SectionChangeFor(items, GetOr(stored, map[])), stored);
            && IsReconciled(items, stored, result)
            && SectionChangeFor(items, GetOr(result, map[])) == NO_SECTION_CHANGE
  {
    DefaultsOfItems(items);
    if items == [] {
      NothingToApply(stored);
    } else {
      assert Declares(items, items[0].name);
      var payload := GetOr(stored, map[]);
      var change := SectionChangeFor(items, payload);
      if stored.None? {
        assert items[0].name in change.added;
      }
      var result := (payload - change.removed) + change.added;
      forall name
        ensures name in result <==> Declares(items, name)
      {
      }
      assert Defaults(items) - result.Keys == map[];
      assert (set name | name in result && !Declares(items, name)) == {};
    }
  }

  /** Reconciling a device reconciles both of its sections with the items declared for them. */
  lemma ReconciledDevice(config: Config, device: Device)
    ensures var after := ApplyChange(ReconcileChange(config, device), device);
            && IsReconciled(GetOr(config.controls, []), device.controls, after.controls)
            && IsReconciled(GetOr(config.measurements, []), device.measurements, after.measurements)
  {
    ReconcileSection(config.Items(Controls), device.controls);
    ReconcileSection(config.Items(Measurements), device.measurements);
  }

  lemma ReconcileTwice(config: Config, device: Device)
    ensures ReconcileChange(config, ApplyChange(ReconcileChange(config, device), device)) == NO_CHANGE
  {
    ReconcileSection(config.Items(Controls), device.controls);
    ReconcileSection(config.Items(Measurements), device.measurements);
  }

  // ---------------------------------------------------------------------------------------------
  // Histories
  // ---------------------------------------------------------------------------------------------

  datatype HistoryStep = Updating(update: DeviceUpdate, origin: Origin) | ConfigsSynced | DefaultsApplied

  ghost function StepOf(rt: Runtime, brand: Brand, config: Config, device: Device, step: HistoryStep): Device {
    match step
    case Updating(update, origin) => Updated(rt, brand, Some(config), device, update, origin)
    case ConfigsSynced => ApplyChange(ReconcileChange(config, device), device)
    case DefaultsApplied => WithDefaults(Some(config), device)
  }

  ghost function AfterHistory(rt: Runtime, brand: Brand, config: Config, device: Device,
                              steps: seq<HistoryStep>): Device
    decreases |steps|
  {
    if steps == [] then device
    else AfterHistory(rt, brand, config, StepOf(rt, brand, config, device, steps[0]), steps[1..])
  }

  /** Every stored field is declared and passes the rules of its item, and `$override` is not stored. */
  ghost predicate StoredValid(rt: Runtime, items: seq<Item>, stored: Option<Payload>) {
    stored.Some? ==>
      forall name :: name in stored.value ==>
        && name != OVERRIDE && FindByName(items, name).Some?
        && ValidateItemValue(rt, FindByName(items, name).value, stored.value[name]).None?
  }

  ghost predicate DeviceValid(rt: Runtime, config: Config, device: Device) {
    && StoredValid(rt, config.Items(Controls), device.controls)
    && StoredValid(rt, config.Items(Measurements), device.measurements)
  }

  /** What the parser and the schema guarantee of a strict configuration; items are not called `$override`. */
  ghost predicate StrictConfig(rt: Runtime, config: Config) {
    && config.strict != Some(false) && config.controls.Some? && config.measurements.Some?
    && forall section :: DistinctNames(config.Items(section)) && DefaultsValid(rt, config.Items(section))
                      && !Declares(config.Items(section), OVERRIDE)
  }

  lemma MergeKeepsValid(rt: Runtime, config: Config, section: Section, check: Payload -> bool, payload: Payload,
                        stored: Option<Payload>, policy: Policy)
    requires config.strict != Some(false) && config.Declared(section).Some?
    requires StoredValid(rt, config.Items(section), stored)
    ensures var merged := MergeValidate(rt, Some(config), section, check, payload, stored, policy);
            StoredValid(rt, config.Items(section), merged)
  {
    var rule := RuleOf(config, section);
    var validated := ValidatedPayload(rt, Some(config), section, payload, policy);
    if validated.Some? {
      forall name | name in validated.value && name != OVERRIDE
        ensures FieldPasses(rt, rule, name, validated.value[name])
      {
        assert name in payload && validated.value[name] == payload[name];
      }
    }
  }

  lemma ReconcileKeepsValid(rt: Runtime, items: seq<Item>, stored: Option<Payload>)
    requires DistinctNames(items) && DefaultsValid(rt, items) && !Declares(items, OVERRIDE)
    requires StoredValid(rt, items, stored)
    ensures StoredValid(rt, items, ApplySectionChange(SectionChangeFor(items, GetOr(stored, map[])), stored))
  {
    ReconcileSection(items, stored);
    var result := ApplySectionChange(SectionChangeFor(items, GetOr(stored, map[])), stored);
    if items != [] {
      forall name | name in result.value
        ensures name != OVERRIDE && FindByName(items, name).Some?
        ensures ValidateItemValue(rt, FindByName(items, name).value, result.value[name]).None?
      {
        assert Declares(items, name);
        FindByNameFinds(items, name);
        if name in GetOr(stored, map[]) {
          assert result.value[name] == stored.value[name];
        } else {
          var i := LastNamed(items, name);
          assert items[i] in items && result.value[name] == ItemDefaultValue(items[i]);
        }
      }
    }
  }

  /** Filling in defaults neither breaks a valid payload nor repairs an invalid one. */
  lemma DefaultsKeepValidity(rt: Runtime, items: seq<Item>, stored: Option<Payload>)
    requires DistinctNames(items) && DefaultsValid(rt, items) && !Declares(items, OVERRIDE)
    ensures StoredValid(rt, items, Some(Defaults(items) + GetOr(stored, map[]))) <==> StoredValid(rt, items, stored)
  {
    DefaultsOfItems(items);
    var filled := Defaults(items) + GetOr(stored, map[]);
    forall name | name in Defaults(items)
      ensures name != OVERRIDE && FindByName(items, name).Some?
      ensures ValidateItemValue(rt, FindByName(items, name).value, Defaults(items)[name]).None?
    {
      FindByNameFinds(items, name);
      var i := LastNamed(items, name);
      assert items[i] in items && Defaults(items)[name] == ItemDefaultValue(items[i]);
    }
    assert forall name :: name in GetOr(stored, map[]) ==> name in filled && filled[name] == stored.value[name];
  }

  /**
   * Whatever updates of either origin a device receives under a strict configuration, and however often the
   * configuration is synced or its defaults are applied in between, the stored payloads stay declared, valid and free
   * of `$override`.
   */
  lemma {:induction false} HistoryKeepsValid(rt: Runtime, brand: Brand, config: Config, device: Device,
                                             steps: seq<HistoryStep>)
    requires StrictConfig(rt, config) && DeviceValid(rt, config, device)
    ensures DeviceValid(rt, config, AfterHistory(rt, brand, config, device, steps))
    decreases |steps|
  {
    if steps == [] {
    } else {
      match steps[0] {
        case Updating(update, origin) =>
          if update.controls.Some? {
            MergeKeepsValid(rt, config, Controls, brand.controls, update.controls.value, device.controls,
                            PolicyOf(origin));
          }
          if update.measurements.Some? {
            MergeKeepsValid(rt, config, Measurements, brand.measurements, update.measurements.value,
                            device.measurements, PolicyOf(origin));
          }
        case ConfigsSynced =>
          ReconcileKeepsValid(rt, config.Items(Controls), device.controls);
          ReconcileKeepsValid(rt, config.Items(Measurements), device.measurements);
        case DefaultsApplied =>
          DefaultsKeepValidity(rt, config.Items(Controls), device.controls);
          DefaultsKeepValidity(rt, config.Items(Measurements), device.measurements);
      }
      HistoryKeepsValid(rt, brand, config, StepOf(rt, brand, config, device, steps[0]), steps[1..]);
    }
  }

  /** Every stored value is null or one that its item's declaration describes. */
  ghost predicate StoredObeys(rt: Runtime, items: seq<Item>, stored: Option<Payload>) {
    stored.Some? ==>
      forall name :: name in stored.value ==>
        && Declares(items, name)
        && forall item :: item in items && item.name == name ==>
             stored.value[name] in {Null, Undefined} || Obeys(rt, item, stored.value[name])
  }

  lemma StoredValidIffObeys(rt: Runtime, items: seq<Item>, stored: Option<Payload>)
    requires DistinctNames(items) && !Declares(items, OVERRIDE)
    ensures StoredValid(rt, items, stored) <==> StoredObeys(rt, items, stored)
  {
    if stored.Some? {
      forall name | name in stored.value
        ensures (name != OVERRIDE && FindByName(items, name).Some?
                 && ValidateItemValue(rt, FindByName(items, name).value, stored.value[name]).None?) <==>
                (Declares(items, name) && forall item :: item in items && item.name == name ==>
                  stored.value[name] in {Null, Undefined} || Obeys(rt, item, stored.value[name]))
      {
        FindByNameFinds(items, name);
        if Declares(items, name) {
          PassesIffObeys(rt, FindByName(items, name).value, stored.value[name]);
        }
      }
    }
  }

  /** A stored number of a number item with constraints. */
  ghost predicate NumbersWithinBounds(items: seq<Item>, stored: Option<Payload>) {
    stored.Some? ==>
      forall item :: item in items && item.itemType.NumberItem? && item.constraints.Some?
                     && item.name in stored.value ==>
        var value, c := stored.value[item.name], item.constraints.value;
        && (value in {Null, Undefined} || value.Number?)
        && (value.Number? && c.min.Some? ==> c.min.value <= value.number)
        && (value.Number? && c.max.Some? ==> value.number <= c.max.value)
  }

  /**
   * Starting from values that the items' declarations describe, every history of a device under a strict configuration
   * ends with such values; in particular every stored number is within the bounds of its item.
   */
  lemma HistoryStaysWithinDeclarations(rt: Runtime, brand: Brand, config: Config, device: Device,
                                       steps: seq<HistoryStep>)
    requires StrictConfig(rt, config)
    requires StoredObeys(rt, config.controls.value, device.controls)
    requires StoredObeys(rt, config.measurements.value, device.measurements)
    ensures var after := AfterHistory(rt, brand, config, device, steps);
            && StoredObeys(rt, config.controls.value, after.controls)
            && StoredObeys(rt, config.measurements.value, after.measurements)
            && NumbersWithinBounds(config.controls.value, after.controls)
            && NumbersWithinBounds(config.measurements.value, after.measurements)
  {
    var after := AfterHistory(rt, brand, config, device, steps);
    assert config.Items(Controls) == config.controls.value && config.Items(Measurements) == config.measurements.value;
    StoredValidIffObeys(rt, config.controls.value, device.controls);
    StoredValidIffObeys(rt, config.measurements.value, device.measurements);
    HistoryKeepsValid(rt, brand, config, device, steps);
    StoredValidIffObeys(rt, config.controls.value, after.controls);
    StoredValidIffObeys(rt, config.measurements.value, after.measurements);
  }

  /**
   * What one accepted update does to a section: submitted valid fields win, `$override` decides about the others.
   * Under a configuration the flag counts only as `true` or `"true"`.
   */
  lemma MergedFields(rt: Runtime, config: Config, section: Section, check: Payload -> bool, payload: Payload,
                     stored: Option<Payload>, policy: Policy, name: string)
    requires config.Declared(section).Some?
    requires MergeValidate(rt, Some(config), section, check, payload, stored, policy).Some?
    ensures var merged := MergeValidate(rt, Some(config), section, check, payload, stored, policy).value;
            var submitted := name in payload && FieldPasses(rt, RuleOf(config, section), name, payload[name]);
            var overriding := Field(payload, OVERRIDE) == Boolean(true) || Field(payload, OVERRIDE) == Text("true");
            && (submitted ==> name in merged && merged[name] == payload[name])
            && (!submitted && !overriding && name in GetOr(stored, map[]) ==>
                  name in merged && merged[name] == GetOr(stored, map[])[name])
            && (!submitted && (overriding || name !in GetOr(stored, map[])) ==> name !in merged)
  {
    var rule := RuleOf(config, section);
    var validated := ValidatedPayload(rt, Some(config), section, payload, policy).value;
    if policy == Reject {
      assert !HasErrors(rt, rule, payload);
    }
    assert Truthy(Field(validated, OVERRIDE)) <==>
             (Field(payload, OVERRIDE) == Boolean(true) || Field(payload, OVERRIDE) == Text("true"));
  }

  // ---------------------------------------------------------------------------------------------
  // Creating devices
  // ---------------------------------------------------------------------------------------------

  /**
   * A device is built from the submitted payload before that payload is validated and merged into it. What is stored is
   * therefore valid exactly if the payload overrides what is there, or has neither an invalid field nor `$override`.
   */
  lemma CreatedPayloadIsValidIff(rt: Runtime, config: Config, section: Section, check: Payload -> bool,
                                 payload: Payload, policy: Policy)
    requires config.strict != Some(false) && config.Declared(section).Some?
    ensures var created := MergeValidate(rt, Some(config), section, check, payload, Some(payload), policy);
            var overriding := Field(payload, OVERRIDE) == Boolean(true) || Field(payload, OVERRIDE) == Text("true");
            created.Some? ==>
              (StoredValid(rt, config.Items(section), created) <==>
               overriding || Clean(rt, RuleOf(config, section), payload))
  {
    var created := MergeValidate(rt, Some(config), section, check, payload, Some(payload), policy);
    if created.Some? {
      forall name
        ensures name in created.value <==>
                name in payload && (FieldPasses(rt, RuleOf(config, section), name, payload[name])
                  || !(Field(payload, OVERRIDE) == Boolean(true) || Field(payload, OVERRIDE) == Text("true")))
        ensures name in created.value ==> created.value[name] == payload[name]
      {
        MergedFields(rt, config, section, check, payload, Some(payload), policy, name);
        MergedFromPayload(rt, config, section, check, payload, policy, name);
      }
    }
  }

  lemma MergedFromPayload(rt: Runtime, config: Config, section: Section, check: Payload -> bool, payload: Payload,
                          policy: Policy, name: string)
    requires config.Declared(section).Some?
    requires MergeValidate(rt, Some(config), section, check, payload, Some(payload), policy).Some?
    ensures var merged := MergeValidate(rt, Some(config), section, check, payload, Some(payload), policy).value;
            name in merged ==> name in payload && merged[name] == payload[name]
  {
  }

  /** A strict configuration with one boolean control. */
  const SWITCH := Item("on", BooleanItem, None, None, false, None, None)
  const SWITCH_CONFIG := Config(Some(true), None, Some([SWITCH]), None)

  /** A rejecting creation stores the override flag itself when it is false. */
  lemma CreationStoresOverride(rt: Runtime)
    ensures var payload := map["on" := Boolean(true), OVERRIDE := Boolean(false)];
            var created := MergeValidate(rt, Some(SWITCH_CONFIG), Controls, _ => true, payload, Some(payload), Reject);
            && created == Some(payload)
            && !StoredValid(rt, SWITCH_CONFIG.Items(Controls), created)
  {
    var payload: Payload := map["on" := Boolean(true), OVERRIDE := Boolean(false)];
    assert SWITCH_CONFIG.Items(Controls)[0] == SWITCH && FindByName([SWITCH], "on") == Some(SWITCH);
    assert "on" != OVERRIDE;
    SwitchIsOptional(rt, payload);
    assert !HasErrors(rt, RuleOf(SWITCH_CONFIG, Controls), payload);
    assert payload[OVERRIDE := Boolean(false)] == payload && NormalizeOverride(payload, payload) == payload;
    assert payload - {OVERRIDE} == map["on" := Boolean(true)];
    assert payload + map["on" := Boolean(true)] == payload;
    assert OVERRIDE in payload;
  }

  lemma SwitchIsOptional(rt: Runtime, payload: Payload)
    ensures forall item :: item in RuleOf(SWITCH_CONFIG, Controls).items ==> !item.required
  {
    assert RuleOf(SWITCH_CONFIG, Controls).items == [SWITCH];
  }

  /** A sanitizing creation drops an invalid field, and the merge with the submitted payload brings it back. */
  lemma CreationRestoresInvalidField(rt: Runtime)
    ensures var payload := map["on" := Text("yes")];
            && SanitizePayload(rt, RuleOf(SWITCH_CONFIG, Controls), payload) == map[]
            && var created := MergeValidate(rt, Some(SWITCH_CONFIG), Controls, _ => true, payload, Some(payload),
                                            Sanitize);
               created == Some(payload) && !StoredValid(rt, SWITCH_CONFIG.Items(Controls), created)
  {
    var payload: Payload := map["on" := Text("yes")];
    assert SWITCH_CONFIG.Items(Controls)[0] == SWITCH && FindByName([SWITCH], "on") == Some(SWITCH);
    assert "on" != OVERRIDE && !FieldPasses(rt, RuleOf(SWITCH_CONFIG, Controls), "on", Text("yes"));
    var nothing: Payload := map[];
    assert SanitizePayload(rt, RuleOf(SWITCH_CONFIG, Controls), payload) == nothing;
    assert nothing - {OVERRIDE} == nothing && payload + nothing == payload;
    assert MergePayload(nothing, Some(payload)) == payload;
    assert "on" in payload;
  }
}
