/**
 * Translating payloads between the hub's names and those of a device
 * (device-configs/device-configs-mapper.service.ts).
 */
module PayloadMapper {
  import opened Options
  import opened Values
  import opened DeviceConfigs
  import opened PayloadValidator

  // ---------------------------------------------------------------------------------------------
  // Single fields
  // ---------------------------------------------------------------------------------------------

  /** The name of an item in the payloads of the device. */
  function WireName(item: Item): string { GetOr(item.path, item.name) }

  predicate Enumerated(item: Item) { item.itemType.BooleanItem? || item.itemType.EnumItem? }

  function ValueByName(values: seq<ItemValue>, text: string): Option<ItemValue> {
    if values == [] then None
    else if values[0].name == text then Some(values[0])
    else ValueByName(values[1..], text)
  }

  function ValueByPath(values: seq<ItemValue>, text: string): Option<ItemValue> {
    if values == [] then None
    else if values[0].path == Some(text) then Some(values[0])
    else ValueByPath(values[1..], text)
  }

  function ItemValues(item: Item): seq<ItemValue> { GetOr(item.values, []) }

  /** The item takes the field of a device payload. */
  predicate Takes(rt: Runtime, item: Item, name: string, value: Value) {
    && WireName(item) == name
    && (Enumerated(item) ==>
          exists v :: v in ItemValues(item) && (v.path == Some(ToText(rt, value)) || v.name == ToText(rt, value)))
  }

  function FindConfigItem(rt: Runtime, items: seq<Item>, name: string, value: Value): Option<Item> {
    if items == [] then None
    else if Takes(rt, items[0], name, value) then Some(items[0])
    else FindConfigItem(rt, items[1..], name, value)
  }

  function MapValueToDevice(rt: Runtime, item: Item, value: Value): Value {
    if Enumerated(item) then
      var mapped := ValueByName(ItemValues(item), ToText(rt, value));
      if mapped.Some? && mapped.value.path.Some? then Text(mapped.value.path.value) else value
    else if item.path.Some? then Text(item.path.value)
    else value
  }

  function ToLower(s: string): string {
    if s == [] then []
    else [if 'A' <= s[0] <= 'Z' then ((s[0] - 'A') as int + 'a' as int) as char else s[0]] + ToLower(s[1..])
  }

  function MapValueFromDevice(rt: Runtime, item: Item, value: Value): Value {
    if Enumerated(item) then
      var mapped := OrElse(ValueByPath(ItemValues(item), ToText(rt, value)),
                           ValueByName(ItemValues(item), ToText(rt, value)));
      if mapped.None? then value
      else if item.itemType.BooleanItem? then Boolean(ToLower(mapped.value.name) == "true")
      else Text(mapped.value.name)
    else if item.itemType.NumberItem? then
      var number := ToNumber(rt, value);
      if number.NaN? then value else number
    else value
  }

  function FieldToDevice(rt: Runtime, configs: seq<Item>, field: (string, Value)): (string, Value) {
    var item := FindByName(configs, field.0);
    if item.Some? then (WireName(item.value), MapValueToDevice(rt, item.value, field.1)) else field
  }

  function FieldFromDevice(rt: Runtime, items: seq<Item>, field: (string, Value)): (string, Value) {
    var item := FindConfigItem(rt, items, field.0, field.1);
    if item.Some? then (item.value.name, MapValueFromDevice(rt, item.value, field.1)) else field
  }

  // ---------------------------------------------------------------------------------------------
  // Payloads
  // ---------------------------------------------------------------------------------------------

  function Settable(config: Option<Config>): seq<Item> {
    if config.None? then [] else config.value.Items(Commands) + config.value.Items(Controls)
  }

  function Sent(rt: Runtime, settable: seq<Item>, entries: Entries): Entries {
    seq(|entries|, i requires 0 <= i < |entries| => FieldToDevice(rt, settable, entries[i]))
  }

  function Returned(rt: Runtime, items: seq<Item>, wire: Entries): Entries {
    seq(|wire|, i requires 0 <= i < |wire| => FieldFromDevice(rt, items, wire[i]))
  }

  function ToDevice(rt: Runtime, config: Option<Config>, entries: Entries): Payload {
    if Settable(config) == [] then AssignAll(entries) else AssignAll(Sent(rt, Settable(config), entries))
  }

  function FromDevice(rt: Runtime, config: Option<Config>, section: Section, entries: Entries): Payload {
    var items := if config.None? then [] else config.value.Items(section);
    if items == [] then AssignAll(entries) else AssignAll(Returned(rt, items, entries))
  }

  method MapPayloadToDevice(rt: Runtime, config: Option<Config>, entries: Entries, payload: Payload)
    returns (mapped: Payload)
    requires EntriesOf(entries, payload)
    ensures mapped == ToDevice(rt, config, entries)
  {
    var configs := Settable(config);
    if configs == [] {
      return payload;
    }
    mapped := map[];
    ghost var pairs := Sent(rt, configs, entries);
    for i := 0 to |entries|
      invariant mapped == AssignAll(pairs[..i])
    {
      assert pairs[..i + 1][..i] == pairs[..i];
      var (name, value) := entries[i];
      var item := FindByName(configs, name);
      if item.Some? {
        mapped := mapped[WireName(item.value) := MapValueToDevice(rt, item.value, value)];
      } else {
        mapped := mapped[name := value];
      }
    }
    assert pairs[..|entries|] == pairs;
  }

  method MapPayloadFromDevice(rt: Runtime, config: Option<Config>, section: Section, entries: Entries, payload: Payload)
    returns (mapped: Payload)
    requires EntriesOf(entries, payload)
    ensures mapped == FromDevice(rt, config, section, entries)
  {
    var items := if config.None? then [] else config.value.Items(section);
    if items == [] {
      return payload;
    }
    mapped := map[];
    ghost var pairs := Returned(rt, items, entries);
    for i := 0 to |entries|
      invariant mapped == AssignAll(pairs[..i])
    {
      assert pairs[..i + 1][..i] == pairs[..i];
      var (name, value) := entries[i];
      var item := FindConfigItem(rt, items, name, value);
      if item.Some? {
        mapped := mapped[item.value.name := MapValueFromDevice(rt, item.value, value)];
      } else {
        mapped := mapped[name := value];
      }
    }
    assert pairs[..|entries|] == pairs;
  }

  // ---------------------------------------------------------------------------------------------
  // There and back
  // ---------------------------------------------------------------------------------------------

  lemma {:induction false} ValueByNameFinds(values: seq<ItemValue>, text: string)
    ensures ValueByName(values, text).Some? <==> exists v :: v in values && v.name == text
    ensures ValueByName(values, text).Some? ==>
              ValueByName(values, text).value in values && ValueByName(values, text).value.name == text
  {
    if values == [] {
    } else {
      ValueByNameFinds(values[1..], text);
    }
  }

  lemma {:induction false} ValueByPathFinds(values: seq<ItemValue>, text: string)
    ensures ValueByPath(values, text).Some? <==> exists v :: v in values && v.path == Some(text)
    ensures ValueByPath(values, text).Some? ==>
              ValueByPath(values, text).value in values && ValueByPath(values, text).value.path == Some(text)
  {
    if values == [] {
    } else {
      ValueByPathFinds(values[1..], text);
    }
  }

  lemma {:induction false} FindConfigItemFinds(rt: Runtime, items: seq<Item>, name: string, value: Value)
    ensures var item := FindConfigItem(rt, items, name, value);
            && (item.Some? ==> item.value in items && Takes(rt, item.value, name, value))
            && (item.None? ==> forall other :: other in items ==> !Takes(rt, other, name, value))
  {
    if items == [] {
    } else {
      FindConfigItemFinds(rt, items[1..], name, value);
    }
  }

  /** Names and paths of the declared values can be told apart, where a value without path is sent by name. */
  ghost predicate UnambiguousValues(values: seq<ItemValue>) {
    && (forall v, w :: v in values && w in values && v.name == w.name ==> v == w)
    && (forall v, w :: v in values && w in values && v.path.Some? && v.path == w.path ==> v == w)
    && (forall v, w :: v in values && w in values && v.path.None? ==> w.path != Some(v.name))
  }

  /** Each control is recognizable by its name and by its name on the device. */
  ghost predicate UnambiguousControls(controls: seq<Item>) {
    && (forall a, b :: a in controls && b in controls && a.name == b.name ==> a == b)
    && (forall a, b :: a in controls && b in controls && WireName(a) == WireName(b) ==> a == b)
    && (forall a :: a in controls && Enumerated(a) ==> UnambiguousValues(ItemValues(a)))
  }

  /** The value is one the item can carry to the device and back. */
  ghost predicate Carries(rt: Runtime, item: Item, value: Value) {
    match item.itemType
    case BooleanItem => value.Boolean? && exists v :: v in ItemValues(item) && v.name == ToText(rt, value)
    case EnumItem => value.Text? && exists v :: v in ItemValues(item) && v.name == value.text
    case NumberItem => item.path.None? && value.Number?
    case _ => item.path.None?
  }

  lemma CarriedValueReturns(rt: Runtime, item: Item, value: Value)
    requires Carries(rt, item, value) && (Enumerated(item) ==> UnambiguousValues(ItemValues(item)))
    ensures MapValueFromDevice(rt, item, MapValueToDevice(rt, item, value)) == value
    ensures Takes(rt, item, WireName(item), MapValueToDevice(rt, item, value))
  {
    if Enumerated(item) {
      SentValueIsFound(rt, item, value);
      LowerOfBooleanTexts();
    }
  }

  /** Behind the device, looking up the sent value finds the declared value it was sent for. */
  lemma SentValueIsFound(rt: Runtime, item: Item, value: Value)
    requires Enumerated(item) && UnambiguousValues(ItemValues(item))
    requires exists v :: v in ItemValues(item) && v.name == ToText(rt, value)
    ensures var values, text := ItemValues(item), ToText(rt, MapValueToDevice(rt, item, value));
            var found := OrElse(ValueByPath(values, text), ValueByName(values, text));
            && found.Some? && found.value in values && found.value.name == ToText(rt, value)
            && (found.value.path == Some(text) || found.value.name == text)
  {
    var values, text := ItemValues(item), ToText(rt, MapValueToDevice(rt, item, value));
    ValueByNameFinds(values, ToText(rt, value));
    ValueByPathFinds(values, text);
    ValueByNameFinds(values, text);
  }

  lemma LowerOfBooleanTexts()
    ensures ToLower("true") == "true" && ToLower("false") != "true"
  {
    assert "true"[1..] == "rue" && "rue"[1..] == "ue" && "ue"[1..] == "e" && "e"[1..] == "";
    assert ToLower("e") == "e" && ToLower("ue") == "ue" && ToLower("rue") == "rue";
    assert ToLower("false")[0] == 'f';
  }

  /** What the round trip needs: the fields are carried, or are foreign to every item. */
  ghost predicate CanTravel(rt: Runtime, config: Config, payload: Payload) {
    && UnambiguousControls(config.Items(Controls))
    && forall name :: name in payload ==>
         && (forall c :: c in config.Items(Commands) ==> c.name != name)
         && (forall item :: item in config.Items(Controls) && item.name == name ==> Carries(rt, item, payload[name]))
         && ((forall item :: item in config.Items(Controls) ==> item.name != name) ==>
               forall item :: item in config.Items(Controls) ==> WireName(item) != name)
  }

  lemma {:induction false} FindBehindCommands(commands: seq<Item>, controls: seq<Item>, name: string)
    requires forall c :: c in commands ==> c.name != name
    ensures FindByName(commands + controls, name) == FindByName(controls, name)
  {
    if commands == [] {
      assert commands + controls == controls;
    } else {
      assert (commands + controls)[1..] == commands[1..] + controls;
      FindBehindCommands(commands[1..], controls, name);
    }
  }

  lemma FieldReturns(rt: Runtime, config: Config, payload: Payload, name: string)
    requires CanTravel(rt, config, payload) && name in payload
    ensures FieldFromDevice(rt, config.Items(Controls),
                            FieldToDevice(rt, Settable(Some(config)), (name, payload[name])))
            == (name, payload[name])
  {
    var controls := config.Items(Controls);
    FindBehindCommands(config.Items(Commands), controls, name);
    FindByNameFinds(controls, name);
    var sent := FieldToDevice(rt, Settable(Some(config)), (name, payload[name]));
    FindConfigItemFinds(rt, controls, sent.0, sent.1);
    var item := FindByName(controls, name);
    if item.Some? {
      CarriedValueReturns(rt, item.value, payload[name]);
    }
  }

  lemma SentNamesDiffer(rt: Runtime, config: Config, payload: Payload, a: string, b: string)
    requires CanTravel(rt, config, payload) && a in payload && b in payload && a != b
    ensures var settable := Settable(Some(config));
            FieldToDevice(rt, settable, (a, payload[a])).0 != FieldToDevice(rt, settable, (b, payload[b])).0
  {
    forall name | name in [a, b]
      ensures FindByName(Settable(Some(config)), name) == FindByName(config.Items(Controls), name)
    {
      FindBehindCommands(config.Items(Commands), config.Items(Controls), name);
    }
    assert a in [a, b] && b in [a, b];
    FindByNameFinds(config.Items(Controls), a);
    FindByNameFinds(config.Items(Controls), b);
  }

  /** Mapping a controls payload to the device and what arrives there back again returns the payload. */
  lemma RoundTrip(rt: Runtime, config: Config, entries: Entries, payload: Payload, wire: Entries)
    requires CanTravel(rt, config, payload)
    requires EntriesOf(entries, payload) && EntriesOf(wire, ToDevice(rt, Some(config), entries))
    ensures FromDevice(rt, Some(config), Controls, wire) == payload
  {
    var settable, controls := Settable(Some(config)), config.Items(Controls);
    if settable != [] {
      var sent := Sent(rt, settable, entries);
      SentFields(rt, config, entries, payload);
      SentFieldsReturn(rt, controls, entries, sent, wire);
      if controls == [] {
        assert Returned(rt, controls, wire) == wire;
      }
    }
  }

  lemma SentFields(rt: Runtime, config: Config, entries: Entries, payload: Payload)
    requires CanTravel(rt, config, payload) && EntriesOf(entries, payload)
    ensures var sent := Sent(rt, Settable(Some(config)), entries);
            && DistinctKeys(sent)
            && forall i :: 0 <= i < |entries| ==> FieldFromDevice(rt, config.Items(Controls), sent[i]) == entries[i]
  {
    var sent := Sent(rt, Settable(Some(config)), entries);
    EntriesAreFields(entries, payload);
    forall i | 0 <= i < |entries|
      ensures FieldFromDevice(rt, config.Items(Controls), sent[i]) == entries[i]
    {
      assert entries[i] == (entries[i].0, payload[entries[i].0]);
      FieldReturns(rt, config, payload, entries[i].0);
    }
    forall i, j | 0 <= i < j < |sent|
      ensures sent[i].0 != sent[j].0
    {
      assert entries[i] == (entries[i].0, payload[entries[i].0]) && entries[j] == (entries[j].0, payload[entries[j].0]);
      SentNamesDiffer(rt, config, payload, entries[i].0, entries[j].0);
    }
  }

  lemma SentFieldsReturn(rt: Runtime, controls: seq<Item>, entries: Entries, sent: Entries, wire: Entries)
    requires DistinctKeys(entries) && DistinctKeys(sent) && |sent| == |entries|
    requires forall i :: 0 <= i < |entries| ==> FieldFromDevice(rt, controls, sent[i]) == entries[i]
    requires EntriesOf(wire, AssignAll(sent))
    ensures AssignAll(Returned(rt, controls, wire)) == AssignAll(entries)
  {
    EntriesOfSamePayload(wire, sent);
    ReturnedKeysDiffer(rt, controls, entries, sent, wire);
    ReturnedPairs(rt, controls, entries, sent, wire);
    SamePairs(Returned(rt, controls, wire), entries);
  }

  lemma ReturnedKeysDiffer(rt: Runtime, controls: seq<Item>, entries: Entries, sent: Entries, wire: Entries)
    requires DistinctKeys(entries) && |sent| == |entries| && PairsWithin(wire, sent) && DistinctKeys(wire)
    requires forall i :: 0 <= i < |entries| ==> FieldFromDevice(rt, controls, sent[i]) == entries[i]
    ensures DistinctKeys(Returned(rt, controls, wire))
  {
    var back := Returned(rt, controls, wire);
    forall i, k | 0 <= i < k < |back|
      ensures back[i].0 != back[k].0
    {
      var j := Origin(rt, controls, entries, sent, wire, i);
      var l := Origin(rt, controls, entries, sent, wire, k);
    }
  }

  lemma ReturnedPairs(rt: Runtime, controls: seq<Item>, entries: Entries, sent: Entries, wire: Entries)
    requires |sent| == |entries| && PairsWithin(wire, sent) && PairsWithin(sent, wire)
    requires forall i :: 0 <= i < |entries| ==> FieldFromDevice(rt, controls, sent[i]) == entries[i]
    ensures PairsWithin(Returned(rt, controls, wire), entries) && PairsWithin(entries, Returned(rt, controls, wire))
  {
    var back := Returned(rt, controls, wire);
    forall pair | pair in back
      ensures pair in entries
    {
      var i :| 0 <= i < |back| && back[i] == pair;
      var j := Origin(rt, controls, entries, sent, wire, i);
    }
    forall pair | pair in entries
      ensures pair in back
    {
      var j :| 0 <= j < |entries| && entries[j] == pair;
      assert sent[j] in sent;
      var i :| 0 <= i < |wire| && wire[i] == sent[j];
      assert back[i] == entries[j];
    }
  }

  lemma Origin(rt: Runtime, controls: seq<Item>, entries: Entries, sent: Entries, wire: Entries, i: nat)
    returns (j: nat)
    requires |sent| == |entries| && PairsWithin(wire, sent) && i < |wire|
    requires forall i :: 0 <= i < |entries| ==> FieldFromDevice(rt, controls, sent[i]) == entries[i]
    ensures j < |sent| && wire[i] == sent[j] && Returned(rt, controls, wire)[i] == entries[j]
  {
    assert wire[i] in sent;
    j :| 0 <= j < |sent| && sent[j] == wire[i];
  }

  /**
   * An item that is neither boolean nor enum but has a path is sent as its path, whatever its value: at most one value
   * can come back.
   */
  lemma PathHidesValue(rt: Runtime, item: Item, a: Value, b: Value)
    requires !Enumerated(item) && item.path.Some? && a != b
    ensures MapValueFromDevice(rt, item, MapValueToDevice(rt, item, a)) == a ==>
            MapValueFromDevice(rt, item, MapValueToDevice(rt, item, b)) != b
    ensures item.itemType.StringItem? ==>
              (MapValueFromDevice(rt, item, MapValueToDevice(rt, item, a)) == a <==> a == Text(item.path.value))
  {
    assert MapValueToDevice(rt, item, a) == MapValueToDevice(rt, item, b) == Text(item.path.value);
  }

  // ---------------------------------------------------------------------------------------------
  // Categorizing
  // ---------------------------------------------------------------------------------------------

  datatype Parsed = Parsed(commands: Payload, controls: Payload, measurements: Payload) {
    function Of(section: Section): Payload {
      match section
      case Commands => commands
      case Controls => controls
      case Measurements => measurements
    }

    function Assign(section: Section, name: string, value: Value): Parsed {
      match section
      case Commands => this.(commands := commands[name := value])
      case Controls => this.(controls := controls[name := value])
      case Measurements => this.(measurements := measurements[name := value])
    }
  }

  /** The first section with an item that takes the field, in the order commands, controls, measurements. */
  function SectionFor(rt: Runtime, config: Config, field: (string, Value)): Option<(Section, Item)> {
    var command := FindConfigItem(rt, config.Items(Commands), field.0, field.1);
    var control := FindConfigItem(rt, config.Items(Controls), field.0, field.1);
    var measurement := FindConfigItem(rt, config.Items(Measurements), field.0, field.1);
    if command.Some? then Some((Commands, command.value))
    else if control.Some? then Some((Controls, control.value))
    else if measurement.Some? then Some((Measurements, measurement.value))
    else None
  }

  /** The fields of one section, mapped, in the order in which they arrive. */
  function FieldsOf(rt: Runtime, config: Config, section: Section, entries: Entries): Entries {
    if entries == [] then []
    else
      var last := entries[|entries| - 1];
      var target := SectionFor(rt, config, last);
      FieldsOf(rt, config, section, entries[..|entries| - 1])
      + if target.Some? && target.value.0 == section
        then [(target.value.1.name, MapValueFromDevice(rt, target.value.1, last.1))] else []
  }

  function Dropped(rt: Runtime, config: Config, entries: Entries): seq<string> {
    if entries == [] then []
    else
      var last := entries[|entries| - 1];
      Dropped(rt, config, entries[..|entries| - 1]) + if SectionFor(rt, config, last).None? then [last.0] else []
  }

  lemma CategorizeStep(rt: Runtime, config: Config, section: Section, entries: Entries, i: nat)
    requires i < |entries|
    ensures var before := AssignAll(FieldsOf(rt, config, section, entries[..i]));
            var target := SectionFor(rt, config, entries[i]);
            AssignAll(FieldsOf(rt, config, section, entries[..i + 1]))
            == if target.Some? && target.value.0 == section
               then before[target.value.1.name := MapValueFromDevice(rt, target.value.1, entries[i].1)] else before
  {
    assert entries[..i + 1][..i] == entries[..i];
    var fields := FieldsOf(rt, config, section, entries[..i]);
    assert forall pair: (string, Value) :: (fields + [pair])[..|fields|] == fields;
    assert fields + [] == fields;
  }

  function Assigned(rt: Runtime, config: Config, parsed: Parsed, field: (string, Value)): Parsed {
    var target := SectionFor(rt, config, field);
    if target.None? then parsed
    else parsed.Assign(target.value.0, target.value.1.name, MapValueFromDevice(rt, target.value.1, field.1))
  }

  lemma CategorizeField(rt: Runtime, config: Config, entries: Entries, i: nat, before: Parsed, after: Parsed)
    requires i < |entries| && after == Assigned(rt, config, before, entries[i])
    requires forall section :: before.Of(section) == AssignAll(FieldsOf(rt, config, section, entries[..i]))
    ensures forall section :: after.Of(section) == AssignAll(FieldsOf(rt, config, section, entries[..i + 1]))
  {
    forall section
      ensures after.Of(section) == AssignAll(FieldsOf(rt, config, section, entries[..i + 1]))
    {
      CategorizeStep(rt, config, section, entries, i);
      assert before.Of(section) == AssignAll(FieldsOf(rt, config, section, entries[..i]));
    }
  }

  lemma DropField(rt: Runtime, config: Config, entries: Entries, i: nat)
    requires i < |entries|
    ensures Dropped(rt, config, entries[..i + 1])
            == Dropped(rt, config, entries[..i])
               + if SectionFor(rt, config, entries[i]).None? then [entries[i].0] else []
  {
    assert entries[..i + 1][..i] == entries[..i];
  }

  const SECTIONS := [Commands, Controls, Measurements]

  method CategorizeAndMap(rt: Runtime, config: Option<Config>, entries: Entries)
    returns (parsed: Parsed, dropped: seq<string>)
    ensures config.None? ==> parsed == Parsed(map[], map[], map[])
    ensures config.Some? ==>
              && (forall section :: parsed.Of(section) == AssignAll(FieldsOf(rt, config.value, section, entries)))
              && dropped == Dropped(rt, config.value, entries)
  {
    parsed, dropped := Parsed(map[], map[], map[]), [];
    if config == None {
      return;
    }
    for i := 0 to |entries|
      invariant forall section :: parsed.Of(section) == AssignAll(FieldsOf(rt, config.value, section, entries[..i]))
      invariant dropped == Dropped(rt, config.value, entries[..i])
    {
      var before, found := parsed, false;
      parsed, found := AssignToSection(rt, config.value, parsed, entries[i]);
      CategorizeField(rt, config.value, entries, i, before, parsed);
      DropField(rt, config.value, entries, i);
      if !found {
        dropped := dropped + [entries[i].0];
      }
    }
    assert entries[..|entries|] == entries;
  }

  method AssignToSection(rt: Runtime, config: Config, parsed: Parsed, field: (string, Value))
    returns (result: Parsed, found: bool)
    ensures found <==> SectionFor(rt, config, field).Some?
    ensures result == Assigned(rt, config, parsed, field)
  {
    for s := 0 to |SECTIONS|
      invariant forall t :: 0 <= t < s ==> FindConfigItem(rt, config.Items(SECTIONS[t]), field.0, field.1).None?
    {
      var item := FindConfigItem(rt, config.Items(SECTIONS[s]), field.0, field.1);
      if item.Some? {
        assert s >= 1 ==> SECTIONS[0] == Commands && SECTIONS[s - 1] == if s == 1 then Commands else Controls;
        return parsed.Assign(SECTIONS[s], item.value.name, MapValueFromDevice(rt, item.value, field.1)), true;
      }
    }
    assert SECTIONS[0] == Commands && SECTIONS[1] == Controls && SECTIONS[2] == Measurements;
    return parsed, false;
  }

  /** The field goes to the section, as this field of it. */
  ghost predicate GoesTo(rt: Runtime, config: Config, field: (string, Value), section: Section, item: Item) {
    SectionFor(rt, config, field) == Some((section, item))
  }

  lemma SectionForIsFirst(rt: Runtime, config: Config, field: (string, Value))
    ensures SectionFor(rt, config, field).Some? ==>
              var (section, item) := SectionFor(rt, config, field).value;
              && item in config.Items(section) && Takes(rt, item, field.0, field.1)
              && (section != Commands ==>
                    forall other :: other in config.Items(Commands) ==> !Takes(rt, other, field.0, field.1))
              && (section == Measurements ==>
                    forall other :: other in config.Items(Controls) ==> !Takes(rt, other, field.0, field.1))
    ensures SectionFor(rt, config, field).None? ==>
              forall section, other :: other in config.Items(section) ==> !Takes(rt, other, field.0, field.1)
  {
    FindConfigItemFinds(rt, config.Items(Commands), field.0, field.1);
    FindConfigItemFinds(rt, config.Items(Controls), field.0, field.1);
    FindConfigItemFinds(rt, config.Items(Measurements), field.0, field.1);
  }

  /** The mapped fields of a section are exactly those of the incoming fields that go there. */
  lemma {:induction false} FieldsOfSection(rt: Runtime, config: Config, section: Section, entries: Entries)
    ensures forall pair :: pair in FieldsOf(rt, config, section, entries) <==>
              exists i, item :: 0 <= i < |entries| && GoesTo(rt, config, entries[i], section, item)
                && pair == (item.name, MapValueFromDevice(rt, item, entries[i].1))
    decreases |entries|
  {
    if entries == [] {
    } else {
      var front, last := entries[..|entries| - 1], entries[|entries| - 1];
      FieldsOfSection(rt, config, section, front);
      assert forall i :: 0 <= i < |front| ==> front[i] == entries[i];
    }
  }

  lemma SameNameSameItem(items: seq<Item>, a: Item, b: Item)
    requires DistinctNames(items) && a in items && b in items && a.name == b.name
    ensures a == b
  {
    FindByNameFinds(items, a.name);
  }

  /** Two fields of one payload never end up under the same name of a section. */
  lemma {:induction false} FieldsOfDistinct(rt: Runtime, config: Config, section: Section, entries: Entries)
    requires DistinctKeys(entries) && DistinctNames(config.Items(section))
    ensures DistinctKeys(FieldsOf(rt, config, section, entries))
    decreases |entries|
  {
    if entries == [] {
    } else {
      var front, last := entries[..|entries| - 1], entries[|entries| - 1];
      FieldsOfDistinct(rt, config, section, front);
      FieldsOfSection(rt, config, section, front);
      var target := SectionFor(rt, config, last);
      if target.Some? && target.value.0 == section {
        var earlier := FieldsOf(rt, config, section, front);
        forall k | 0 <= k < |earlier|
          ensures earlier[k].0 != target.value.1.name
        {
          assert earlier[k] in earlier;
          var i, item :| 0 <= i < |front| && GoesTo(rt, config, front[i], section, item)
            && earlier[k] == (item.name, MapValueFromDevice(rt, item, front[i].1));
          SectionForIsFirst(rt, config, front[i]);
          SectionForIsFirst(rt, config, last);
          if item.name == target.value.1.name {
            SameNameSameItem(config.Items(section), item, target.value.1);
          }
        }
      }
    }
  }

  lemma {:induction false} PartitionSizes(rt: Runtime, config: Config, entries: Entries)
    ensures |FieldsOf(rt, config, Commands, entries)| + |FieldsOf(rt, config, Controls, entries)|
            + |FieldsOf(rt, config, Measurements, entries)| + |Dropped(rt, config, entries)| == |entries|
    decreases |entries|
  {
    if entries == [] {
    } else {
      PartitionSizes(rt, config, entries[..|entries| - 1]);
    }
  }

  ghost predicate DistinctSections(config: Config) {
    forall section :: DistinctNames(config.Items(section))
  }

  /**
   * Every field of a device payload is either dropped or found, mapped, in exactly one section: the first with an item
   * that takes it. No field is lost to another one, and nothing else is found.
   */
  lemma CategorizedExactlyOnce(rt: Runtime, config: Config, entries: Entries, parsed: Parsed)
    requires DistinctKeys(entries) && DistinctSections(config)
    requires forall section :: parsed.Of(section) == AssignAll(FieldsOf(rt, config, section, entries))
    ensures |parsed.commands| + |parsed.controls| + |parsed.measurements| + |Dropped(rt, config, entries)| == |entries|
    ensures forall i, section, item :: 0 <= i < |entries| && GoesTo(rt, config, entries[i], section, item) ==>
              Holds(parsed.Of(section), item.name, MapValueFromDevice(rt, item, entries[i].1))
    ensures forall section, name :: name in parsed.Of(section) ==> ComesFrom(rt, config, section, entries, name)
  {
    PartitionSizes(rt, config, entries);
    forall section
      ensures |parsed.Of(section)| == |FieldsOf(rt, config, section, entries)|
    {
      SectionSize(rt, config, section, entries);
    }
    assert parsed.Of(Commands) == parsed.commands && parsed.Of(Controls) == parsed.controls;
    assert parsed.Of(Measurements) == parsed.measurements;
    forall i, section, item | 0 <= i < |entries| && GoesTo(rt, config, entries[i], section, item)
      ensures Holds(parsed.Of(section), item.name, MapValueFromDevice(rt, item, entries[i].1))
    {
      RoutedFieldIsHeld(rt, config, section, entries, i, item);
    }
    forall section, name | name in parsed.Of(section)
      ensures ComesFrom(rt, config, section, entries, name)
    {
      HeldFieldIsRouted(rt, config, section, entries, name);
    }
  }

  predicate Holds(payload: Payload, name: string, value: Value) {
    name in payload && payload[name] == value
  }

  /** Some field goes to the section under this name. */
  ghost predicate ComesFrom(rt: Runtime, config: Config, section: Section, entries: Entries, name: string) {
    exists i, item :: 0 <= i < |entries| && GoesTo(rt, config, entries[i], section, item) && item.name == name
  }

  lemma SectionSize(rt: Runtime, config: Config, section: Section, entries: Entries)
    requires DistinctKeys(entries) && DistinctNames(config.Items(section))
    ensures |AssignAll(FieldsOf(rt, config, section, entries))| == |FieldsOf(rt, config, section, entries)|
  {
    FieldsOfDistinct(rt, config, section, entries);
    AssignedValues(FieldsOf(rt, config, section, entries));
  }

  lemma RoutedFieldIsHeld(rt: Runtime, config: Config, section: Section, entries: Entries, i: nat, item: Item)
    requires DistinctKeys(entries) && DistinctNames(config.Items(section))
    requires i < |entries| && GoesTo(rt, config, entries[i], section, item)
    ensures Holds(AssignAll(FieldsOf(rt, config, section, entries)), item.name,
                  MapValueFromDevice(rt, item, entries[i].1))
  {
    var pair := (item.name, MapValueFromDevice(rt, item, entries[i].1));
    FieldsOfDistinct(rt, config, section, entries);
    FieldsOfSection(rt, config, section, entries);
    assert pair in FieldsOf(rt, config, section, entries);
    PairIsAssigned(FieldsOf(rt, config, section, entries), pair);
  }

  lemma HeldFieldIsRouted(rt: Runtime, config: Config, section: Section, entries: Entries, name: string)
    requires name in AssignAll(FieldsOf(rt, config, section, entries))
    ensures ComesFrom(rt, config, section, entries, name)
  {
    var fields := FieldsOf(rt, config, section, entries);
    AssignedKeys(fields);
    var k :| 0 <= k < |fields| && fields[k].0 == name;
    FieldsOfSection(rt, config, section, entries);
    assert fields[k] in fields;
  }

  lemma PairIsAssigned(pairs: Entries, pair: (string, Value))
    requires DistinctKeys(pairs) && pair in pairs
    ensures Holds(AssignAll(pairs), pair.0, pair.1)
  {
    AssignedValues(pairs);
    var k :| 0 <= k < |pairs| && pairs[k] == pair;
  }

  /** A categorized boolean or enum value obeys its item, so sanitizing the section keeps it. */
  lemma CategorizedValueIsKept(rt: Runtime, config: Config, section: Section, item: Item, field: (string, Value),
                               payload: Payload)
    requires DistinctNames(config.Items(section)) && GoesTo(rt, config, field, section, item) && Enumerated(item)
    requires item.name != OVERRIDE
    requires item.name in payload && payload[item.name] == MapValueFromDevice(rt, item, field.1)
    ensures var kept := SanitizePayload(rt, RuleOf(config, section), payload);
            item.name in kept && kept[item.name] == payload[item.name]
  {
    SectionForIsFirst(rt, config, field);
    FindByNameFinds(config.Items(section), item.name);
    ValueByPathFinds(ItemValues(item), ToText(rt, field.1));
    ValueByNameFinds(ItemValues(item), ToText(rt, field.1));
  }
}
