/** What the mapper makes of the fields of a payload, in terms of what the configuration declares. */
module MappedFields {
  import opened Options
  import opened Values
  import opened DeviceConfigs
  import opened PayloadValidator
  import opened PayloadMapper

  // ---------------------------------------------------------------------------------------------
  // Declared values
  // ---------------------------------------------------------------------------------------------

  /** Of the values with this name, the one at position `i` is the first. */
  ghost predicate IsFirstValueNamed(values: seq<ItemValue>, text: string, i: nat)
    requires i < |values|
  {
    values[i].name == text && forall j :: 0 <= j < i ==> values[j].name != text
  }

  ghost predicate IsFirstValueAt(values: seq<ItemValue>, path: string, i: nat)
    requires i < |values|
  {
    values[i].path == Some(path) && forall j :: 0 <= j < i ==> values[j].path != Some(path)
  }

  lemma {:induction false} FirstValueNamed(values: seq<ItemValue>, text: string, i: nat)
    requires i < |values| && IsFirstValueNamed(values, text, i)
    ensures ValueByName(values, text) == Some(values[i])
  {
    if i == 0 {
    } else {
      assert values[0].name != text;
      assert IsFirstValueNamed(values[1..], text, i - 1);
      FirstValueNamed(values[1..], text, i - 1);
    }
  }

  lemma {:induction false} FirstValueAt(values: seq<ItemValue>, path: string, i: nat)
    requires i < |values| && IsFirstValueAt(values, path, i)
    ensures ValueByPath(values, path) == Some(values[i])
  {
    if i == 0 {
    } else {
      assert values[0].path != Some(path);
      assert IsFirstValueAt(values[1..], path, i - 1);
      FirstValueAt(values[1..], path, i - 1);
    }
  }

  // ---------------------------------------------------------------------------------------------
  // To the device
  // ---------------------------------------------------------------------------------------------

  /** The value with a path is sent as its path; without a declared path, values are sent as they are. */
  ghost predicate SendsValue(rt: Runtime, item: Item, value: Value, sent: Value) {
    if item.itemType in {BooleanItem, EnumItem} then
      var values := GetOr(item.values, []);
      && (forall i :: 0 <= i < |values| && IsFirstValueNamed(values, ToText(rt, value), i) ==>
            sent == if values[i].path.Some? then Text(values[i].path.value) else value)
      && ((forall i :: 0 <= i < |values| ==> values[i].name != ToText(rt, value)) ==> sent == value)
    else sent == if item.path.Some? then Text(item.path.value) else value
  }

  lemma ValueIsSent(rt: Runtime, item: Item, value: Value)
    ensures SendsValue(rt, item, value, MapValueToDevice(rt, item, value))
  {
    if item.itemType in {BooleanItem, EnumItem} {
      var values, text := GetOr(item.values, []), ToText(rt, value);
      ValueByNameFinds(values, text);
      forall i | 0 <= i < |values| && IsFirstValueNamed(values, text, i)
        ensures ValueByName(values, text) == Some(values[i])
      {
        FirstValueNamed(values, text, i);
      }
    }
  }

  ghost predicate Undeclared(items: seq<Item>, name: string) {
    forall item :: item in items ==> item.name != name
  }

  /** The item sends the field under its path, or under its name if it has none. */
  ghost predicate Sends(rt: Runtime, item: Item, value: Value, wire: string, sent: Value) {
    wire == (if item.path.Some? then item.path.value else item.name) && SendsValue(rt, item, value, sent)
  }

  /** Commands are asked first, then controls; a field that neither declares is sent as it is. */
  ghost predicate IsSentAs(rt: Runtime, config: Config, name: string, value: Value, wire: string, sent: Value) {
    var commands, controls := GetOr(config.commands, []), GetOr(config.controls, []);
    && (forall i :: 0 <= i < |commands| && IsFirstNamed(commands, name, i) ==>
          Sends(rt, commands[i], value, wire, sent))
    && (forall i :: 0 <= i < |controls| && IsFirstNamed(controls, name, i) && Undeclared(commands, name) ==>
          Sends(rt, controls[i], value, wire, sent))
    && (Undeclared(commands, name) && Undeclared(controls, name) ==> wire == name && sent == value)
  }

  lemma {:induction false} FindAmongBoth(commands: seq<Item>, controls: seq<Item>, name: string)
    ensures FindByName(commands + controls, name)
            == if FindByName(commands, name).Some? then FindByName(commands, name) else FindByName(controls, name)
  {
    if commands == [] {
      assert commands + controls == controls;
    } else {
      assert (commands + controls)[1..] == commands[1..] + controls;
      FindAmongBoth(commands[1..], controls, name);
    }
  }

  lemma NamedItemFound(items: seq<Item>, name: string)
    ensures Undeclared(items, name) <==> FindByName(items, name).None?
    ensures forall i :: 0 <= i < |items| && IsFirstNamed(items, name, i) ==> FindByName(items, name) == Some(items[i])
  {
    FindByNameFinds(items, name);
    forall i | 0 <= i < |items| && IsFirstNamed(items, name, i)
      ensures FindByName(items, name) == Some(items[i])
    {
      FirstNamedIsFound(items, name, i);
    }
  }

  lemma FieldIsSent(rt: Runtime, config: Config, name: string, value: Value)
    ensures var field := FieldToDevice(rt, Settable(Some(config)), (name, value));
            IsSentAs(rt, config, name, value, field.0, field.1)
  {
    var commands, controls := GetOr(config.commands, []), GetOr(config.controls, []);
    FindAmongBoth(commands, controls, name);
    NamedItemFound(commands, name);
    NamedItemFound(controls, name);
    var item := FindByName(commands + controls, name);
    if item.Some? {
      ItemSends(rt, item.value, value);
    }
  }

  lemma ItemSends(rt: Runtime, item: Item, value: Value)
    ensures Sends(rt, item, value, WireName(item), MapValueToDevice(rt, item, value))
  {
    ValueIsSent(rt, item, value);
  }

  /** Every field of the payload arrives under the name and with the value it is sent as. */
  ghost predicate Arrives(rt: Runtime, config: Config, payload: Payload, mapped: Payload, name: string)
    requires name in payload
  {
    exists wire :: wire in mapped && IsSentAs(rt, config, name, payload[name], wire, mapped[wire])
  }

  /** Unless two fields are sent under one name, every field of a payload arrives at the device, and nothing else. */
  lemma PayloadIsSent(rt: Runtime, config: Config, entries: Entries, payload: Payload)
    requires EntriesOf(entries, payload) && DistinctKeys(Sent(rt, Settable(Some(config)), entries))
    ensures var mapped := ToDevice(rt, Some(config), entries);
            |mapped| == |payload| && forall name :: name in payload ==> Arrives(rt, config, payload, mapped, name)
  {
    var settable, mapped := Settable(Some(config)), ToDevice(rt, Some(config), entries);
    var sent := Sent(rt, settable, entries);
    EntriesAreFields(entries, payload);
    AssignedValues(sent);
    if settable == [] {
      assert sent == entries;
    }
    forall name | name in payload
      ensures Arrives(rt, config, payload, mapped, name)
    {
      var i :| 0 <= i < |entries| && entries[i] == (name, payload[name]);
      FieldIsSent(rt, config, name, payload[name]);
      assert sent[i].0 in mapped && mapped[sent[i].0] == sent[i].1;
    }
  }

  // ---------------------------------------------------------------------------------------------
  // From the device
  // ---------------------------------------------------------------------------------------------

  ghost predicate SpellsTrue(text: string) {
    |text| == 4 && text[0] in "tT" && text[1] in "rR" && text[2] in "uU" && text[3] in "eE"
  }

  lemma LowerIsTrueIff(text: string)
    ensures ToLower(text) == "true" <==> SpellsTrue(text)
  {
    LowerByCharacter(text);
    if ToLower(text) == "true" {
      assert ToLower(text)[0] == 't' && ToLower(text)[1] == 'r' && ToLower(text)[2] == 'u' && ToLower(text)[3] == 'e';
    }
  }

  lemma {:induction false} LowerByCharacter(text: string)
    ensures |ToLower(text)| == |text|
    ensures forall i :: 0 <= i < |text| ==>
              ToLower(text)[i] == if 'A' <= text[i] <= 'Z' then text[i] + ('a' - 'A') else text[i]
  {
    if text == [] {
    } else {
      LowerByCharacter(text[1..]);
    }
  }

  /** The value the hub has for a declared value: a boolean item is true iff the value's name spells "true". */
  ghost function Meant(item: Item, declared: ItemValue): Value {
    if item.itemType == BooleanItem then Boolean(SpellsTrue(declared.name)) else Text(declared.name)
  }

  /** Declared values are found by path and then by name, texts of numbers become numbers, other values stay. */
  ghost predicate ReceivesValue(rt: Runtime, item: Item, value: Value, received: Value) {
    var values, text := GetOr(item.values, []), ToText(rt, value);
    match item.itemType
    case NumberItem => received == if ToNumber(rt, value) == NaN then value else ToNumber(rt, value)
    case StringItem | ObjectItem => received == value
    case BooleanItem | EnumItem =>
      && (forall i :: 0 <= i < |values| && IsFirstValueAt(values, text, i) ==> received == Meant(item, values[i]))
      && (forall i :: 0 <= i < |values| && IsFirstValueNamed(values, text, i)
                      && (forall j :: 0 <= j < |values| ==> values[j].path != Some(text)) ==>
            received == Meant(item, values[i]))
      && ((forall i :: 0 <= i < |values| ==> values[i].path != Some(text) && values[i].name != text) ==>
            received == value)
  }

  lemma ValueIsReceived(rt: Runtime, item: Item, value: Value)
    ensures ReceivesValue(rt, item, value, MapValueFromDevice(rt, item, value))
  {
    if item.itemType in {BooleanItem, EnumItem} {
      MappedValueIsMeant(rt, item, value);
      DeclaredValueIsFound(GetOr(item.values, []), ToText(rt, value));
    }
  }

  lemma MappedValueIsMeant(rt: Runtime, item: Item, value: Value)
    requires item.itemType in {BooleanItem, EnumItem}
    ensures var values, text := GetOr(item.values, []), ToText(rt, value);
            MapValueFromDevice(rt, item, value)
            == if ValueByPath(values, text).Some? then Meant(item, ValueByPath(values, text).value)
               else if ValueByName(values, text).Some? then Meant(item, ValueByName(values, text).value)
               else value
  {
    var values, text := GetOr(item.values, []), ToText(rt, value);
    var mapped := OrElse(ValueByPath(values, text), ValueByName(values, text));
    if mapped.Some? {
      LowerIsTrueIff(mapped.value.name);
    }
  }

  lemma DeclaredValueIsFound(values: seq<ItemValue>, text: string)
    ensures (forall i :: 0 <= i < |values| ==> values[i].path != Some(text)) <==> ValueByPath(values, text).None?
    ensures (forall i :: 0 <= i < |values| ==> values[i].name != text) <==> ValueByName(values, text).None?
    ensures forall i :: 0 <= i < |values| && IsFirstValueAt(values, text, i) ==>
              ValueByPath(values, text) == Some(values[i])
    ensures forall i :: 0 <= i < |values| && IsFirstValueNamed(values, text, i) ==>
              ValueByName(values, text) == Some(values[i])
  {
    ValueByNameFinds(values, text);
    ValueByPathFinds(values, text);
    forall i | 0 <= i < |values| && IsFirstValueAt(values, text, i)
      ensures ValueByPath(values, text) == Some(values[i])
    {
      FirstValueAt(values, text, i);
    }
    forall i | 0 <= i < |values| && IsFirstValueNamed(values, text, i)
      ensures ValueByName(values, text) == Some(values[i])
    {
      FirstValueNamed(values, text, i);
    }
  }

  /** The field has the item's name on the device, and a boolean or enum item declares its value. */
  ghost predicate Recognizes(rt: Runtime, item: Item, name: string, value: Value) {
    && name == (if item.path.Some? then item.path.value else item.name)
    && (item.itemType in {BooleanItem, EnumItem} ==>
          && item.values.Some?
          && exists i :: 0 <= i < |item.values.value|
               && (item.values.value[i].path == Some(ToText(rt, value))
                   || item.values.value[i].name == ToText(rt, value)))
  }

  lemma TakesIffRecognizes(rt: Runtime, item: Item, name: string, value: Value)
    ensures Takes(rt, item, name, value) <==> Recognizes(rt, item, name, value)
  {
  }

  ghost predicate IsFirstRecognizing(rt: Runtime, items: seq<Item>, name: string, value: Value, i: nat)
    requires i < |items|
  {
    Recognizes(rt, items[i], name, value) && forall j :: 0 <= j < i ==> !Recognizes(rt, items[j], name, value)
  }

  ghost predicate Unrecognized(rt: Runtime, items: seq<Item>, name: string, value: Value) {
    forall i :: 0 <= i < |items| ==> !Recognizes(rt, items[i], name, value)
  }

  lemma {:induction false} FirstRecognizingIsFound(rt: Runtime, items: seq<Item>, name: string, value: Value, i: nat)
    requires i < |items| && IsFirstRecognizing(rt, items, name, value, i)
    ensures FindConfigItem(rt, items, name, value) == Some(items[i])
  {
    TakesIffRecognizes(rt, items[0], name, value);
    if i == 0 {
    } else {
      assert items[1..][i - 1] == items[i] && !Recognizes(rt, items[0], name, value);
      FirstRecognizingIsFound(rt, items[1..], name, value, i - 1);
    }
  }

  lemma UnrecognizedIsNotFound(rt: Runtime, items: seq<Item>, name: string, value: Value)
    ensures Unrecognized(rt, items, name, value) <==> FindConfigItem(rt, items, name, value).None?
  {
    FindConfigItemFinds(rt, items, name, value);
    forall item | item in items
      ensures Takes(rt, item, name, value) <==> Recognizes(rt, item, name, value)
    {
      TakesIffRecognizes(rt, item, name, value);
    }
  }

  lemma ItemFound(rt: Runtime, items: seq<Item>, name: string, value: Value)
    ensures Unrecognized(rt, items, name, value) <==> FindConfigItem(rt, items, name, value).None?
    ensures forall i :: 0 <= i < |items| && IsFirstRecognizing(rt, items, name, value, i) ==>
              FindConfigItem(rt, items, name, value) == Some(items[i])
  {
    UnrecognizedIsNotFound(rt, items, name, value);
    forall i | 0 <= i < |items| && IsFirstRecognizing(rt, items, name, value, i)
      ensures FindConfigItem(rt, items, name, value) == Some(items[i])
    {
      FirstRecognizingIsFound(rt, items, name, value, i);
    }
  }

  /** A field goes to the first command that recognizes it, else to the first such control, else measurement. */
  lemma FieldGoesToFirst(rt: Runtime, config: Config, name: string, value: Value)
    ensures var commands, controls := GetOr(config.commands, []), GetOr(config.controls, []);
            var measurements, target := GetOr(config.measurements, []), SectionFor(rt, config, (name, value));
            && (forall i :: 0 <= i < |commands| && IsFirstRecognizing(rt, commands, name, value, i) ==>
                  target == Some((Commands, commands[i])))
            && (Unrecognized(rt, commands, name, value) ==>
                  forall i :: 0 <= i < |controls| && IsFirstRecognizing(rt, controls, name, value, i) ==>
                    target == Some((Controls, controls[i])))
            && (Unrecognized(rt, commands, name, value) && Unrecognized(rt, controls, name, value) ==>
                  forall i :: 0 <= i < |measurements| && IsFirstRecognizing(rt, measurements, name, value, i) ==>
                    target == Some((Measurements, measurements[i])))
            && (target.None? <==> Unrecognized(rt, commands, name, value) && Unrecognized(rt, controls, name, value)
                                  && Unrecognized(rt, measurements, name, value))
  {
    ItemFound(rt, GetOr(config.commands, []), name, value);
    ItemFound(rt, GetOr(config.controls, []), name, value);
    ItemFound(rt, GetOr(config.measurements, []), name, value);
  }

  /** What arrives for a section is named after the first item that recognizes it; other fields stay as they are. */
  lemma FieldIsReceived(rt: Runtime, items: seq<Item>, name: string, value: Value)
    ensures var field := FieldFromDevice(rt, items, (name, value));
            && (forall i :: 0 <= i < |items| && IsFirstRecognizing(rt, items, name, value, i) ==>
                  field.0 == items[i].name && ReceivesValue(rt, items[i], value, field.1))
            && (Unrecognized(rt, items, name, value) ==> field == (name, value))
  {
    ItemFound(rt, items, name, value);
    var item := FindConfigItem(rt, items, name, value);
    if item.Some? {
      ValueIsReceived(rt, item.value, value);
    }
  }

  /**
   * A number that a device reports, as a number or as text, is kept by sanitizing iff it is within the bounds of its
   * item, and then it is stored as a number.
   */
  lemma ReportedNumberIsKeptIff(rt: Runtime, config: Config, section: Section, item: Item, field: (string, Value),
                                n: real, payload: Payload)
    requires DistinctNames(config.Items(section)) && GoesTo(rt, config, field, section, item)
    requires item.itemType.NumberItem? && item.name != OVERRIDE
    requires field.1 == Number(n) || (field.1.Text? && rt.toNumber(field.1) == Number(n))
    requires item.name in payload && payload[item.name] == MapValueFromDevice(rt, item, field.1)
    ensures var kept := SanitizePayload(rt, RuleOf(config, section), payload);
            if item.constraints.None? || WithinNumberConstraints(item.constraints.value, n)
            then item.name in kept && kept[item.name] == Number(n) else item.name !in kept
  {
    SectionForIsFirst(rt, config, field);
    FindByNameFinds(config.Items(section), item.name);
    PassesIffObeys(rt, item, Number(n));
    ValueIsReceived(rt, item, field.1);
  }
}
