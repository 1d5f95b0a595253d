/**
 * Device configurations and the checks of single values (device-configs/interfaces,
 * device-configs/validators/device-config-item.validators.ts, device-configs/device-configs-parser.service.ts).
 */
module DeviceConfigs {
  import opened Options
  import opened Values

  datatype ItemType = NumberItem | BooleanItem | StringItem | EnumItem | ObjectItem

  datatype Constraints = Constraints(
    min: Option<real>, max: Option<real>, integer: bool,
    minLength: Option<int>, maxLength: Option<int>, pattern: Option<string>, format: Option<string>)

  const NO_CONSTRAINTS := Constraints(None, None, false, None, None, None, None)

  datatype ItemValue = ItemValue(name: string, path: Option<string>)

  datatype Item = Item(
    name: string, itemType: ItemType, path: Option<string>, default: Option<Value>, required: bool,
    constraints: Option<Constraints>, values: Option<seq<ItemValue>>)

  datatype Section = Commands | Controls | Measurements

  datatype Config = Config(
    strict: Option<bool>, commands: Option<seq<Item>>, controls: Option<seq<Item>>, measurements: Option<seq<Item>>)
  {
    function Declared(section: Section): Option<seq<Item>> {
      match section
      case Commands => commands
      case Controls => controls
      case Measurements => measurements
    }

    function Items(section: Section): seq<Item> { GetOr(Declared(section), []) }
  }

  /**
   * What JavaScript and the validation library decide: texts of other values, numbers of texts, patterns and formats.
   */
  datatype Runtime = Runtime(
    numberText: real -> string,
    otherText: Value -> string,
    toNumber: Value -> Value,
    matches: (string, string) -> bool,
    hasFormat: (string, string) -> bool)

  /** `String(value)` */
  function ToText(rt: Runtime, v: Value): string {
    match v
    case Boolean(flag) => if flag then "true" else "false"
    case Text(s) => s
    case Number(n) => rt.numberText(n)
    case _ => rt.otherText(v)
  }

  /** `Number(value)`: abstract for everything that is not a number. */
  function ToNumber(rt: Runtime, v: Value): Value {
    if v.Number? || v.NaN? || v.Infinite? then v else rt.toNumber(v)
  }

  function FindByName(items: seq<Item>, name: string): Option<Item> {
    if items == [] then None
    else if items[0].name == name then Some(items[0])
    else FindByName(items[1..], name)
  }

  ghost predicate DistinctNames(items: seq<Item>) {
    forall i, j :: 0 <= i < j < |items| ==> items[i].name != items[j].name
  }

  lemma {:induction false} FindByNameFinds(items: seq<Item>, name: string)
    ensures FindByName(items, name).Some? <==> exists item :: item in items && item.name == name
    ensures FindByName(items, name).Some? ==>
              FindByName(items, name).value in items && FindByName(items, name).value.name == name
    ensures DistinctNames(items) ==> forall item :: item in items && item.name == name ==>
              FindByName(items, name) == Some(item)
  {
    if items == [] {
    } else {
      FindByNameFinds(items[1..], name);
    }
  }

  // ---------------------------------------------------------------------------------------------
  // Values
  // ---------------------------------------------------------------------------------------------

  datatype ItemError =
    | MustBeBoolean | MustBeNumber | MustBeInteger | BelowMinimum | AboveMaximum
    | MustBeString | TooShort | TooLong | PatternMismatch | FormatMismatch | NotAllowed | MustBeObject

  function ItemDefaultValue(item: Item): Value {
    GetOr(item.default, Null)
  }

  predicate IsInteger(n: real) { n.Floor as real == n }

  function ValidateNumberValue(item: Item, value: Value): Option<ItemError> {
    var c := GetOr(item.constraints, NO_CONSTRAINTS);
    if !value.Number? then Some(MustBeNumber)
    else if c.integer && !IsInteger(value.number) then Some(MustBeInteger)
    else if c.min.Some? && value.number < c.min.value then Some(BelowMinimum)
    else if c.max.Some? && value.number > c.max.value then Some(AboveMaximum)
    else None
  }

  function ValidateStringValue(rt: Runtime, item: Item, value: Value): Option<ItemError> {
    var c := GetOr(item.constraints, NO_CONSTRAINTS);
    if !value.Text? then Some(MustBeString)
    else if c.minLength.Some? && |value.text| < c.minLength.value then Some(TooShort)
    else if c.maxLength.Some? && |value.text| > c.maxLength.value then Some(TooLong)
    else if c.pattern.Some? && !rt.matches(c.pattern.value, value.text) then Some(PatternMismatch)
    else if c.format.Some? && !rt.hasFormat(c.format.value, value.text) then Some(FormatMismatch)
    else None
  }

  function ValidateEnumValue(rt: Runtime, item: Item, value: Value): Option<ItemError> {
    var values := GetOr(item.values, []);
    if values == [] then if value.Text? then None else Some(MustBeString)
    else if exists v :: v in values && v.name == ToText(rt, value) then None
    else Some(NotAllowed)
  }

  /** Empty values are accepted here. */
  function ValidateItemValue(rt: Runtime, item: Item, value: Value): Option<ItemError> {
    if IsEmptyValue(value) then None
    else
      match item.itemType
      case BooleanItem => if value.Boolean? then None else Some(MustBeBoolean)
      case NumberItem => ValidateNumberValue(item, value)
      case StringItem => ValidateStringValue(rt, item, value)
      case EnumItem => ValidateEnumValue(rt, item, value)
      case ObjectItem => if value.Object? && !value.isArray then None else Some(MustBeObject)
  }

  // ---------------------------------------------------------------------------------------------
  // What the declaration of an item says of its values
  // ---------------------------------------------------------------------------------------------

  ghost predicate IsWhole(n: real) { exists i: int :: AsReal(i) == n }

  function AsReal(i: int): real { i as real }

  ghost predicate WithinNumberConstraints(c: Constraints, n: real) {
    && (c.integer ==> IsWhole(n))
    && (c.min.Some? ==> c.min.value <= n)
    && (c.max.Some? ==> n <= c.max.value)
  }

  ghost predicate WithinTextConstraints(rt: Runtime, c: Constraints, text: string) {
    && (c.minLength.Some? ==> c.minLength.value <= |text|)
    && (c.maxLength.Some? ==> |text| <= c.maxLength.value)
    && (c.pattern.Some? ==> rt.matches(c.pattern.value, text))
    && (c.format.Some? ==> rt.hasFormat(c.format.value, text))
  }

  /** The value is one that the declaration of the item describes. */
  ghost predicate Obeys(rt: Runtime, item: Item, value: Value) {
    match item.itemType
    case BooleanItem => value in {Boolean(false), Boolean(true)}
    case NumberItem =>
      value.Number? && (item.constraints.Some? ==> WithinNumberConstraints(item.constraints.value, value.number))
    case StringItem =>
      value.Text? && (item.constraints.Some? ==> WithinTextConstraints(rt, item.constraints.value, value.text))
    case EnumItem =>
      if item.values.Some? && item.values.value != []
      then exists i :: 0 <= i < |item.values.value| && item.values.value[i].name == ToText(rt, value)
      else value.Text?
    case ObjectItem => value.Object? && !value.isArray
  }

  /** A value passes iff there is none or it is one the declaration describes. */
  lemma PassesIffObeys(rt: Runtime, item: Item, value: Value)
    ensures ValidateItemValue(rt, item, value).None? <==>
              value == Null || value == Undefined || Obeys(rt, item, value)
  {
    if value.Number? {
      WholeNumbers(value.number);
    }
  }

  lemma WholeNumbers(n: real)
    ensures IsInteger(n) <==> IsWhole(n)
  {
    assert AsReal(n.Floor) == n.Floor as real;
    if i: int :| AsReal(i) == n {
      assert n.Floor == i;
    }
  }

  /** The value breaks the rule that the error names. */
  predicate Breaks(rt: Runtime, item: Item, value: Value, error: ItemError) {
    var c := GetOr(item.constraints, NO_CONSTRAINTS);
    match error
    case MustBeBoolean => !value.Boolean?
    case MustBeNumber => !value.Number?
    case MustBeInteger => value.Number? && c.integer && !IsInteger(value.number)
    case BelowMinimum => value.Number? && c.min.Some? && value.number < c.min.value
    case AboveMaximum => value.Number? && c.max.Some? && c.max.value < value.number
    case MustBeString => !value.Text?
    case TooShort => value.Text? && c.minLength.Some? && |value.text| < c.minLength.value
    case TooLong => value.Text? && c.maxLength.Some? && c.maxLength.value < |value.text|
    case PatternMismatch => value.Text? && c.pattern.Some? && !rt.matches(c.pattern.value, value.text)
    case FormatMismatch => value.Text? && c.format.Some? && !rt.hasFormat(c.format.value, value.text)
    case NotAllowed => forall v :: v in GetOr(item.values, []) ==> v.name != ToText(rt, value)
    case MustBeObject => !value.Object? || value.isArray
  }

  /** The rules of a type, in the order in which they are checked. */
  function RulesOf(item: Item): seq<ItemError> {
    match item.itemType
    case BooleanItem => [MustBeBoolean]
    case NumberItem => [MustBeNumber, MustBeInteger, BelowMinimum, AboveMaximum]
    case StringItem => [MustBeString, TooShort, TooLong, PatternMismatch, FormatMismatch]
    case EnumItem => if GetOr(item.values, []) == [] then [MustBeString] else [NotAllowed]
    case ObjectItem => [MustBeObject]
  }

  /** The error reported for a value is the first broken rule of its item. */
  lemma FirstBrokenRuleIsReported(rt: Runtime, item: Item, value: Value, k: nat)
    requires !IsEmptyValue(value) && k < |RulesOf(item)|
    ensures ValidateItemValue(rt, item, value) == Some(RulesOf(item)[k]) <==>
              && Breaks(rt, item, value, RulesOf(item)[k])
              && forall j :: 0 <= j < k ==> !Breaks(rt, item, value, RulesOf(item)[j])
  {
    var rules, reported := RulesOf(item), ValidateItemValue(rt, item, value);
    forall j | 0 <= j < k && reported == Some(rules[k])
      ensures !Breaks(rt, item, value, rules[j])
    {
      assert j == 0 || j == 1 || j == 2 || j == 3;
    }
    if Breaks(rt, item, value, rules[k]) && forall j :: 0 <= j < k ==> !Breaks(rt, item, value, rules[j]) {
      assert k > 0 ==> !Breaks(rt, item, value, rules[0]);
      assert k > 1 ==> !Breaks(rt, item, value, rules[1]);
      assert k > 2 ==> !Breaks(rt, item, value, rules[2]);
      assert k > 3 ==> !Breaks(rt, item, value, rules[3]);
    }
  }

  // ---------------------------------------------------------------------------------------------
  // Defaults
  // ---------------------------------------------------------------------------------------------

  /** A declared default is kept only if it obeys the rules of its own item. */
  function NormalizeDefault(rt: Runtime, item: Item, default: Value): Item {
    if IsEmptyValue(default) || ValidateItemValue(rt, item, default).Some? then item.(default := None)
    else item.(default := Some(default))
  }

  ghost predicate DefaultsValid(rt: Runtime, items: seq<Item>) {
    forall item :: item in items ==> ValidateItemValue(rt, item, ItemDefaultValue(item)).None?
  }

  /** Items that went through the parser have defaults that pass their own checks, whatever the file declares. */
  lemma ParsedDefaultsAreValid(rt: Runtime, items: seq<Item>, declared: seq<(Item, Value)>)
    requires |items| == |declared|
    requires forall i :: 0 <= i < |items| ==> items[i] == NormalizeDefault(rt, declared[i].0, declared[i].1)
    ensures DefaultsValid(rt, items)
  {
    forall item | item in items
      ensures ValidateItemValue(rt, item, ItemDefaultValue(item)).None?
    {
      var i :| 0 <= i < |items| && items[i] == item;
      assert items[i] == NormalizeDefault(rt, declared[i].0, declared[i].1);
    }
  }

  /** A declared default is kept iff the item's declaration describes it, and nothing else of the item changes. */
  lemma DefaultIsKeptIff(rt: Runtime, item: Item, default: Value)
    ensures var parsed := NormalizeDefault(rt, item, default);
            && parsed.default == (if default in {Null, Undefined} || !Obeys(rt, item, default) then None
                                  else Some(default))
            && parsed.(default := item.default) == item
  {
    PassesIffObeys(rt, item, default);
  }
}
