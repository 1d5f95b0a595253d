/**
 * Validating and sanitizing payloads against a device configuration
 * (device-configs/device-configs-validator.service.ts).
 */
module PayloadValidator {
  import opened Options
  import opened Sequences
  import opened Values
  import opened DeviceConfigs

  const OVERRIDE := "$override"

  datatype Policy = Reject | Sanitize

  datatype Problem = UnknownField | Violates(error: ItemError) | Required

  datatype FieldError = FieldError(name: string, problem: Problem)

  datatype Validation = Accepted(payload: Payload) | Rejected(errors: seq<FieldError>)

  /** The section's items and whether names they do not declare are errors. */
  datatype Rule = Rule(items: seq<Item>, strict: bool)

  function RuleOf(config: Config, section: Section): Rule {
    Rule(config.Items(section), config.strict != Some(false))
  }

  function ValidateField(rt: Runtime, rule: Rule, name: string, value: Value): Option<Problem> {
    var item := FindByName(rule.items, name);
    if item.None? then if rule.strict then Some(UnknownField) else None
    else
      var error := ValidateItemValue(rt, item.value, value);
      if error.Some? then Some(Violates(error.value)) else None
  }

  /** `$override` is not a field. */
  predicate FieldPasses(rt: Runtime, rule: Rule, name: string, value: Value) {
    name != OVERRIDE && ValidateField(rt, rule, name, value).None?
  }

  function FieldErrors(rt: Runtime, rule: Rule, entries: Entries): seq<FieldError> {
    if entries == [] then []
    else
      var (name, value) := entries[0];
      ErrorOf(rt, rule, name, value) + FieldErrors(rt, rule, entries[1..])
  }

  function ErrorOf(rt: Runtime, rule: Rule, name: string, value: Value): seq<FieldError> {
    var problem := if name == OVERRIDE then None else ValidateField(rt, rule, name, value);
    if problem.Some? then [FieldError(name, problem.value)] else []
  }

  lemma FieldErrorsFrom(rt: Runtime, rule: Rule, entries: Entries, i: nat)
    requires i < |entries|
    ensures FieldErrors(rt, rule, entries[i..])
            == ErrorOf(rt, rule, entries[i].0, entries[i].1) + FieldErrors(rt, rule, entries[i + 1..])
  {
    assert entries[i..][0] == entries[i] && entries[i..][1..] == entries[i + 1..];
  }

  function RequiredErrors(items: seq<Item>, payload: Payload): seq<FieldError> {
    if items == [] then []
    else
      (if items[0].required && IsEmptyValue(Field(payload, items[0].name)) then [FieldError(items[0].name, Required)]
       else [])
         + RequiredErrors(items[1..], payload)
  }

  function OverrideFlag(flag: Value): Value {
    Boolean(flag == Boolean(true) || flag == Text("true"))
  }

  function NormalizeOverride(payload: Payload, source: Payload): Payload {
    if OVERRIDE in source then payload[OVERRIDE := OverrideFlag(source[OVERRIDE])] else payload
  }

  /** The fields of a payload that pass, without `$override`. */
  function PassingFields(rt: Runtime, rule: Rule, payload: Payload): Payload {
    map name | name in payload && FieldPasses(rt, rule, name, payload[name]) :: payload[name]
  }

  function SanitizePayload(rt: Runtime, rule: Rule, payload: Payload): Payload {
    NormalizeOverride(PassingFields(rt, rule, payload), payload)
  }

  ghost predicate HasErrors(rt: Runtime, rule: Rule, payload: Payload) {
    || (exists name :: name in payload && name != OVERRIDE && !FieldPasses(rt, rule, name, payload[name]))
    || (exists item :: item in rule.items && item.required && IsEmptyValue(Field(payload, item.name)))
  }

  // ---------------------------------------------------------------------------------------------
  // The service
  // ---------------------------------------------------------------------------------------------

  method CollectErrors(rt: Runtime, rule: Rule, entries: Entries, payload: Payload, strictPresence: bool)
    returns (errors: seq<FieldError>)
    requires EntriesOf(entries, payload)
    ensures errors == FieldErrors(rt, rule, entries)
                      + if strictPresence then RequiredErrors(rule.items, payload) else []
  {
    errors := [];
    for i := 0 to |entries|
      invariant errors + FieldErrors(rt, rule, entries[i..]) == FieldErrors(rt, rule, entries)
    {
      FieldErrorsFrom(rt, rule, entries, i);
      var (name, value) := entries[i];
      Associate(errors, ErrorOf(rt, rule, name, value), FieldErrors(rt, rule, entries[i + 1..]));
      if name != OVERRIDE {
        var problem := ValidateField(rt, rule, name, value);
        if problem.Some? {
          errors := errors + [FieldError(name, problem.value)];
        }
      }
    }
    assert entries[|entries|..] == [];
    if strictPresence {
      errors := errors + RequiredErrors(rule.items, payload);
    }
  }

  function AllErrors(rt: Runtime, rule: Rule, entries: Entries, payload: Payload): seq<FieldError> {
    FieldErrors(rt, rule, entries) + RequiredErrors(rule.items, payload)
  }

  /** The errors collected for a payload are empty exactly if the payload breaks no rule. */
  lemma NoErrorsIffRulesKept(rt: Runtime, rule: Rule, entries: Entries, payload: Payload)
    requires EntriesOf(entries, payload)
    ensures AllErrors(rt, rule, entries, payload) == [] <==> !HasErrors(rt, rule, payload)
  {
    EntriesAreFields(entries, payload);
    FieldErrorsEmpty(rt, rule, entries);
    RequiredErrorsEmpty(rule.items, payload);
  }

  lemma {:induction false} FieldErrorsEmpty(rt: Runtime, rule: Rule, entries: Entries)
    ensures FieldErrors(rt, rule, entries) == [] <==>
            forall i :: 0 <= i < |entries| && entries[i].0 != OVERRIDE ==>
              FieldPasses(rt, rule, entries[i].0, entries[i].1)
  {
    if entries == [] {
    } else {
      FieldErrorsEmpty(rt, rule, entries[1..]);
      assert forall i :: 1 <= i < |entries| ==> entries[1..][i - 1] == entries[i];
      var (name, value) := entries[0];
      assert entries[0].0 == name && entries[0].1 == value;
    }
  }

  lemma {:induction false} RequiredErrorsEmpty(items: seq<Item>, payload: Payload)
    ensures RequiredErrors(items, payload) == [] <==>
            forall item :: item in items && item.required ==> !IsEmptyValue(Field(payload, item.name))
  {
    if items == [] {
    } else {
      RequiredErrorsEmpty(items[1..], payload);
      assert forall item :: item in items <==> item == items[0] || item in items[1..];
    }
  }

  method SanitizeInPlace(rt: Runtime, rule: Rule, entries: Entries, payload: Payload) returns (sanitized: Payload)
    requires EntriesOf(entries, payload)
    ensures sanitized == SanitizePayload(rt, rule, payload)
  {
    sanitized := map[];
    for i := 0 to |entries|
      invariant sanitized == PassingFields(rt, rule, AssignAll(entries[..i]))
    {
      var (name, value) := entries[i];
      NextEntryIsNew(entries, i);
      PassingFieldsStep(rt, rule, AssignAll(entries[..i]), name, value);
      if name != OVERRIDE {
        if ValidateField(rt, rule, name, value).None? {
          sanitized := sanitized[name := value];
        }
      }
    }
    assert entries[..|entries|] == entries;
    if OVERRIDE in payload {
      sanitized := sanitized[OVERRIDE := OverrideFlag(payload[OVERRIDE])];
    }
  }

  lemma PassingFieldsStep(rt: Runtime, rule: Rule, payload: Payload, name: string, value: Value)
    requires name !in payload
    ensures var before := PassingFields(rt, rule, payload);
            PassingFields(rt, rule, payload[name := value])
            == if FieldPasses(rt, rule, name, value) then before[name := value] else before
  {
  }

  /** `entries` is the order in which the payload's fields are visited. */
  method ValidateSection(rt: Runtime, config: Option<Config>, section: Section, entries: Entries, payload: Payload,
                         policy: Policy)
    returns (result: Validation)
    requires EntriesOf(entries, payload)
    ensures result == Validated(rt, config, section, entries, payload, policy)
  {
    if config == None || config.value.Declared(section) == None {
      return Accepted(payload);
    }
    var rule := RuleOf(config.value, section);
    if policy == Reject {
      var errors := CollectErrors(rt, rule, entries, payload, true);
      if errors != [] {
        return Rejected(errors);
      }
      return Accepted(NormalizeOverride(payload, payload));
    }
    var sanitized := SanitizeInPlace(rt, rule, entries, payload);
    return Accepted(sanitized);
  }

  ghost function Validated(rt: Runtime, config: Option<Config>, section: Section, entries: Entries, payload: Payload,
                           policy: Policy): Validation
    requires EntriesOf(entries, payload)
  {
    if config.None? || config.value.Declared(section).None? then Accepted(payload)
    else
      var rule := RuleOf(config.value, section);
      var errors := AllErrors(rt, rule, entries, payload);
      if policy == Sanitize then Accepted(SanitizePayload(rt, rule, payload))
      else if errors != [] then Rejected(errors)
      else Accepted(NormalizeOverride(payload, payload))
  }

  // ---------------------------------------------------------------------------------------------
  // What the checks mean
  // ---------------------------------------------------------------------------------------------

  /** The item at position `i` is the first of this name. */
  ghost predicate IsFirstNamed(items: seq<Item>, name: string, i: nat)
    requires i < |items|
  {
    items[i].name == name && forall j :: 0 <= j < i ==> items[j].name != name
  }

  lemma {:induction false} FirstNamedIsFound(items: seq<Item>, name: string, i: nat)
    requires i < |items|
    ensures IsFirstNamed(items, name, i) ==> FindByName(items, name) == Some(items[i])
  {
    if i == 0 {
    } else {
      FirstNamedIsFound(items[1..], name, i - 1);
      assert IsFirstNamed(items, name, i) ==> items[0].name != name;
      assert IsFirstNamed(items, name, i) ==> IsFirstNamed(items[1..], name, i - 1);
    }
  }

  lemma UndeclaredIsNotFound(items: seq<Item>, name: string)
    requires forall item :: item in items ==> item.name != name
    ensures FindByName(items, name).None?
  {
    FindByNameFinds(items, name);
  }

  /**
   * A field passes iff there is no value or one that the first item of its name describes; a field that the section
   * does not declare passes only if the configuration says that it is not strict.
   */
  lemma FieldPassesIff(rt: Runtime, config: Config, section: Section, name: string, value: Value)
    ensures var items, passes := config.Items(section), FieldPasses(rt, RuleOf(config, section), name, value);
            && (forall i :: 0 <= i < |items| && IsFirstNamed(items, name, i) ==>
                  (passes <==> name != "$override" && (value in {Null, Undefined} || Obeys(rt, items[i], value))))
            && ((forall item :: item in items ==> item.name != name) ==>
                  (passes <==> name != "$override" && config.strict == Some(false)))
  {
    var items := config.Items(section);
    forall i | 0 <= i < |items| && IsFirstNamed(items, name, i)
      ensures FieldPasses(rt, RuleOf(config, section), name, value) <==>
              name != "$override" && (value in {Null, Undefined} || Obeys(rt, items[i], value))
    {
      FirstNamedIsFound(items, name, i);
      PassesIffObeys(rt, items[i], value);
    }
    if forall item :: item in items ==> item.name != name {
      UndeclaredIsNotFound(items, name);
    }
  }

  /** The field has this problem. */
  ghost predicate HasProblem(rt: Runtime, rule: Rule, name: string, value: Value, problem: Problem) {
    && name != "$override"
    && match problem
       case UnknownField => rule.strict && forall item :: item in rule.items ==> item.name != name
       case Violates(error) =>
         exists i :: 0 <= i < |rule.items| && IsFirstNamed(rule.items, name, i)
                  && ValidateItemValue(rt, rule.items[i], value) == Some(error)
       case Required => false
  }

  ghost predicate IsMissing(items: seq<Item>, payload: Payload, name: string) {
    && (exists item :: item in items && item.required && item.name == name)
    && (name !in payload || payload[name] in {Null, Undefined})
  }

  lemma {:induction false} FoundIsFirst(items: seq<Item>, name: string) returns (i: nat)
    requires FindByName(items, name).Some?
    ensures i < |items| && IsFirstNamed(items, name, i) && FindByName(items, name) == Some(items[i])
  {
    if items[0].name == name {
      i := 0;
    } else {
      i := FoundIsFirst(items[1..], name);
      i := i + 1;
    }
  }

  lemma ProblemsOfField(rt: Runtime, rule: Rule, name: string, value: Value, e: FieldError)
    ensures e in ErrorOf(rt, rule, name, value) <==> e.name == name && HasProblem(rt, rule, name, value, e.problem)
  {
    if FindByName(rule.items, name).Some? {
      var i := FoundIsFirst(rule.items, name);
      forall k | 0 <= k < |rule.items| && IsFirstNamed(rule.items, name, k)
        ensures k == i
      {
      }
    } else {
      FindByNameFinds(rule.items, name);
    }
  }

  lemma {:induction false} FieldErrorsAre(rt: Runtime, rule: Rule, entries: Entries, e: FieldError)
    ensures e in FieldErrors(rt, rule, entries) <==>
              exists i :: 0 <= i < |entries| && entries[i].0 == e.name
                       && HasProblem(rt, rule, entries[i].0, entries[i].1, e.problem)
  {
    if entries == [] {
    } else {
      var (name, value) := entries[0];
      ProblemsOfField(rt, rule, name, value, e);
      FieldErrorsAre(rt, rule, entries[1..], e);
      assert forall i :: 1 <= i < |entries| ==> entries[i] == entries[1..][i - 1];
      assert entries[0].0 == name && entries[0].1 == value;
    }
  }

  lemma {:induction false} RequiredErrorsAre(items: seq<Item>, payload: Payload, e: FieldError)
    ensures e in RequiredErrors(items, payload) <==> e.problem == Required && IsMissing(items, payload, e.name)
  {
    if items == [] {
    } else {
      RequiredErrorsAre(items[1..], payload, e);
      assert forall item :: item in items <==> item == items[0] || item in items[1..];
    }
  }

  /** What is reported of a payload: the problem of each field, and each required item that is missing. */
  lemma ReportedErrors(rt: Runtime, rule: Rule, entries: Entries, payload: Payload, e: FieldError)
    requires EntriesOf(entries, payload)
    ensures e in AllErrors(rt, rule, entries, payload) <==>
              || (e.problem == Required && IsMissing(rule.items, payload, e.name))
              || (e.name in payload && HasProblem(rt, rule, e.name, payload[e.name], e.problem))
  {
    EntriesAreFields(entries, payload);
    FieldErrorsAre(rt, rule, entries, e);
    RequiredErrorsAre(rule.items, payload, e);
    if e.name in payload {
      var i :| 0 <= i < |entries| && entries[i] == (e.name, payload[e.name]);
    }
  }

  /** Problems are listed in the order of the fields, at most one for each. */
  lemma {:induction false} FieldErrorsInOrder(rt: Runtime, rule: Rule, a: Entries, b: Entries)
    ensures FieldErrors(rt, rule, a + b) == FieldErrors(rt, rule, a) + FieldErrors(rt, rule, b)
    ensures |FieldErrors(rt, rule, a)| <= |a|
    decreases |a|
  {
    if a == [] {
      assert a + b == b;
    } else {
      assert (a + b)[0] == a[0] && (a + b)[1..] == a[1..] + b;
      FieldErrorsInOrder(rt, rule, a[1..], b);
      Associate(ErrorOf(rt, rule, a[0].0, a[0].1), FieldErrors(rt, rule, a[1..]), FieldErrors(rt, rule, b));
    }
  }

  /** Missing items are listed in the order of the items, at most once each. */
  lemma {:induction false} RequiredErrorsInOrder(a: seq<Item>, b: seq<Item>, payload: Payload)
    ensures RequiredErrors(a + b, payload) == RequiredErrors(a, payload) + RequiredErrors(b, payload)
    ensures |RequiredErrors(a, payload)| <= |a|
    decreases |a|
  {
    if a == [] {
      assert a + b == b;
    } else {
      assert (a + b)[0] == a[0] && (a + b)[1..] == a[1..] + b;
      RequiredErrorsInOrder(a[1..], b, payload);
    }
  }

  // ---------------------------------------------------------------------------------------------
  // What sanitizing means
  // ---------------------------------------------------------------------------------------------

  ghost predicate SubPayload(a: Payload, b: Payload) {
    forall name :: name in a ==> name in b && a[name] == b[name]
  }

  /** No field of the payload is in error; `$override` is not a field. */
  ghost predicate Clean(rt: Runtime, rule: Rule, payload: Payload) {
    forall name :: name in payload ==> FieldPasses(rt, rule, name, payload[name])
  }

  /** Apart from `$override`, sanitizing returns the largest part of a payload without field errors. */
  lemma SanitizeIsLargest(rt: Runtime, rule: Rule, payload: Payload, part: Payload)
    ensures var kept := SanitizePayload(rt, rule, payload) - {OVERRIDE};
            && SubPayload(kept, payload) && Clean(rt, rule, kept)
            && (SubPayload(part, payload) && Clean(rt, rule, part) ==> SubPayload(part, kept))
  {
  }

  /** Sanitizing twice is sanitizing once, the override flag included. */
  lemma SanitizeIsIdempotent(rt: Runtime, rule: Rule, payload: Payload)
    ensures SanitizePayload(rt, rule, SanitizePayload(rt, rule, payload)) == SanitizePayload(rt, rule, payload)
  {
    var once := SanitizePayload(rt, rule, payload);
    assert PassingFields(rt, rule, once) == PassingFields(rt, rule, payload);
  }

  /** Both policies agree on every payload that is not rejected, and a payload is rejected iff it breaks a rule. */
  lemma PoliciesAgree(rt: Runtime, config: Config, section: Section, entries: Entries, payload: Payload)
    requires EntriesOf(entries, payload) && config.Declared(section).Some?
    ensures var rejecting := Validated(rt, Some(config), section, entries, payload, Reject);
            && (rejecting.Accepted? <==> !HasErrors(rt, RuleOf(config, section), payload))
            && (rejecting.Accepted? ==> rejecting == Validated(rt, Some(config), section, entries, payload, Sanitize))
  {
    var rule := RuleOf(config, section);
    NoErrorsIffRulesKept(rt, rule, entries, payload);
    if !HasErrors(rt, rule, payload) {
      SanitizeKeepsAll(rt, rule, payload);
    }
  }

  lemma SanitizeKeepsAll(rt: Runtime, rule: Rule, payload: Payload)
    requires !HasErrors(rt, rule, payload)
    ensures SanitizePayload(rt, rule, payload) == NormalizeOverride(payload, payload)
  {
  }
}
