/** Field values of device payloads (devices/interfaces): what JSON and the mapper can put into a payload. */
module Values {
  import opened Options

  /** Of objects and arrays only the identity and the kind matter here. */
  datatype Value =
    | Null
    | Undefined
    | Boolean(flag: bool)
    | Number(number: real)
    | NaN
    | Infinite(positive: bool)
    | Text(text: string)
    | Object(id: nat, isArray: bool)

  type Payload = map<string, Value>

  /** The fields of a payload in the order in which a loop meets them. */
  type Entries = seq<(string, Value)>

  /** The payloads stored for a device. */
  datatype Device = Device(controls: Option<Payload>, measurements: Option<Payload>)

  /** `payload[name]` */
  function Field(payload: Payload, name: string): Value {
    if name in payload then payload[name] else Undefined
  }

  /** `===` between a value of one document and a value of another: objects are never identical, NaN never equal. */
  predicate StrictlyEqual(a: Value, b: Value) {
    a == b && !a.Object? && !a.NaN?
  }

  predicate IsEmptyValue(v: Value) { v.Null? || v.Undefined? }

  predicate Truthy(v: Value) {
    match v
    case Null | Undefined | NaN => false
    case Boolean(flag) => flag
    case Number(n) => n != 0.0
    case Text(s) => s != ""
    case Infinite(_) | Object(_, _) => true
  }

  // ---------------------------------------------------------------------------------------------
  // Building payloads field by field
  // ---------------------------------------------------------------------------------------------

  /** The object after assigning all pairs in order: a later assignment to the same name wins. */
  function AssignAll(pairs: Entries): Payload {
    if pairs == [] then map[] else AssignAll(pairs[..|pairs| - 1])[pairs[|pairs| - 1].0 := pairs[|pairs| - 1].1]
  }

  ghost predicate DistinctKeys(pairs: Entries) {
    forall i, j :: 0 <= i < j < |pairs| ==> pairs[i].0 != pairs[j].0
  }

  /** `Object.entries(payload)` */
  ghost predicate EntriesOf(pairs: Entries, payload: Payload) {
    DistinctKeys(pairs) && AssignAll(pairs) == payload
  }

  lemma {:induction false} AssignedKeys(pairs: Entries)
    ensures forall k :: k in AssignAll(pairs) <==> exists i :: 0 <= i < |pairs| && pairs[i].0 == k
  {
    if pairs == [] {
    } else {
      var front, last := pairs[..|pairs| - 1], pairs[|pairs| - 1];
      AssignedKeys(front);
      forall k
        ensures k in AssignAll(pairs) <==> exists i :: 0 <= i < |pairs| && pairs[i].0 == k
      {
        assert (exists i :: 0 <= i < |front| && front[i].0 == k) ==>
                 exists i :: 0 <= i < |pairs| && pairs[i].0 == k by {
          if i :| 0 <= i < |front| && front[i].0 == k {
            assert pairs[i].0 == k;
          }
        }
        if i :| 0 <= i < |pairs| && pairs[i].0 == k {
          assert i < |front| ==> front[i].0 == k;
        }
      }
    }
  }

  /** With distinct names nothing is overwritten: every pair is in the object, and there is nothing else. */
  lemma {:induction false} AssignedValues(pairs: Entries)
    requires DistinctKeys(pairs)
    ensures forall i :: 0 <= i < |pairs| ==>
              pairs[i].0 in AssignAll(pairs) && AssignAll(pairs)[pairs[i].0] == pairs[i].1
    ensures |AssignAll(pairs)| == |pairs|
  {
    if pairs == [] {
    } else {
      var front, last := pairs[..|pairs| - 1], pairs[|pairs| - 1];
      AssignedValues(front);
      AssignedKeys(front);
      assert last.0 !in AssignAll(front);
      assert AssignAll(pairs).Keys == AssignAll(front).Keys + {last.0};
      forall i | 0 <= i < |pairs|
        ensures pairs[i].0 in AssignAll(pairs) && AssignAll(pairs)[pairs[i].0] == pairs[i].1
      {
        if i < |front| {
          assert front[i] == pairs[i];
        }
      }
    }
  }

  lemma NextEntryIsNew(pairs: Entries, i: nat)
    requires i < |pairs| && DistinctKeys(pairs)
    ensures pairs[i].0 !in AssignAll(pairs[..i])
    ensures AssignAll(pairs[..i + 1]) == AssignAll(pairs[..i])[pairs[i].0 := pairs[i].1]
  {
    AssignedKeys(pairs[..i]);
    assert pairs[..i + 1][..i] == pairs[..i];
  }

  /** Entries and fields of a payload are the same thing. */
  lemma EntriesAreFields(pairs: Entries, payload: Payload)
    requires EntriesOf(pairs, payload)
    ensures forall i :: 0 <= i < |pairs| ==> pairs[i].0 in payload && payload[pairs[i].0] == pairs[i].1
    ensures forall k :: k in payload ==> exists i :: 0 <= i < |pairs| && pairs[i] == (k, payload[k])
    ensures |payload| == |pairs|
  {
    AssignedKeys(pairs);
    AssignedValues(pairs);
    forall k | k in payload
      ensures exists i :: 0 <= i < |pairs| && pairs[i] == (k, payload[k])
    {
      var i :| 0 <= i < |pairs| && pairs[i].0 == k;
      assert pairs[i] == (k, payload[k]);
    }
  }

  ghost predicate PairsWithin(a: Entries, b: Entries) {
    forall pair :: pair in a ==> pair in b
  }

  /** The order in which distinct names are assigned does not matter. */
  lemma SamePairs(a: Entries, b: Entries)
    requires DistinctKeys(a) && DistinctKeys(b) && PairsWithin(a, b) && PairsWithin(b, a)
    ensures AssignAll(a) == AssignAll(b)
  {
    WithinAssigns(a, b);
    WithinAssigns(b, a);
  }

  lemma WithinAssigns(a: Entries, b: Entries)
    requires DistinctKeys(a) && DistinctKeys(b) && PairsWithin(a, b)
    ensures forall k :: k in AssignAll(a) ==> k in AssignAll(b) && AssignAll(b)[k] == AssignAll(a)[k]
  {
    AssignedKeys(a);
    AssignedValues(a);
    AssignedValues(b);
    forall k | k in AssignAll(a)
      ensures k in AssignAll(b) && AssignAll(b)[k] == AssignAll(a)[k]
    {
      var i :| 0 <= i < |a| && a[i].0 == k;
      assert a[i] in b;
      var j :| 0 <= j < |b| && b[j] == a[i];
      assert b[j].0 == k;
    }
  }

  /** Entry lists of one payload hold the same pairs. */
  lemma EntriesOfSamePayload(a: Entries, b: Entries)
    requires DistinctKeys(a) && DistinctKeys(b) && AssignAll(a) == AssignAll(b)
    ensures PairsWithin(a, b) && PairsWithin(b, a)
  {
    EntriesAreFields(a, AssignAll(a));
    EntriesAreFields(b, AssignAll(b));
  }
}
