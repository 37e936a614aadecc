/**
 * The document a watch is written to, as the sequence of named fields an
 * `XContentBuilder` receives. Encoding (JSON, CBOR, ...) is not modelled; a
 * value that another class serialises itself is kept as that object.
 */
module XContent {
  import opened Components
  import opened Status
  import opened Wrappers

  datatype Value =
    | Null
    | Text(text: string)
    | Number(n: int)
    | Object(fields: seq<Field>)
    | TriggerBody(trigger: Trigger)
    | InputBody(input: Input)
    | ConditionBody(condition: Condition)
    | TransformBody(transform: Transform)
    | ActionBody(action: ActionWrapper)
    | HumanDuration(duration: TimeValue)
    | MetadataBody(metadata: Metadata)
    | StatusBody(status: StatusView)

  datatype Field = Field(key: string, value: Value)

  /** The keys of the fields, in order. */
  function Keys(fields: seq<Field>): (keys: seq<string>)
    ensures |keys| == |fields|
    ensures forall i :: 0 <= i < |fields| ==> keys[i] == fields[i].key
  {
    if fields == [] then [] else [fields[0].key] + Keys(fields[1..])
  }

  /** Some field has this key. */
  predicate HasKey(fields: seq<Field>, key: string)
  {
    key in Keys(fields)
  }

  /** No key is written twice. */
  predicate DistinctKeys(fields: seq<Field>)
  {
    forall i, j :: 0 <= i < j < |fields| ==> fields[i].key != fields[j].key
  }

  /** No field's value is a null placeholder. */
  predicate NoNulls(fields: seq<Field>)
  {
    forall i :: 0 <= i < |fields| ==> fields[i].value != Null
  }

  lemma {:induction false} KeysAppend(a: seq<Field>, b: seq<Field>)
    ensures Keys(a + b) == Keys(a) + Keys(b)
  {
    if a == [] {
      assert a + b == b;
    } else {
      assert (a + b)[1..] == a[1..] + b;
      KeysAppend(a[1..], b);
    }
  }

  /** The position of the first field with this key, or |fields| when there is none. */
  function Find(fields: seq<Field>, key: string): (i: nat)
    ensures i <= |fields|
    ensures i < |fields| ==> fields[i].key == key
    ensures forall j :: 0 <= j < i ==> fields[j].key != key
  {
    if fields == [] then 0
    else if fields[0].key == key then 0
    else 1 + Find(fields[1..], key)
  }

  /** The value of the first field with this key, the way a reader of the document finds it. */
  function Lookup(fields: seq<Field>, key: string): (r: Option<Value>)
    ensures r.None? <==> !HasKey(fields, key)
  {
    var i := Find(fields, key);
    if i < |fields| then Some(fields[i].value) else None
  }

  lemma {:induction false} FindAppend(a: seq<Field>, b: seq<Field>, key: string)
    ensures Find(a + b, key) == if Find(a, key) < |a| then Find(a, key) else |a| + Find(b, key)
  {
    if a != [] {
      assert (a + b)[1..] == a[1..] + b;
      if a[0].key != key {
        FindAppend(a[1..], b, key);
      }
    } else {
      assert a + b == b;
    }
  }

  /** A key is looked up in the first part of a document before the second. */
  lemma LookupAppend(a: seq<Field>, b: seq<Field>, key: string)
    ensures Lookup(a + b, key) == if HasKey(a, key) then Lookup(a, key) else Lookup(b, key)
  {
    FindAppend(a, b, key);
    var i := Find(a, key);
    if i < |a| {
      assert (a + b)[i] == a[i];
    } else {
      if Find(b, key) < |b| {
        assert (a + b)[|a| + Find(b, key)] == b[Find(b, key)];
      }
    }
  }

  /** When keys are distinct, each field is what a lookup of its key finds. */
  lemma LookupDistinct(fields: seq<Field>, i: nat)
    requires DistinctKeys(fields) && i < |fields|
    ensures Lookup(fields, fields[i].key) == Some(fields[i].value)
  {
    assert Find(fields, fields[i].key) == i;
  }
}
