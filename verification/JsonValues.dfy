/** JSON values with their fields in order, as JavaScript objects keep them. */
module JsonValues {
  import opened Wrappers

  /** `Inherited` is no JSON: it is what reading a name finds that every object inherits, such as a function. */
  datatype Json =
    | Null
    | Bool(truth: bool)
    | Num(number: real)
    | Str(text: string)
    | Arr(items: seq<Json>)
    | Obj(fields: seq<Field>)
    | Inherited(name: string)

  datatype Field = Field(key: string, value: Json)

  function Find(fields: seq<Field>, key: string): Option<Json> {
    if fields == [] then None
    else if fields[0].key == key then Some(fields[0].value)
    else Find(fields[1..], key)
  }

  /** Assignment: an existing key keeps its place, a new one goes last. */
  function Put(fields: seq<Field>, key: string, value: Json): seq<Field> {
    if fields == [] then [Field(key, value)]
    else if fields[0].key == key then [Field(key, value)] + fields[1..]
    else [fields[0]] + Put(fields[1..], key, value)
  }

  lemma {:induction false} FindPut(fields: seq<Field>, key: string, value: Json, other: string)
    ensures Find(Put(fields, key, value), other) == if other == key then Some(value) else Find(fields, other)
  {
    if fields != [] && fields[0].key != key {
      FindPut(fields[1..], key, value, other);
    }
  }

  lemma {:induction false} PutSame(fields: seq<Field>, key: string, value: Json)
    requires Find(fields, key) == Some(value)
    ensures Put(fields, key, value) == fields
  {
    var first, rest := fields[0], fields[1..];
    assert fields == [first] + rest;
    if first.key == key {
      assert first == Field(key, value);
    } else {
      PutSame(rest, key, value);
    }
  }
}
