/** The JSON Schema validator: defaults are filled in first, then the value is checked. */
module JsonSchema {
  import opened Wrappers
  import opened JsonValues
  import opened Decimals

  /** A schema as the validator reads it: a keyword of the wrong type reads as absent, and a schema that
      is not an object constrains nothing. */
  datatype Schema =
    | Anything
    | Keywords(
        kind: Option<string>, constant: Option<Json>, enumerated: Option<seq<Json>>,
        anyOf: Choices, oneOf: Choices,
        minLength: Option<real>, maxLength: Option<real>, pattern: Option<string>,
        minimum: Option<real>, maximum: Option<real>,
        minItems: Option<real>, items: Option<Schema>,
        properties: Properties, required: seq<string>, onlyListed: bool,
        fallback: Option<Json>)

  datatype Choices = NoChoices | Choices(schemas: seq<Schema>)

  datatype Properties = NoProperties | Properties(list: seq<Property>)

  datatype Property = Property(key: string, schema: Schema)

  datatype Issue = Issue(path: string, message: string)

  /** The names that every object inherits and a plain read therefore finds, such as `constructor`. */
  type Names = set<string>

  /** Reading a key: the object's own value, else what it inherits. */
  function Read(names: Names, fields: seq<Field>, key: string): Option<Json> {
    if Find(fields, key).None? && key in names then Some(Inherited(key)) else Find(fields, key)
  }

  predicate DistinctKeys(properties: seq<Property>) {
    if properties == [] then true
    else
      var shorter, last := properties[..|properties| - 1], properties[|properties| - 1];
      DistinctKeys(shorter) && forall p | p in shorter :: p.key != last.key
  }

  /** Property names of a parsed object are distinct, at every depth defaults can reach. */
  predicate WellFormed(schema: Schema) {
    schema.Anything?
    || (&& (schema.properties.Properties? ==>
              && DistinctKeys(schema.properties.list)
              && (forall p | p in schema.properties.list :: WellFormed(p.schema)))
        && (schema.items.Some? ==> WellFormed(schema.items.value)))
  }

  function ApplyDefaults(names: Names, schema: Schema, input: Json): Json
    decreases schema
  {
    if schema.Anything? then input
    else if schema.kind == Some("object") && schema.properties.Properties? then
      Obj(Fill(names, schema, schema.properties.list, if input.Obj? then input.fields else []))
    else if schema.kind == Some("array") && input.Arr? && schema.items.Some? then
      Arr(seq(|input.items|, i requires 0 <= i < |input.items| =>
          ApplyDefaults(names, schema.items.value, input.items[i])))
    else input
  }

  /** The properties in the order they are declared. */
  function Fill(names: Names, ghost owner: Schema, properties: seq<Property>, target: seq<Field>): seq<Field>
    requires forall p | p in properties :: p.schema < owner
    decreases owner, |properties|
  {
    if properties == [] then target
    else
      var last := properties[|properties| - 1];
      var rest := WithFallback(names, last, Fill(names, owner, properties[..|properties| - 1], target));
      match Read(names, rest, last.key)
      case None => rest
      case Some(value) => Put(rest, last.key, ApplyDefaults(names, last.schema, value))
  }

  function WithFallback(names: Names, p: Property, target: seq<Field>): seq<Field> {
    if Read(names, target, p.key).None? && p.schema.Keywords? && p.schema.fallback.Some?
        then Put(target, p.key, p.schema.fallback.value)
    else target
  }

  /** A property that a further pass leaves as it is. */
  ghost predicate Filled(names: Names, p: Property, target: seq<Field>) {
    match Find(target, p.key)
    case None => p.key !in names && (p.schema.Anything? || p.schema.fallback.None?)
    case Some(value) => ApplyDefaults(names, p.schema, value) == value
  }

  ghost predicate AllFilled(names: Names, properties: seq<Property>, target: seq<Field>) {
    properties == [] || (AllFilled(names, properties[..|properties| - 1], target)
        && Filled(names, properties[|properties| - 1], target))
  }

  lemma {:induction false} FillLeaves(names: Names, owner: Schema, properties: seq<Property>, target: seq<Field>)
    requires forall p | p in properties :: p.schema < owner
    requires AllFilled(names, properties, target)
    ensures Fill(names, owner, properties, target) == target
  {
    if properties != [] {
      var last := properties[|properties| - 1];
      assert last in properties;
      FillLeaves(names, owner, properties[..|properties| - 1], target);
      if Find(target, last.key).Some? { PutSame(target, last.key, Find(target, last.key).value); }
    }
  }

  lemma {:induction false} DefaultsAreIdempotent(names: Names, schema: Schema, input: Json)
    requires WellFormed(schema)
    ensures ApplyDefaults(names, schema, ApplyDefaults(names, schema, input)) == ApplyDefaults(names, schema, input)
    decreases schema
  {
    if schema.Anything? {
    } else if schema.kind == Some("object") && schema.properties.Properties? {
      var target := if input.Obj? then input.fields else [];
      FillFills(names, schema, schema.properties.list, target);
      FillLeaves(names, schema, schema.properties.list, Fill(names, schema, schema.properties.list, target));
    } else if schema.kind == Some("array") && input.Arr? && schema.items.Some? {
      forall i | 0 <= i < |input.items|
        ensures ApplyDefaults(names, schema.items.value, ApplyDefaults(names, schema.items.value, input.items[i]))
                  == ApplyDefaults(names, schema.items.value, input.items[i])
      {
        DefaultsAreIdempotent(names, schema.items.value, input.items[i]);
      }
    }
  }

  /** After a pass every property is filled. */
  lemma {:induction false} FillFills(names: Names, owner: Schema, properties: seq<Property>, target: seq<Field>)
    requires forall p | p in properties :: p.schema < owner && WellFormed(p.schema)
    requires DistinctKeys(properties)
    ensures AllFilled(names, properties, Fill(names, owner, properties, target))
    decreases owner, |properties|
  {
    if properties != [] {
      var shorter, last := properties[..|properties| - 1], properties[|properties| - 1];
      assert last in properties;
      FillFills(names, owner, shorter, target);
      FillsOne(names, owner, last, Fill(names, owner, shorter, target));
      OthersStayFilled(names, shorter, last, Fill(names, owner, shorter, target));
    }
  }

  lemma {:induction false} OthersStayFilled(names: Names, shorter: seq<Property>, last: Property, target: seq<Field>)
    requires AllFilled(names, shorter, target) && forall p | p in shorter :: p.key != last.key
    ensures AllFilled(names, shorter, FillOne(names, last, target))
  {
    if shorter != [] {
      var p := shorter[|shorter| - 1];
      assert p in shorter;
      OthersStayFilled(names, shorter[..|shorter| - 1], last, target);
      FillsOnlyOne(names, last, target, p.key);
    }
  }

  function FillOne(names: Names, p: Property, target: seq<Field>): seq<Field> {
    var rest := WithFallback(names, p, target);
    match Read(names, rest, p.key)
    case None => rest
    case Some(value) => Put(rest, p.key, ApplyDefaults(names, p.schema, value))
  }

  lemma FillsOne(names: Names, owner: Schema, p: Property, target: seq<Field>)
    requires p.schema < owner && WellFormed(p.schema)
    ensures Filled(names, p, FillOne(names, p, target))
    decreases owner, 0
  {
    var rest := WithFallback(names, p, target);
    if p.schema.Keywords? && p.schema.fallback.Some? { FindPut(target, p.key, p.schema.fallback.value, p.key); }
    match Read(names, rest, p.key)
    case None =>
    case Some(value) =>
      FindPut(rest, p.key, ApplyDefaults(names, p.schema, value), p.key);
      DefaultsAreIdempotent(names, p.schema, value);
  }

  lemma FillsOnlyOne(names: Names, p: Property, target: seq<Field>, other: string)
    requires other != p.key
    ensures Find(FillOne(names, p, target), other) == Find(target, other)
  {
    var rest := WithFallback(names, p, target);
    if p.schema.Keywords? && p.schema.fallback.Some? { FindPut(target, p.key, p.schema.fallback.value, other); }
    if Read(names, rest, p.key).Some? {
      FindPut(rest, p.key, ApplyDefaults(names, p.schema, Read(names, rest, p.key).value), other);
    }
  }

  /** What a pass makes of one property: a given value is filled in itself, a missing one gets its default, filled in,
      unless its name is inherited: then what is inherited is taken for the given value. */
  ghost function Declared(names: Names, p: Property, given: Option<Json>): Option<Json> {
    match given
    case Some(value) => Some(ApplyDefaults(names, p.schema, value))
    case None =>
      if p.key in names then Some(ApplyDefaults(names, p.schema, Inherited(p.key)))
      else if p.schema.Keywords? && p.schema.fallback.Some?
          then Some(ApplyDefaults(names, p.schema, p.schema.fallback.value)) else None
  }

  lemma FillOneDeclares(names: Names, p: Property, target: seq<Field>)
    ensures Find(FillOne(names, p, target), p.key) == Declared(names, p, Find(target, p.key))
  {
    var rest := WithFallback(names, p, target);
    if p.schema.Keywords? && p.schema.fallback.Some? { FindPut(target, p.key, p.schema.fallback.value, p.key); }
    if Read(names, rest, p.key).Some? {
      FindPut(rest, p.key, ApplyDefaults(names, p.schema, Read(names, rest, p.key).value), p.key);
    }
  }

  lemma {:induction false} FillDeclares(names: Names, owner: Schema, properties: seq<Property>, target: seq<Field>,
        i: nat)
    requires (forall p | p in properties :: p.schema < owner) && DistinctKeys(properties) && i < |properties|
    ensures Find(Fill(names, owner, properties, target), properties[i].key)
              == Declared(names, properties[i], Find(target, properties[i].key))
    decreases |properties|
  {
    var shorter, last := properties[..|properties| - 1], properties[|properties| - 1];
    var before := Fill(names, owner, shorter, target);
    assert Fill(names, owner, properties, target) == FillOne(names, last, before);
    if i < |properties| - 1 {
      FillDeclares(names, owner, shorter, target, i);
      assert shorter[i] in shorter;
      FillsOnlyOne(names, last, before, properties[i].key);
    } else {
      FillOneDeclares(names, last, before);
      FillTouchesOnlyDeclared(names, owner, shorter, target, last.key);
    }
  }

  lemma {:induction false} FillTouchesOnlyDeclared(names: Names, owner: Schema, properties: seq<Property>,
        target: seq<Field>, key: string)
    requires (forall p | p in properties :: p.schema < owner) && forall p | p in properties :: p.key != key
    ensures Find(Fill(names, owner, properties, target), key) == Find(target, key)
    decreases |properties|
  {
    if properties != [] {
      var shorter, last := properties[..|properties| - 1], properties[|properties| - 1];
      assert last in properties;
      FillTouchesOnlyDeclared(names, owner, shorter, target, key);
      assert Fill(names, owner, properties, target) == FillOne(names, last, Fill(names, owner, shorter, target));
      FillsOnlyOne(names, last, Fill(names, owner, shorter, target), key);
    }
  }

  /** The declared filling of an object: declared properties get what `Declared` says, every other key keeps its value,
      and an input that is no object counts as an empty one. */
  lemma DefaultsDeclared(names: Names, schema: Schema, input: Json)
    requires WellFormed(schema) && schema.Keywords? && schema.kind == Some("object") && schema.properties.Properties?
    ensures var given := if input.Obj? then input.fields else [];
            var r := ApplyDefaults(names, schema, input);
            && r.Obj?
            && (forall p | p in schema.properties.list ::
                Find(r.fields, p.key) == Declared(names, p, Find(given, p.key)))
            && (forall key | (forall p | p in schema.properties.list :: p.key != key) ::
                Find(r.fields, key) == Find(given, key))
  {
    var given := if input.Obj? then input.fields else [];
    var properties := schema.properties.list;
    forall p | p in properties
      ensures Find(Fill(names, schema, properties, given), p.key) == Declared(names, p, Find(given, p.key))
    {
      var i :| 0 <= i < |properties| && properties[i] == p;
      FillDeclares(names, schema, properties, given, i);
    }
    forall key | (forall p | p in properties :: p.key != key)
      ensures Find(Fill(names, schema, properties, given), key) == Find(given, key)
    {
      FillTouchesOnlyDeclared(names, schema, properties, given, key);
    }
  }

  /** Items are filled in one by one, and every other value stays as it is. */
  lemma DefaultsElsewhere(names: Names, schema: Schema, input: Json)
    ensures schema.Keywords? && schema.kind == Some("array") && input.Arr? && schema.items.Some? ==>
              var r := ApplyDefaults(names, schema, input);
              && r.Arr? && |r.items| == |input.items|
              && forall i | 0 <= i < |r.items| :: r.items[i] == ApplyDefaults(names, schema.items.value, input.items[i])
    ensures schema.Anything? || schema.kind.None?
            || (schema.kind.value == "object" && schema.properties.NoProperties?)
            || (schema.kind.value == "array" && (!input.Arr? || schema.items.None?))
            || schema.kind.value !in {"object", "array"} ==>
              ApplyDefaults(names, schema, input) == input
  {
  }

  method FillDefaults(names: Names, schema: Schema, input: Json) returns (r: Json)
    ensures r == ApplyDefaults(names, schema, input)
    decreases schema
  {
    if schema.Anything? { return input; }
    if schema.kind == Some("object") && schema.properties.Properties? {
      var properties := schema.properties.list;
      var target := if input.Obj? then input.fields else [];
      for i := 0 to |properties|
        invariant target == Fill(names, schema, properties[..i], if input.Obj? then input.fields else [])
      {
        var p := properties[i];
        assert properties[..i + 1][..i] == properties[..i];
        if Read(names, target, p.key).None? && p.schema.Keywords? && p.schema.fallback.Some? {
          target := Put(target, p.key, p.schema.fallback.value);
        }
        if Read(names, target, p.key).Some? {
          var filled := FillDefaults(names, p.schema, Read(names, target, p.key).value);
          target := Put(target, p.key, filled);
        }
      }
      assert properties[..|properties|] == properties;
      return Obj(target);
    }
    if schema.kind == Some("array") && input.Arr? && schema.items.Some? {
      var filled := [];
      for i := 0 to |input.items|
        invariant |filled| == i
        invariant forall k | 0 <= k < i :: filled[k] == ApplyDefaults(names, schema.items.value, input.items[k])
      {
        var item := FillDefaults(names, schema.items.value, input.items[i]);
        filled := filled + [item];
      }
      return Arr(filled);
    }
    return input;
  }

  /** Whether a pattern matches a text is a parameter. */
  type Regex = (string, string) -> bool

  /** Types the validator does not know accept every value. */
  predicate MatchesType(kind: string, value: Json) {
    if kind == "object" then value.Obj?
    else if kind == "array" then value.Arr?
    else if kind == "string" then value.Str?
    else if kind == "number" then value.Num?
    else if kind == "integer" then value.Num? && value.number == value.number.Floor as real
    else if kind == "boolean" then value.Bool?
    else if kind == "null" then value.Null?
    else true
  }

  predicate ConstantOk(schema: Schema, value: Json)
    requires schema.Keywords?
  {
    && (schema.constant.Some? ==> schema.constant.value == value)
    && (schema.enumerated.Some? ==> value in schema.enumerated.value)
  }

  predicate TextOk(re: Regex, schema: Schema, text: string)
    requires schema.Keywords?
  {
    && (schema.minLength.Some? ==> |text| as real >= schema.minLength.value)
    && (schema.maxLength.Some? ==> |text| as real <= schema.maxLength.value)
    && (schema.pattern.Some? ==> re(schema.pattern.value, text))
  }

  predicate NumberOk(schema: Schema, number: real)
    requires schema.Keywords?
  {
    && (schema.minimum.Some? ==> number >= schema.minimum.value)
    && (schema.maximum.Some? ==> number <= schema.maximum.value)
  }

  /** The first of `anyOf` and `oneOf` that is a list. */
  function Alternatives(schema: Schema): Choices
    requires schema.Keywords?
    ensures Alternatives(schema).Choices? ==> forall c | c in Alternatives(schema).schemas :: c < schema
  {
    if schema.anyOf.Choices? then schema.anyOf else schema.oneOf
  }

  function IndexOf(properties: seq<Property>, key: string): (i: nat)
    ensures i <= |properties|
    ensures i < |properties| ==> properties[i].key == key
  {
    if properties == [] || properties[0].key == key then 0 else 1 + IndexOf(properties[1..], key)
  }

  /** Declarative conformance: every keyword that applies holds, recursively.  `anyOf` and `oneOf` replace
      all keywords after `const` and `enum`. */
  ghost predicate Conforms(re: Regex, names: Names, schema: Schema, value: Json)
    decreases schema, 0
  {
    schema.Anything?
    || (&& ConstantOk(schema, value)
        && if Alternatives(schema).Choices? then ChoiceOk(re, names, schema, value)
           else
             && (schema.kind.Some? ==> MatchesType(schema.kind.value, value))
             && (value.Str? ==> TextOk(re, schema, value.text))
             && (value.Num? ==> NumberOk(schema, value.number))
             && (value.Arr? ==> ItemsOk(re, names, schema, value.items))
             && (value.Obj? ==> FieldsOk(re, names, schema, value.fields)))
  }

  /** What `validateAgainstSchema` accepts: the value conforms once defaults are filled in. */
  ghost predicate Accepts(re: Regex, names: Names, schema: Schema, input: Json)
    decreases schema, 1
  {
    Conforms(re, names, schema, ApplyDefaults(names, schema, input))
  }

  ghost predicate ChoiceOk(re: Regex, names: Names, schema: Schema, value: Json)
    requires schema.Keywords? && Alternatives(schema).Choices?
    decreases schema, 0, 0
  {
    var choices := Alternatives(schema).schemas;
    && (exists c :: c in choices && Accepts(re, names, c, value))
    && (schema.oneOf.Choices? ==>
          forall i, j | 0 <= i < j < |choices| ::
              !(Accepts(re, names, choices[i], value) && Accepts(re, names, choices[j], value)))
  }

  ghost predicate ItemsOk(re: Regex, names: Names, schema: Schema, items: seq<Json>)
    requires schema.Keywords?
    decreases schema, 0, 0
  {
    && (schema.minItems.Some? ==> |items| as real >= schema.minItems.value)
    && (schema.items.Some? ==> forall i | 0 <= i < |items| :: Conforms(re, names, schema.items.value, items[i]))
  }

  function PropertyList(schema: Schema): (r: seq<Property>)
    requires schema.Keywords?
    ensures forall p | p in r :: p.schema < schema
  {
    if schema.properties.Properties? then schema.properties.list else []
  }

  ghost predicate FieldOk(re: Regex, names: Names, schema: Schema, field: Field)
    requires schema.Keywords?
    decreases schema, 0, 0
  {
    var properties := PropertyList(schema);
    var i := IndexOf(properties, field.key);
    if i < |properties| then Conforms(re, names, properties[i].schema, field.value)
    else !schema.onlyListed || field.key in names
  }

  ghost predicate FieldsOk(re: Regex, names: Names, schema: Schema, fields: seq<Field>)
    requires schema.Keywords?
    decreases schema, 0, 1
  {
    && (forall key | key in schema.required :: Read(names, fields, key).Some?)
    && (forall i | 0 <= i < |fields| :: FieldOk(re, names, schema, fields[i]))
  }

  /** A value accepted once is accepted again, unchanged: validating twice before a call is harmless. */
  lemma AcceptedAgainUnchanged(re: Regex, names: Names, schema: Schema, input: Json)
    requires WellFormed(schema)
    ensures var value := ApplyDefaults(names, schema, input);
            Accepts(re, names, schema, value) == Accepts(re, names, schema, input)
                && ApplyDefaults(names, schema, value) == value
  {
    DefaultsAreIdempotent(names, schema, input);
  }

  // ------------------------------------------------------------------ where a value breaks its schema

  /** One step into a value: the field or the item at an index. */
  datatype Place = InField(at: nat) | InItem(at: nat)

  /** The path stays within the value. */
  predicate Leads(value: Json, path: seq<Place>) {
    path == [] ||
    match path[0]
    case InItem(i) => value.Arr? && i < |value.items| && Leads(value.items[i], path[1..])
    case InField(i) => value.Obj? && i < |value.fields| && Leads(value.fields[i].value, path[1..])
  }

  predicate WrongType(kind: string, value: Json) {
    || (kind == "object" && !value.Obj?) || (kind == "array" && !value.Arr?)
    || (kind == "string" && !value.Str?) || (kind == "boolean" && !value.Bool?) || (kind == "null" && !value.Null?)
    || (kind == "number" && !value.Num?)
    || (kind == "integer" && (!value.Num? || value.number > value.number.Floor as real))
  }

  predicate HasKey(fields: seq<Field>, key: string) {
    exists i | 0 <= i < |fields| :: fields[i].key == key
  }

  /** The property declared first under the key. */
  predicate Declares(schema: Schema, key: string, j: nat)
    requires schema.Keywords?
  {
    && schema.properties.Properties? && j < |schema.properties.list| && schema.properties.list[j].key == key
    && forall k | 0 <= k < j :: schema.properties.list[k].key != key
  }

  predicate LacksRequired(names: Names, schema: Schema, fields: seq<Field>)
    requires schema.Keywords?
  {
    exists i | 0 <= i < |schema.required| :: !HasKey(fields, schema.required[i]) && schema.required[i] !in names
  }

  predicate Unlisted(names: Names, schema: Schema, field: Field)
    requires schema.Keywords?
  {
    && schema.onlyListed && field.key !in names
    && (schema.properties.Properties? ==>
          forall j | 0 <= j < |schema.properties.list| :: schema.properties.list[j].key != field.key)
  }

  /** The keywords that speak about the value itself and not about its parts. */
  predicate BreaksKeyword(re: Regex, names: Names, schema: Schema, value: Json)
    requires schema.Keywords?
  {
    || (schema.kind.Some? && WrongType(schema.kind.value, value))
    || match value
       case Str(text) =>
         || (schema.minLength.Some? && |text| as real < schema.minLength.value)
         || (schema.maxLength.Some? && |text| as real > schema.maxLength.value)
         || (schema.pattern.Some? && !re(schema.pattern.value, text))
       case Num(number) =>
         || (schema.minimum.Some? && number < schema.minimum.value)
         || (schema.maximum.Some? && number > schema.maximum.value)
       case Arr(items) => schema.minItems.Some? && |items| as real < schema.minItems.value
       case Obj(fields) =>
         LacksRequired(names, schema, fields) || exists f | f in fields :: Unlisted(names, schema, f)
       case _ => false
  }

  /** A list under `anyOf` hides one under `oneOf`. */
  function Chosen(schema: Schema): (r: seq<Schema>)
    requires schema.Keywords?
    ensures forall c | c in r :: c < schema
  {
    match schema.anyOf
    case Choices(schemas) => schemas
    case NoChoices => if schema.oneOf.Choices? then schema.oneOf.schemas else []
  }

  /** No alternative takes the value, each filling in its own defaults; under `oneOf` also when two take it. */
  ghost predicate BreaksChoices(re: Regex, names: Names, schema: Schema, value: Json)
    requires schema.Keywords?
    decreases schema, 0
  {
    var choices := Chosen(schema);
    || (forall i | 0 <= i < |choices| :: !Takes(re, names, choices[i], value))
    || (schema.oneOf.Choices?
        && exists i, j | 0 <= i < j < |choices| ::
             Takes(re, names, choices[i], value) && Takes(re, names, choices[j], value))
  }

  ghost predicate BreaksHere(re: Regex, names: Names, schema: Schema, value: Json)
    requires schema.Keywords?
    decreases schema, 1
  {
    || (schema.constant.Some? && value != schema.constant.value)
    || (schema.enumerated.Some? && forall c | c in schema.enumerated.value :: value != c)
    || if schema.anyOf.NoChoices? && schema.oneOf.NoChoices? then BreaksKeyword(re, names, schema, value)
       else BreaksChoices(re, names, schema, value)
  }

  /** The path leads through items and declared fields to a place that breaks a keyword. */
  ghost predicate BreaksAt(re: Regex, names: Names, schema: Schema, value: Json, path: seq<Place>)
    decreases schema, 2
  {
    && schema.Keywords?
    && if path == [] then BreaksHere(re, names, schema, value)
       else
         && schema.anyOf.NoChoices? && schema.oneOf.NoChoices?
         && match path[0]
            case InItem(i) =>
              && value.Arr? && i < |value.items| && schema.items.Some?
              && BreaksAt(re, names, schema.items.value, value.items[i], path[1..])
            case InField(i) =>
              && value.Obj? && i < |value.fields|
              && exists j: nat :: Declares(schema, value.fields[i].key, j)
                   && BreaksAt(re, names, schema.properties.list[j].schema, value.fields[i].value, path[1..])
  }

  /** The value, with the defaults of the schema filled in, breaks it nowhere. */
  ghost predicate Takes(re: Regex, names: Names, schema: Schema, input: Json)
    decreases schema, 4
  {
    !Broken(re, names, schema, ApplyDefaults(names, schema, input))
  }

  ghost predicate Broken(re: Regex, names: Names, schema: Schema, value: Json)
    decreases schema, 3
  {
    exists path :: Leads(value, path) && BreaksAt(re, names, schema, value, path)
  }

  lemma {:induction false} FindHasKey(fields: seq<Field>, key: string)
    ensures Find(fields, key).Some? <==> HasKey(fields, key)
  {
    if fields != [] {
      FindHasKey(fields[1..], key);
      if HasKey(fields[1..], key) {
        var i :| 0 <= i < |fields| - 1 && fields[1..][i].key == key;
        assert fields[i + 1].key == key;
      }
      if HasKey(fields, key) && fields[0].key != key {
        var i :| 0 <= i < |fields| && fields[i].key == key;
        assert fields[1..][i - 1].key == key;
      }
    }
  }

  lemma {:induction false} IndexIsFirst(properties: seq<Property>, key: string)
    ensures forall k | 0 <= k < IndexOf(properties, key) :: properties[k].key != key
  {
    if properties != [] && properties[0].key != key {
      IndexIsFirst(properties[1..], key);
      forall k | 0 <= k < IndexOf(properties, key) ensures properties[k].key != key {
        if k > 0 { assert properties[k] == properties[1..][k - 1]; }
      }
    }
  }

  lemma RequiredIff(names: Names, schema: Schema, fields: seq<Field>)
    requires schema.Keywords?
    ensures LacksRequired(names, schema, fields) <==>
              exists key :: key in schema.required && Read(names, fields, key).None?
  {
    forall key { FindHasKey(fields, key); }
    if key :| key in schema.required && Read(names, fields, key).None? {
      var i :| 0 <= i < |schema.required| && schema.required[i] == key;
      assert !HasKey(fields, schema.required[i]);
    }
    if LacksRequired(names, schema, fields) {
      var i :| 0 <= i < |schema.required| && !HasKey(fields, schema.required[i]) && schema.required[i] !in names;
      assert schema.required[i] in schema.required && Read(names, fields, schema.required[i]).None?;
    }
  }

  lemma KeywordIff(re: Regex, names: Names, schema: Schema, value: Json)
    requires schema.Keywords?
    ensures BreaksKeyword(re, names, schema, value) <==>
              || (schema.kind.Some? && !MatchesType(schema.kind.value, value))
              || (value.Str? && !TextOk(re, schema, value.text)) || (value.Num? && !NumberOk(schema, value.number))
              || (value.Arr? && schema.minItems.Some? && |value.items| as real < schema.minItems.value)
              || (value.Obj? && exists key :: key in schema.required && Read(names, value.fields, key).None?)
              || (value.Obj? && exists f :: f in value.fields && Unlisted(names, schema, f))
  {
    if value.Obj? { RequiredIff(names, schema, value.fields); }
  }

  /** A declared property is looked up as the first one under its key, and a field without one is not listed. */
  lemma FieldIff(re: Regex, names: Names, schema: Schema, field: Field)
    requires schema.Keywords?
    ensures var j := IndexOf(PropertyList(schema), field.key);
            && (j < |PropertyList(schema)| ==>
                  && Declares(schema, field.key, j) && !Unlisted(names, schema, field)
                  && (forall k: nat | Declares(schema, field.key, k) :: k == j)
                  && FieldOk(re, names, schema, field)
                     == Conforms(re, names, schema.properties.list[j].schema, field.value))
            && (j == |PropertyList(schema)| ==>
                  && (forall k: nat :: !Declares(schema, field.key, k))
                  && FieldOk(re, names, schema, field) == !Unlisted(names, schema, field))
  {
    IndexIsFirst(PropertyList(schema), field.key);
  }

  lemma ItemBreaks(re: Regex, names: Names, schema: Schema, value: Json, i: nat)
    requires schema.Keywords? && schema.anyOf.NoChoices? && schema.oneOf.NoChoices?
    requires value.Arr? && i < |value.items| && schema.items.Some?
    requires Broken(re, names, schema.items.value, value.items[i])
    ensures Broken(re, names, schema, value)
  {
    var path :| Leads(value.items[i], path) && BreaksAt(re, names, schema.items.value, value.items[i], path);
    var longer := [InItem(i)] + path;
    assert longer[1..] == path;
    assert Leads(value, longer) && BreaksAt(re, names, schema, value, longer);
  }

  lemma FieldBreaks(re: Regex, names: Names, schema: Schema, value: Json, i: nat, j: nat)
    requires schema.Keywords? && schema.anyOf.NoChoices? && schema.oneOf.NoChoices?
    requires value.Obj? && i < |value.fields| && Declares(schema, value.fields[i].key, j)
    requires Broken(re, names, schema.properties.list[j].schema, value.fields[i].value)
    ensures Broken(re, names, schema, value)
  {
    var part, declared := value.fields[i].value, schema.properties.list[j].schema;
    var path :| Leads(part, path) && BreaksAt(re, names, declared, part, path);
    var longer := [InField(i)] + path;
    assert longer[1..] == path;
    assert Leads(value, longer) && BreaksAt(re, names, schema, value, longer);
  }

  /** A path that breaks something below the top breaks the part it leads into first. */
  lemma PartBroken(re: Regex, names: Names, schema: Schema, value: Json, path: seq<Place>)
    requires path != [] && Leads(value, path) && BreaksAt(re, names, schema, value, path)
    ensures if path[0].InItem?
            then Broken(re, names, schema.items.value, value.items[path[0].at])
            else exists j: nat :: Declares(schema, value.fields[path[0].at].key, j)
                   && Broken(re, names, schema.properties.list[j].schema, value.fields[path[0].at].value)
  {
    if path[0].InField? {
      var field := value.fields[path[0].at];
      var j: nat :| Declares(schema, field.key, j)
                    && BreaksAt(re, names, schema.properties.list[j].schema, field.value, path[1..]);
      assert Broken(re, names, schema.properties.list[j].schema, field.value);
    }
  }

  lemma {:induction false} ChoicesIff(re: Regex, names: Names, schema: Schema, value: Json)
    requires schema.Keywords? && Alternatives(schema).Choices?
    ensures BreaksChoices(re, names, schema, value) <==> !ChoiceOk(re, names, schema, value)
    decreases schema, 0
  {
    var choices := Chosen(schema);
    assert choices == Alternatives(schema).schemas;
    forall i | 0 <= i < |choices|
      ensures Accepts(re, names, choices[i], value) <==> Takes(re, names, choices[i], value)
    {
      assert choices[i] in choices;
      BrokenIff(re, names, choices[i], ApplyDefaults(names, choices[i], value));
    }
    if !ChoiceOk(re, names, schema, value) {
      assert BreaksChoices(re, names, schema, value);
    } else {
      var c :| c in choices && Accepts(re, names, c, value);
      assert Takes(re, names, c, value);
      assert !BreaksChoices(re, names, schema, value);
    }
  }

  lemma {:induction false} ItemsIff(re: Regex, names: Names, schema: Schema, value: Json)
    requires schema.Keywords? && schema.anyOf.NoChoices? && schema.oneOf.NoChoices? && value.Arr?
    requires !BreaksHere(re, names, schema, value)
    ensures Broken(re, names, schema, value) <==> !ItemsOk(re, names, schema, value.items)
    decreases schema, 0
  {
    KeywordIff(re, names, schema, value);
    if schema.items.Some? {
      forall i | 0 <= i < |value.items|
        ensures Conforms(re, names, schema.items.value, value.items[i])
                <==> !Broken(re, names, schema.items.value, value.items[i])
      {
        BrokenIff(re, names, schema.items.value, value.items[i]);
      }
    }
    if Broken(re, names, schema, value) {
      var path :| Leads(value, path) && BreaksAt(re, names, schema, value, path);
      PartBroken(re, names, schema, value, path);
    }
    if !ItemsOk(re, names, schema, value.items) {
      var i :| 0 <= i < |value.items| && !Conforms(re, names, schema.items.value, value.items[i]);
      ItemBreaks(re, names, schema, value, i);
    }
  }

  lemma {:induction false} FieldsIff(re: Regex, names: Names, schema: Schema, value: Json)
    requires schema.Keywords? && schema.anyOf.NoChoices? && schema.oneOf.NoChoices? && value.Obj?
    requires !BreaksHere(re, names, schema, value)
    ensures Broken(re, names, schema, value) <==> !FieldsOk(re, names, schema, value.fields)
    decreases schema, 0
  {
    KeywordIff(re, names, schema, value);
    var fields := value.fields;
    forall i: nat, j: nat | i < |fields| && Declares(schema, fields[i].key, j)
      ensures FieldOk(re, names, schema, fields[i])
              <==> !Broken(re, names, schema.properties.list[j].schema, fields[i].value)
    {
      FieldIff(re, names, schema, fields[i]);
      BrokenIff(re, names, schema.properties.list[j].schema, fields[i].value);
    }
    if Broken(re, names, schema, value) {
      var path :| Leads(value, path) && BreaksAt(re, names, schema, value, path);
      PartBroken(re, names, schema, value, path);
    }
    if !FieldsOk(re, names, schema, fields) {
      var i :| 0 <= i < |fields| && !FieldOk(re, names, schema, fields[i]);
      FieldIff(re, names, schema, fields[i]);
      assert fields[i] in fields;
      FieldBreaks(re, names, schema, value, i, IndexOf(PropertyList(schema), fields[i].key));
    }
  }

  lemma OnlyPartsBreak(re: Regex, names: Names, schema: Schema, value: Json)
    requires Broken(re, names, schema, value)
    ensures schema.Keywords?
    ensures BreaksHere(re, names, schema, value) || (Alternatives(schema).NoChoices? && (value.Arr? || value.Obj?))
  {
    var path :| Leads(value, path) && BreaksAt(re, names, schema, value, path);
    if path == [] { assert BreaksHere(re, names, schema, value); }
  }

  lemma HereIff(re: Regex, names: Names, schema: Schema, value: Json)
    requires schema.Keywords? && Alternatives(schema).NoChoices?
    ensures BreaksHere(re, names, schema, value) ==> !Conforms(re, names, schema, value)
    ensures !BreaksHere(re, names, schema, value) && !Conforms(re, names, schema, value) ==>
              || (value.Arr? && !ItemsOk(re, names, schema, value.items))
              || (value.Obj? && !FieldsOk(re, names, schema, value.fields))
  {
    KeywordIff(re, names, schema, value);
    if value.Obj? {
      forall f | f in value.fields ensures Unlisted(names, schema, f) ==> !FieldsOk(re, names, schema, value.fields) {
        FieldIff(re, names, schema, f);
        var i :| 0 <= i < |value.fields| && value.fields[i] == f;
      }
    }
  }

  /** For every schema and value: the value conforms exactly when no path leads to a place that breaks a keyword. */
  lemma {:induction false} BrokenIff(re: Regex, names: Names, schema: Schema, value: Json)
    ensures Broken(re, names, schema, value) <==> !Conforms(re, names, schema, value)
    decreases schema, 1
  {
    if Broken(re, names, schema, value) { OnlyPartsBreak(re, names, schema, value); }
    if schema.Keywords? {
      if BreaksHere(re, names, schema, value) { assert Leads(value, []) && BreaksAt(re, names, schema, value, []); }
      if Alternatives(schema).Choices? {
        ChoicesIff(re, names, schema, value);
      } else {
        HereIff(re, names, schema, value);
        if !BreaksHere(re, names, schema, value) && value.Arr? { ItemsIff(re, names, schema, value); }
        if !BreaksHere(re, names, schema, value) && value.Obj? { FieldsIff(re, names, schema, value); }
      }
    }
  }

  /** A field that nothing lists, or that breaks the schema of the property declared under its key. */
  ghost predicate FieldBroken(re: Regex, names: Names, schema: Schema, field: Field)
    requires schema.Keywords?
  {
    || Unlisted(names, schema, field)
    || exists j: nat :: Declares(schema, field.key, j)
         && Broken(re, names, schema.properties.list[j].schema, field.value)
  }

  lemma FieldBrokenIff(re: Regex, names: Names, schema: Schema, field: Field)
    requires schema.Keywords?
    ensures FieldBroken(re, names, schema, field) <==> !FieldOk(re, names, schema, field)
  {
    FieldIff(re, names, schema, field);
    var j := IndexOf(PropertyList(schema), field.key);
    if j < |PropertyList(schema)| { BrokenIff(re, names, schema.properties.list[j].schema, field.value); }
  }

  lemma FieldsBroken(re: Regex, names: Names, schema: Schema, fields: seq<Field>)
    requires schema.Keywords?
    ensures FieldsOk(re, names, schema, fields) <==>
              !LacksRequired(names, schema, fields) && forall f | f in fields :: !FieldBroken(re, names, schema, f)
  {
    RequiredIff(names, schema, fields);
    forall f | f in fields { FieldBrokenIff(re, names, schema, f); }
    assert (forall i | 0 <= i < |fields| :: FieldOk(re, names, schema, fields[i]))
           <==> forall f | f in fields :: FieldOk(re, names, schema, f);
  }

  // ------------------------------------------------------------------ inherited names

  /** No key of any object inside is inherited. */
  predicate KeysFree(names: Names, j: Json) {
    && (j.Arr? ==> forall item | item in j.items :: KeysFree(names, item))
    && (j.Obj? ==> forall f | f in j.fields :: f.key !in names && KeysFree(names, f.value))
  }

  predicate ChoicesFree(names: Names, c: Choices) {
    c.Choices? ==> forall s | s in c.schemas :: SchemaFree(names, s)
  }

  /** No declared or required name is inherited, and no key of a default. */
  predicate SchemaFree(names: Names, schema: Schema) {
    schema.Anything?
    || (&& (schema.properties.Properties? ==>
              forall p | p in schema.properties.list :: p.key !in names && SchemaFree(names, p.schema))
        && (schema.items.Some? ==> SchemaFree(names, schema.items.value))
        && (forall key | key in schema.required :: key !in names)
        && (schema.fallback.Some? ==> KeysFree(names, schema.fallback.value))
        && ChoicesFree(names, schema.anyOf) && ChoicesFree(names, schema.oneOf))
  }

  lemma {:induction false} FreeDefaults(names: Names, schema: Schema, input: Json)
    requires SchemaFree(names, schema)
    ensures ApplyDefaults(names, schema, input) == ApplyDefaults({}, schema, input)
    ensures KeysFree(names, input) ==> KeysFree(names, ApplyDefaults({}, schema, input))
    decreases schema
  {
    if schema.Anything? {
    } else if schema.kind == Some("object") && schema.properties.Properties? {
      FreeFill(names, schema, schema.properties.list, if input.Obj? then input.fields else []);
    } else if schema.kind == Some("array") && input.Arr? && schema.items.Some? {
      forall i | 0 <= i < |input.items|
        ensures ApplyDefaults(names, schema.items.value, input.items[i])
                  == ApplyDefaults({}, schema.items.value, input.items[i])
        ensures KeysFree(names, input.items[i]) ==>
                  KeysFree(names, ApplyDefaults({}, schema.items.value, input.items[i]))
      {
        FreeDefaults(names, schema.items.value, input.items[i]);
      }
    }
  }

  predicate FieldsFree(names: Names, fields: seq<Field>) {
    forall f | f in fields :: f.key !in names && KeysFree(names, f.value)
  }

  lemma {:induction false} FreeFill(names: Names, owner: Schema, properties: seq<Property>, target: seq<Field>)
    requires forall p | p in properties :: p.schema < owner && p.key !in names && SchemaFree(names, p.schema)
    ensures Fill(names, owner, properties, target) == Fill({}, owner, properties, target)
    ensures FieldsFree(names, target) ==> FieldsFree(names, Fill({}, owner, properties, target))
    decreases owner, |properties|
  {
    if properties != [] {
      var shorter, last := properties[..|properties| - 1], properties[|properties| - 1];
      assert last in properties;
      FreeFill(names, owner, shorter, target);
      var before := Fill({}, owner, shorter, target);
      var rest := WithFallback({}, last, before);
      if last.schema.Keywords? && last.schema.fallback.Some? {
        FreePut(names, before, last.key, last.schema.fallback.value);
      }
      if Find(rest, last.key).Some? {
        var value := Find(rest, last.key).value;
        FreeDefaults(names, last.schema, value);
        if FieldsFree(names, rest) { FreeFind(names, rest, last.key); }
        FreePut(names, rest, last.key, ApplyDefaults({}, last.schema, value));
      }
    }
  }

  lemma {:induction false} FreePut(names: Names, fields: seq<Field>, key: string, value: Json)
    requires key !in names
    ensures FieldsFree(names, fields) && KeysFree(names, value) ==> FieldsFree(names, Put(fields, key, value))
  {
    if fields != [] && fields[0].key != key {
      assert fields == [fields[0]] + fields[1..];
      FreePut(names, fields[1..], key, value);
    }
  }

  lemma {:induction false} FreeFind(names: Names, fields: seq<Field>, key: string)
    requires FieldsFree(names, fields) && Find(fields, key).Some?
    ensures KeysFree(names, Find(fields, key).value)
  {
    if fields[0].key != key { FreeFind(names, fields[1..], key); }
  }

  lemma {:induction false} FreeConforms(re: Regex, names: Names, schema: Schema, value: Json)
    requires SchemaFree(names, schema) && KeysFree(names, value)
    ensures Conforms(re, names, schema, value) == Conforms(re, {}, schema, value)
    decreases schema, 0
  {
    if schema.Keywords? {
      if Alternatives(schema).Choices? {
        FreeChoices(re, names, schema, value);
      } else {
        if value.Arr? && schema.items.Some? {
          forall i | 0 <= i < |value.items|
            ensures Conforms(re, names, schema.items.value, value.items[i])
                      == Conforms(re, {}, schema.items.value, value.items[i])
          {
            FreeConforms(re, names, schema.items.value, value.items[i]);
          }
        }
        if value.Obj? { FreeFields(re, names, schema, value.fields); }
      }
    }
  }

  lemma FreeChoices(re: Regex, names: Names, schema: Schema, value: Json)
    requires schema.Keywords? && Alternatives(schema).Choices? && SchemaFree(names, schema) && KeysFree(names, value)
    ensures ChoiceOk(re, names, schema, value) == ChoiceOk(re, {}, schema, value)
    decreases schema, 0, 0
  {
    var choices := Alternatives(schema).schemas;
    forall i | 0 <= i < |choices|
      ensures Accepts(re, names, choices[i], value) == Accepts(re, {}, choices[i], value)
    {
      assert choices[i] in choices;
      OwnNamesDecide(re, names, choices[i], value);
    }
    SameCount(re, names, choices, value, |choices|);
    AcceptingDecides(re, names, schema, value);
    AcceptingDecides(re, {}, schema, value);
  }

  lemma {:induction false} SameCount(re: Regex, names: Names, choices: seq<Schema>, value: Json, n: nat)
    requires n <= |choices|
    requires forall i | 0 <= i < n :: Accepts(re, names, choices[i], value) == Accepts(re, {}, choices[i], value)
    ensures Accepting(re, names, choices, value, n) == Accepting(re, {}, choices, value, n)
  {
    if n > 0 { SameCount(re, names, choices, value, n - 1); }
  }

  lemma FreeFields(re: Regex, names: Names, schema: Schema, fields: seq<Field>)
    requires schema.Keywords? && SchemaFree(names, schema) && FieldsFree(names, fields)
    ensures FieldsOk(re, names, schema, fields) == FieldsOk(re, {}, schema, fields)
    decreases schema, 0, 0
  {
    forall i | 0 <= i < |fields| ensures FieldOk(re, names, schema, fields[i]) == FieldOk(re, {}, schema, fields[i]) {
      var properties := PropertyList(schema);
      var k := IndexOf(properties, fields[i].key);
      assert fields[i] in fields;
      if k < |properties| {
        assert properties[k] in properties;
        FreeConforms(re, names, properties[k].schema, fields[i].value);
      }
    }
    forall key | key in schema.required ensures Read(names, fields, key) == Read({}, fields, key) {}
  }

  /** Where no declared, required or present key is inherited, at any depth, validation is what the schema says: it
      reads nothing but what the objects hold themselves. */
  lemma OwnNamesDecide(re: Regex, names: Names, schema: Schema, input: Json)
    requires SchemaFree(names, schema) && KeysFree(names, input)
    ensures ApplyDefaults(names, schema, input) == ApplyDefaults({}, schema, input)
    ensures Accepts(re, names, schema, input) == Accepts(re, {}, schema, input)
    decreases schema, 1
  {
    FreeDefaults(names, schema, input);
    FreeConforms(re, names, schema, ApplyDefaults({}, schema, input));
  }

  /** A schema for objects. */
  function ObjectSchema(properties: seq<Property>, required: seq<string>, onlyListed: bool): Schema {
    Keywords(Some("object"), None, None, NoChoices, NoChoices, None, None, None, None, None, None, None,
             Properties(properties), required, onlyListed, None)
  }

  function WithDefault(value: Json): Schema {
    Keywords(None, None, None, NoChoices, NoChoices, None, None, None, None, None, None, None,
             NoProperties, [], false, Some(value))
  }

  /** An inherited name breaks all three promises: an absent field passes for a required one, a field that is not listed
      is let through, and a missing field does not get its default. */
  lemma InheritedNamesMislead(re: Regex, names: Names, name: string, value: Json)
    requires name in names
    ensures var demanding := ObjectSchema([], [name], false);
            Accepts(re, names, demanding, Obj([])) && !Accepts(re, {}, demanding, Obj([]))
    ensures var closed, given := ObjectSchema([], [], true), Obj([Field(name, value)]);
            Accepts(re, names, closed, given) && !Accepts(re, {}, closed, given)
    ensures var filling := ObjectSchema([Property(name, WithDefault(value))], [], false);
            && ApplyDefaults(names, filling, Obj([])) == Obj([Field(name, Inherited(name))])
            && ApplyDefaults({}, filling, Obj([])) == Obj([Field(name, value)])
  {
    MissedRequirement(re, names, name);
    MissedListing(re, names, name, value);
    MissedDefault(names, name, value);
  }

  lemma MissedRequirement(re: Regex, names: Names, name: string)
    requires name in names
    ensures var demanding := ObjectSchema([], [name], false);
            Accepts(re, names, demanding, Obj([])) && !Accepts(re, {}, demanding, Obj([]))
  {
    var demanding := ObjectSchema([], [name], false);
    NothingToFill(names, demanding, []);
    NothingToFill({}, demanding, []);
    OneRequired(re, names, name);
    OneRequired(re, {}, name);
  }

  lemma NothingToFill(names: Names, schema: Schema, fields: seq<Field>)
    requires schema.Keywords? && schema.kind == Some("object") && schema.properties == Properties([])
    ensures ApplyDefaults(names, schema, Obj(fields)) == Obj(fields)
  {
  }

  lemma OneRequired(re: Regex, names: Names, name: string)
    ensures FieldsOk(re, names, ObjectSchema([], [name], false), []) <==> name in names
  {
    var required, none: seq<Field> := ObjectSchema([], [name], false).required, [];
    assert required[0] == name && name in required && forall key | key in required :: key == name;
    assert Read(names, none, name).Some? <==> name in names;
  }

  lemma MissedListing(re: Regex, names: Names, name: string, value: Json)
    requires name in names
    ensures var closed, given := ObjectSchema([], [], true), Obj([Field(name, value)]);
            Accepts(re, names, closed, given) && !Accepts(re, {}, closed, given)
  {
    var closed, given := ObjectSchema([], [], true), Obj([Field(name, value)]);
    NothingToFill(names, closed, given.fields);
    NothingToFill({}, closed, given.fields);
    assert FieldOk(re, names, closed, given.fields[0]) && !FieldOk(re, {}, closed, given.fields[0]);
    assert FieldsOk(re, names, closed, given.fields) && !FieldsOk(re, {}, closed, given.fields);
  }

  lemma MissedDefault(names: Names, name: string, value: Json)
    requires name in names
    ensures var filling := ObjectSchema([Property(name, WithDefault(value))], [], false);
            && ApplyDefaults(names, filling, Obj([])) == Obj([Field(name, Inherited(name))])
            && ApplyDefaults({}, filling, Obj([])) == Obj([Field(name, value)])
  {
    var p := Property(name, WithDefault(value));
    var filling := ObjectSchema([p], [], false);
    assert [p][..0] == [];
    assert Fill(names, filling, [p], []) == FillOne(names, p, []);
    assert Fill({}, filling, [p], []) == FillOne({}, p, []);
    assert Put([Field(name, value)], name, value) == [Field(name, value)];
  }

  /** The array of issues that one validation shares. */
  class IssueList {
    var items: seq<Issue>

    constructor ()
      ensures items == []
    {
      items := [];
    }

    method Push(path: string, message: string)
      modifies this
      ensures items == old(items) + [Issue(path, message)]
    {
      items := items + [Issue(path, message)];
    }
  }

  /** Issues are only added, each at or below `path`, and none exactly when `ok`. */
  ghost predicate Reports(before: seq<Issue>, after: seq<Issue>, path: string, ok: bool) {
    && before <= after
    && (after == before <==> ok)
    && forall k | |before| <= k < |after| :: path <= after[k].path
  }

  lemma ReportsBoth(a: seq<Issue>, b: seq<Issue>, c: seq<Issue>, path: string, x: bool, y: bool)
    requires Reports(a, b, path, x) && Reports(b, c, path, y)
    ensures Reports(a, c, path, x && y)
  {
  }

  lemma ReportsBelow(before: seq<Issue>, after: seq<Issue>, path: string, step: string, ok: bool)
    requires Reports(before, after, path + step, ok)
    ensures Reports(before, after, path, ok)
  {
    forall k | |before| <= k < |after| ensures path <= after[k].path {
      assert path <= path + step <= after[k].path;
    }
  }

  method ValidateAgainstSchema(re: Regex, names: Names, schema: Schema, input: Json)
    returns (r: Result<Json, seq<Issue>>)
    ensures r.Ok? <==> Accepts(re, names, schema, input)
    ensures r.Err? <==> Broken(re, names, schema, ApplyDefaults(names, schema, input))
    ensures r.Ok? ==> r.value == ApplyDefaults(names, schema, input)
    ensures r.Err? ==> r.error != [] && forall k | 0 <= k < |r.error| :: "$" <= r.error[k].path
    decreases schema, 1
  {
    var issues := new IssueList();
    var value := FillDefaults(names, schema, input);
    Validate(re, names, schema, value, issues, "$");
    BrokenIff(re, names, schema, value);
    if |issues.items| > 0 { return Err(issues.items); }
    return Ok(value);
  }

  method Validate(re: Regex, names: Names, schema: Schema, value: Json, issues: IssueList, path: string)
    modifies issues
    ensures Reports(old(issues.items), issues.items, path, Conforms(re, names, schema, value))
    ensures issues.items == old(issues.items) <==> !Broken(re, names, schema, value)
    decreases schema, 0
  {
    BrokenIff(re, names, schema, value);
    if schema.Anything? { return; }
    if schema.constant.Some? && schema.constant.value != value {
      issues.Push(path, "must equal the constant");
      return;
    }
    if schema.enumerated.Some? && value !in schema.enumerated.value {
      issues.Push(path, "must be one of the listed values");
      return;
    }
    if Alternatives(schema).Choices? {
      ValidateChoices(re, names, schema, value, issues, path);
      return;
    }
    if schema.kind.Some? && !MatchesType(schema.kind.value, value) {
      issues.Push(path, "must be of the type");
      return;
    }
    match value
    case Str(text) => ValidateText(re, schema, text, issues, path);
    case Num(number) => ValidateNumber(schema, number, issues, path);
    case Arr(items) => ValidateItems(re, names, schema, items, issues, path);
    case Obj(fields) => ValidateFields(re, names, schema, fields, issues, path);
    case _ =>
  }

  method ValidateText(re: Regex, schema: Schema, text: string, issues: IssueList, path: string)
    requires schema.Keywords?
    modifies issues
    ensures Reports(old(issues.items), issues.items, path, TextOk(re, schema, text))
  {
    if schema.minLength.Some? && |text| as real < schema.minLength.value { issues.Push(path, "is too short"); }
    if schema.maxLength.Some? && |text| as real > schema.maxLength.value { issues.Push(path, "is too long"); }
    if schema.pattern.Some? && !re(schema.pattern.value, text) { issues.Push(path, "must match the pattern"); }
  }

  method ValidateNumber(schema: Schema, number: real, issues: IssueList, path: string)
    requires schema.Keywords?
    modifies issues
    ensures Reports(old(issues.items), issues.items, path, NumberOk(schema, number))
  {
    if schema.minimum.Some? && number < schema.minimum.value { issues.Push(path, "is too small"); }
    if schema.maximum.Some? && number > schema.maximum.value { issues.Push(path, "is too large"); }
  }

  ghost predicate ItemsOkUpTo(re: Regex, names: Names, schema: Schema, items: seq<Json>, n: nat)
    requires schema.Keywords? && schema.items.Some? && n <= |items|
  {
    forall i | 0 <= i < n :: Conforms(re, names, schema.items.value, items[i])
  }

  method ValidateItems(re: Regex, names: Names, schema: Schema, items: seq<Json>, issues: IssueList, path: string)
    requires schema.Keywords?
    modifies issues
    ensures Reports(old(issues.items), issues.items, path, ItemsOk(re, names, schema, items))
    decreases schema, 0, 0
  {
    ghost var start := issues.items;
    ghost var enough := schema.minItems.Some? ==> |items| as real >= schema.minItems.value;
    if schema.minItems.Some? && |items| as real < schema.minItems.value { issues.Push(path, "has too few items"); }
    if schema.items.None? { return; }
    for i := 0 to |items|
      invariant Reports(start, issues.items, path, enough && ItemsOkUpTo(re, names, schema, items, i))
    {
      ghost var before := issues.items;
      Validate(re, names, schema.items.value, items[i], issues, path + "[" + Decimal(i) + "]");
      assert path + "[" + Decimal(i) + "]" == path + ("[" + Decimal(i) + "]");
      ReportsBelow(before, issues.items, path, "[" + Decimal(i) + "]",
          Conforms(re, names, schema.items.value, items[i]));
      ReportsBoth(start, before, issues.items, path, enough && ItemsOkUpTo(re, names, schema, items, i),
          Conforms(re, names, schema.items.value, items[i]));
      assert ItemsOkUpTo(re, names, schema, items, i + 1)
          <==> ItemsOkUpTo(re, names, schema, items, i) && Conforms(re, names, schema.items.value, items[i]);
    }
  }

  ghost predicate RequiredUpTo(names: Names, schema: Schema, fields: seq<Field>, n: nat)
    requires schema.Keywords? && n <= |schema.required|
  {
    forall i | 0 <= i < n :: Read(names, fields, schema.required[i]).Some?
  }

  ghost predicate FieldsOkUpTo(re: Regex, names: Names, schema: Schema, fields: seq<Field>, n: nat)
    requires schema.Keywords? && n <= |fields|
  {
    forall i | 0 <= i < n :: FieldOk(re, names, schema, fields[i])
  }

  method ValidateFields(re: Regex, names: Names, schema: Schema, fields: seq<Field>, issues: IssueList, path: string)
    requires schema.Keywords?
    modifies issues
    ensures Reports(old(issues.items), issues.items, path, FieldsOk(re, names, schema, fields))
    ensures issues.items == old(issues.items) <==>
              !LacksRequired(names, schema, fields) && forall f | f in fields :: !FieldBroken(re, names, schema, f)
    decreases schema, 0, 1
  {
    FieldsBroken(re, names, schema, fields);
    ghost var start := issues.items;
    for i := 0 to |schema.required|
      invariant Reports(start, issues.items, path, RequiredUpTo(names, schema, fields, i))
    {
      if Read(names, fields, schema.required[i]).None? {
        assert path <= path + "." + schema.required[i];
        issues.Push(path + "." + schema.required[i], "is required");
      }
    }
    ghost var required := RequiredUpTo(names, schema, fields, |schema.required|);
    for i := 0 to |fields|
      invariant Reports(start, issues.items, path, required && FieldsOkUpTo(re, names, schema, fields, i))
    {
      ghost var before := issues.items;
      ValidateField(re, names, schema, fields[i], issues, path);
      ReportsBoth(start, before, issues.items, path, required && FieldsOkUpTo(re, names, schema, fields, i),
          FieldOk(re, names, schema, fields[i]));
      assert FieldsOkUpTo(re, names, schema, fields, i + 1)
          <==> FieldsOkUpTo(re, names, schema, fields, i) && FieldOk(re, names, schema, fields[i]);
    }
  }

  method ValidateField(re: Regex, names: Names, schema: Schema, field: Field, issues: IssueList, path: string)
    requires schema.Keywords?
    modifies issues
    ensures Reports(old(issues.items), issues.items, path, FieldOk(re, names, schema, field))
    ensures issues.items == old(issues.items) <==> !FieldBroken(re, names, schema, field)
    decreases schema, 0, 0
  {
    FieldBrokenIff(re, names, schema, field);
    var properties := PropertyList(schema);
    var i := IndexOf(properties, field.key);
    assert path + "." + field.key == path + ("." + field.key);
    if i < |properties| {
      assert properties[i] in properties;
      ghost var before := issues.items;
      Validate(re, names, properties[i].schema, field.value, issues, path + "." + field.key);
      ReportsBelow(before, issues.items, path, "." + field.key, Conforms(re, names, properties[i].schema, field.value));
    } else if schema.onlyListed && field.key !in names {
      issues.Push(path + "." + field.key, "is not an allowed property");
    }
  }

  method ValidateChoices(re: Regex, names: Names, schema: Schema, value: Json, issues: IssueList, path: string)
    requires schema.Keywords? && Alternatives(schema).Choices?
    modifies issues
    ensures Reports(old(issues.items), issues.items, path, ChoiceOk(re, names, schema, value))
    ensures issues.items == old(issues.items) <==> !BreaksChoices(re, names, schema, value)
    decreases schema, 0, 1
  {
    ChoicesIff(re, names, schema, value);
    var matches := CountMatches(re, names, schema, value);
    if matches == 0 { issues.Push(path, "does not match any allowed schema"); }
    if schema.oneOf.Choices? && matches > 1 { issues.Push(path, "matches more than one schema"); }
  }

  /** How many of the alternatives accept the value. */
  method CountMatches(re: Regex, names: Names, schema: Schema, value: Json) returns (count: nat)
    requires schema.Keywords? && Alternatives(schema).Choices?
    ensures ChoiceOk(re, names, schema, value) <==> count >= 1 && (schema.oneOf.Choices? ==> count <= 1)
    decreases schema, 0, 0
  {
    var choices := Alternatives(schema).schemas;
    count := 0;
    for i := 0 to |choices|
      invariant count == Accepting(re, names, choices, value, i)
    {
      assert choices[i] in choices;
      var r := ValidateAgainstSchema(re, names, choices[i], value);
      if r.Ok? { count := count + 1; }
    }
    AcceptingDecides(re, names, schema, value);
  }

  /** How many of the first `n` alternatives accept the value. */
  ghost function Accepting(re: Regex, names: Names, choices: seq<Schema>, value: Json, n: nat): nat
    requires n <= |choices|
  {
    if n == 0 then 0 else Accepting(re, names, choices, value, n - 1) + if Accepts(re, names, choices[n - 1], value)
        then 1 else 0
  }

  lemma {:induction false} NoneAccepts(re: Regex, names: Names, choices: seq<Schema>, value: Json, n: nat)
    requires n <= |choices|
    ensures Accepting(re, names, choices, value, n) == 0
            <==> forall k | 0 <= k < n :: !Accepts(re, names, choices[k], value)
  {
    if n > 0 { NoneAccepts(re, names, choices, value, n - 1); }
  }

  lemma {:induction false} NoTwoAccept(re: Regex, names: Names, choices: seq<Schema>, value: Json, n: nat)
    requires n <= |choices|
    ensures Accepting(re, names, choices, value, n) <= 1 <==>
              forall i, j | 0 <= i < j < n :: !(Accepts(re, names, choices[i], value)
                  && Accepts(re, names, choices[j], value))
  {
    if n > 0 {
      NoTwoAccept(re, names, choices, value, n - 1);
      NoneAccepts(re, names, choices, value, n - 1);
    }
  }

  lemma AcceptingDecides(re: Regex, names: Names, schema: Schema, value: Json)
    requires schema.Keywords? && Alternatives(schema).Choices?
    ensures var count := Accepting(re, names, Alternatives(schema).schemas, value, |Alternatives(schema).schemas|);
            ChoiceOk(re, names, schema, value) <==> count >= 1 && (schema.oneOf.Choices? ==> count <= 1)
  {
    var choices := Alternatives(schema).schemas;
    NoneAccepts(re, names, choices, value, |choices|);
    NoTwoAccept(re, names, choices, value, |choices|);
  }
}
