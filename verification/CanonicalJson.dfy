/** Canonical JSON: a value without its key order, and the keys derived from it. */
module CanonicalJson {
  import opened Wrappers
  import opened JsonValues
  import opened Sequences

  /** The order in which keys are written out: any strict total order gives a canonical form. */
  type Order = (string, string) -> bool

  ghost predicate IsOrder(less: Order) {
    && (forall a :: !less(a, a))
    && (forall a, b, c {:trigger less(a, b), less(b, c)} :: less(a, b) && less(b, c) ==> less(a, c))
    && (forall a, b {:trigger less(a, b)} :: a == b || less(a, b) || less(b, a))
  }

  predicate DistinctFields(fields: seq<Field>) {
    forall i, j | 0 <= i < j < |fields| :: fields[i].key != fields[j].key
  }

  /** JSON whose objects have distinct keys. */
  predicate WellFormed(j: Json) {
    && !j.Inherited?
    && (j.Arr? ==> forall item | item in j.items :: WellFormed(item))
    && (j.Obj? ==> DistinctFields(j.fields) && forall f | f in j.fields :: WellFormed(f.value))
  }

  /** Equality up to the order of object keys, at every depth. */
  ghost predicate SameUpToOrder(a: Json, b: Json)
    decreases a
  {
    if a.Arr? && b.Arr? then
      |a.items| == |b.items| && forall i | 0 <= i < |a.items| :: SameUpToOrder(a.items[i], b.items[i])
    else if a.Obj? && b.Obj? then
      && (forall f | f in a.fields :: HasKey(b.fields, f.key))
      && (forall g | g in b.fields :: HasKey(a.fields, g.key))
      && (forall f, g {:trigger Agree(f, g)} | f in a.fields && g in b.fields :: Agree(f, g))
    else a == b
  }

  /** Fields of one key hold the same value. */
  ghost predicate Agree(f: Field, g: Field)
    decreases f
  {
    f.key == g.key ==> SameUpToOrder(f.value, g.value)
  }

  /** Assigning this key to a plain object sets its prototype instead of adding a field. */
  const PROTO := "__proto__"

  /** No object at any depth has the key that cannot be assigned. */
  predicate NoProto(j: Json) {
    && (j.Arr? ==> forall item | item in j.items :: NoProto(item))
    && (j.Obj? ==> forall f | f in j.fields :: f.key != PROTO && NoProto(f.value))
  }

  /** The value without the fields that assignment drops, at every depth. */
  function Strip(j: Json): Json
    decreases j
  {
    match j
    case Arr(items) => Arr(seq(|items|, i requires 0 <= i < |items| => Strip(items[i])))
    case Obj(fields) => Obj(StripFields(j, fields))
    case _ => j
  }

  function StripFields(ghost owner: Json, fields: seq<Field>): seq<Field>
    requires forall f | f in fields :: f.value < owner
    decreases owner, |fields|
  {
    if fields == [] then []
    else if fields[0].key == PROTO then StripFields(owner, fields[1..])
    else [Field(fields[0].key, Strip(fields[0].value))] + StripFields(owner, fields[1..])
  }

  predicate HasKey(fields: seq<Field>, key: string) {
    exists f :: f in fields && f.key == key
  }

  function Insert(less: Order, fields: seq<Field>, f: Field): seq<Field> {
    if fields == [] then [f]
    else if less(f.key, fields[0].key) then [f] + fields
    else [fields[0]] + Insert(less, fields[1..], f)
  }

  function Canonicalize(less: Order, j: Json): Json
    decreases j
  {
    match j
    case Arr(items) => Arr(seq(|items|, i requires 0 <= i < |items| => Canonicalize(less, items[i])))
    case Obj(fields) => Obj(CanonicalFields(less, j, fields))
    case _ => j
  }

  /** The fields by ascending key, each value canonical; the one that assignment drops is missing. */
  function CanonicalFields(less: Order, ghost owner: Json, fields: seq<Field>): seq<Field>
    requires forall f | f in fields :: f.value < owner
    decreases owner, |fields|
  {
    if fields == [] then []
    else if fields[0].key == PROTO then CanonicalFields(less, owner, fields[1..])
    else Insert(less, CanonicalFields(less, owner, fields[1..]),
        Field(fields[0].key, Canonicalize(less, fields[0].value)))
  }

  predicate Below(less: Order, f: Field, g: Field) {
    less(f.key, g.key)
  }

  ghost predicate Ascending(less: Order, fields: seq<Field>) {
    forall i, j {:trigger Below(less, fields[i], fields[j])} | 0 <= i < j < |fields| ::
        Below(less, fields[i], fields[j])
  }

  lemma AscendingCons(less: Order, f: Field, rest: seq<Field>)
    requires Ascending(less, rest) && forall g | g in rest :: Below(less, f, g)
    ensures Ascending(less, [f] + rest)
  {
    var all := [f] + rest;
    forall i, j | 0 <= i < j < |all| ensures Below(less, all[i], all[j]) {
      if i == 0 {
        assert rest[j - 1] in rest;
      } else {
        assert Below(less, rest[i - 1], rest[j - 1]);
      }
    }
  }

  lemma AscendingTail(less: Order, fields: seq<Field>)
    requires Ascending(less, fields) && fields != []
    ensures Ascending(less, fields[1..])
    ensures forall g | g in fields[1..] :: Below(less, fields[0], g)
  {
    forall i, j | 0 <= i < j < |fields| - 1 ensures Below(less, fields[1..][i], fields[1..][j]) {
      assert Below(less, fields[i + 1], fields[j + 1]);
    }
    forall g | g in fields[1..] ensures Below(less, fields[0], g) {
      var j :| 1 <= j < |fields| && fields[j] == g;
      assert Below(less, fields[0], fields[j]);
    }
  }

  lemma {:induction false} InsertAscends(less: Order, fields: seq<Field>, f: Field)
    requires IsOrder(less) && Ascending(less, fields) && !HasKey(fields, f.key)
    ensures Ascending(less, Insert(less, fields, f))
    ensures forall g :: g in Insert(less, fields, f) <==> g in fields || g == f
  {
    if fields == [] {
    } else {
      AscendingTail(less, fields);
      assert fields == [fields[0]] + fields[1..] && fields[0] in fields;
      if less(f.key, fields[0].key) {
        forall g | g in fields ensures Below(less, f, g) {
          assert g in fields[1..] ==> Below(less, fields[0], g);
        }
        AscendingCons(less, f, fields);
      } else {
        assert less(fields[0].key, f.key);
        InsertAscends(less, fields[1..], f);
        AscendingCons(less, fields[0], Insert(less, fields[1..], f));
      }
    }
  }

  /** The canonical fields ascend and are exactly the canonical versions of the original ones. */
  lemma {:induction false} CanonicalFieldsMembers(less: Order, owner: Json, fields: seq<Field>)
    requires IsOrder(less) && DistinctFields(fields) && forall f | f in fields :: f.value < owner
    ensures Ascending(less, CanonicalFields(less, owner, fields))
    ensures forall g :: g in CanonicalFields(less, owner, fields) <==>
              exists f :: f in fields && f.key != PROTO && g == Field(f.key, Canonicalize(less, f.value))
    decreases |fields|
  {
    if fields != [] {
      var first, rest := fields[0], fields[1..];
      assert fields == [first] + rest;
      CanonicalFieldsMembers(less, owner, rest);
      forall f | f in rest ensures f.key != first.key {
        var k :| 0 <= k < |rest| && rest[k] == f;
        assert fields[k + 1].key != fields[0].key;
      }
      assert !HasKey(CanonicalFields(less, owner, rest), first.key);
      if first.key != PROTO {
        InsertAscends(less, CanonicalFields(less, owner, rest), Field(first.key, Canonicalize(less, first.value)));
      }
    }
  }

  lemma AscendingIsUnique(less: Order, a: seq<Field>, b: seq<Field>)
    requires IsOrder(less) && Ascending(less, a) && Ascending(less, b) && forall f :: f in a <==> f in b
    ensures a == b
  {
    var before := (f: Field, g: Field) => Below(less, f, g);
    forall f, g | before(f, g) ensures !before(g, f) {
      assert less(f.key, g.key) && !less(f.key, f.key);
    }
    forall i, j | 0 <= i < j < |a| ensures before(a[i], a[j]) { assert Below(less, a[i], a[j]); }
    forall i, j | 0 <= i < j < |b| ensures before(b[i], b[j]) { assert Below(less, b[i], b[j]); }
    SortedIsUnique(before, a, b);
  }

  lemma AscendingDistinct(less: Order, fields: seq<Field>)
    requires IsOrder(less) && Ascending(less, fields)
    ensures DistinctFields(fields)
    ensures forall f, g | f in fields && g in fields && f.key == g.key :: f == g
  {
    forall i, j | 0 <= i < j < |fields| ensures fields[i].key != fields[j].key {
      assert Below(less, fields[i], fields[j]);
    }
  }

  lemma {:induction false} CanonicalWellFormed(less: Order, j: Json)
    requires IsOrder(less) && WellFormed(j)
    ensures WellFormed(Canonicalize(less, j))
    decreases j
  {
    match j
    case Arr(items) =>
      forall i | 0 <= i < |items| ensures WellFormed(Canonicalize(less, items[i])) {
        CanonicalWellFormed(less, items[i]);
      }
    case Obj(fields) =>
      CanonicalFieldsMembers(less, j, fields);
      AscendingDistinct(less, CanonicalFields(less, j, fields));
      forall g | g in CanonicalFields(less, j, fields) ensures WellFormed(g.value) {
        var f :| f in fields && g == Field(f.key, Canonicalize(less, f.value));
        CanonicalWellFormed(less, f.value);
      }
    case _ =>
  }

  lemma {:induction false} CanonicalizeTwice(less: Order, j: Json)
    requires IsOrder(less) && WellFormed(j)
    ensures Canonicalize(less, Canonicalize(less, j)) == Canonicalize(less, j)
    decreases j
  {
    match j
    case Arr(items) =>
      forall i | 0 <= i < |items|
        ensures Canonicalize(less, Canonicalize(less, items[i])) == Canonicalize(less, items[i])
      {
        CanonicalizeTwice(less, items[i]);
      }
    case Obj(fields) =>
      CanonicalWellFormed(less, j);
      CanonicalFieldsMembers(less, j, fields);
      var once := CanonicalFields(less, j, fields);
      forall g | g in once ensures g.key != PROTO && Canonicalize(less, g.value) == g.value {
        var f :| f in fields && g == Field(f.key, Canonicalize(less, f.value));
        CanonicalizeTwice(less, f.value);
      }
      CanonicalFieldsStay(less, once);
    case _ =>
  }

  lemma CanonicalFieldsStay(less: Order, once: seq<Field>)
    requires IsOrder(less) && Ascending(less, once)
    requires forall g | g in once :: g.key != PROTO && Canonicalize(less, g.value) == g.value
    ensures Canonicalize(less, Obj(once)) == Obj(once)
  {
    var again := CanonicalFields(less, Obj(once), once);
    AscendingDistinct(less, once);
    CanonicalFieldsMembers(less, Obj(once), once);
    forall g ensures g in again <==> g in once {
      if g in once { assert g == Field(g.key, Canonicalize(less, g.value)); }
    }
    AscendingIsUnique(less, again, once);
  }

  /** Values without the dropped key share a canonical form exactly when they are equal up to key order. */
  lemma {:induction false} PlainFormsDecide(less: Order, a: Json, b: Json)
    requires IsOrder(less) && Plain(a) && Plain(b)
    ensures Canonicalize(less, a) == Canonicalize(less, b) <==> SameUpToOrder(a, b)
    decreases a
  {
    if a.Arr? && b.Arr? {
      CanonicalItemsDecide(less, a, b);
    } else if a.Obj? && b.Obj? {
      CanonicalFieldsDecide(less, a, b);
    }
  }

  predicate Plain(j: Json) { WellFormed(j) && NoProto(j) }

  lemma CanonicalItemsDecide(less: Order, a: Json, b: Json)
    requires IsOrder(less) && Plain(a) && Plain(b) && a.Arr? && b.Arr?
    ensures Canonicalize(less, a) == Canonicalize(less, b) <==> SameUpToOrder(a, b)
    decreases a, 0
  {
    forall i | 0 <= i < |a.items| && |a.items| == |b.items|
      ensures Canonicalize(less, a.items[i]) == Canonicalize(less, b.items[i])
              <==> SameUpToOrder(a.items[i], b.items[i])
    {
      PlainFormsDecide(less, a.items[i], b.items[i]);
    }
    var x, y := Canonicalize(less, a), Canonicalize(less, b);
    assert |x.items| == |a.items| && |y.items| == |b.items|;
    if x == y {
      forall i | 0 <= i < |a.items| ensures SameUpToOrder(a.items[i], b.items[i]) {
        assert x.items[i] == y.items[i];
      }
    }
    if SameUpToOrder(a, b) {
      assert x.items == y.items;
    }
  }

  lemma CanonicalFieldsDecide(less: Order, a: Json, b: Json)
    requires IsOrder(less) && Plain(a) && Plain(b) && a.Obj? && b.Obj?
    ensures Canonicalize(less, a) == Canonicalize(less, b) <==> SameUpToOrder(a, b)
    decreases a, 0
  {
    forall f, g | f in a.fields && g in b.fields ensures Decided(less, f, g) {
      PlainFormsDecide(less, f.value, g.value);
    }
    if SameUpToOrder(a, b) { SameFieldsSameForm(less, a, b); }
    if Canonicalize(less, a) == Canonicalize(less, b) { SameFormSameFields(less, a, b); }
  }

  ghost predicate Decided(less: Order, f: Field, g: Field) {
    Canonicalize(less, f.value) == Canonicalize(less, g.value) <==> SameUpToOrder(f.value, g.value)
  }

  lemma SameFieldsSameForm(less: Order, a: Json, b: Json)
    requires IsOrder(less) && Plain(a) && Plain(b) && a.Obj? && b.Obj? && SameUpToOrder(a, b)
    requires forall f, g {:trigger Decided(less, f, g)} | f in a.fields && g in b.fields :: Decided(less, f, g)
    ensures Canonicalize(less, a) == Canonicalize(less, b)
  {
    CanonicalFieldsMembers(less, a, a.fields);
    CanonicalFieldsMembers(less, b, b.fields);
    var x, y := CanonicalFields(less, a, a.fields), CanonicalFields(less, b, b.fields);
    forall h ensures h in x <==> h in y {
      if h in x {
        var f :| f in a.fields && h == Field(f.key, Canonicalize(less, f.value));
        var g :| g in b.fields && g.key == f.key;
        assert Agree(f, g) && Decided(less, f, g);
        assert h == Field(g.key, Canonicalize(less, g.value));
      }
      if h in y {
        var g :| g in b.fields && h == Field(g.key, Canonicalize(less, g.value));
        var f :| f in a.fields && f.key == g.key;
        assert Agree(f, g) && Decided(less, f, g);
        assert h == Field(f.key, Canonicalize(less, f.value));
      }
    }
    AscendingIsUnique(less, x, y);
  }

  lemma SameFormSameFields(less: Order, a: Json, b: Json)
    requires IsOrder(less) && Plain(a) && Plain(b) && a.Obj? && b.Obj? && Canonicalize(less, a) == Canonicalize(less, b)
    requires forall f, g {:trigger Decided(less, f, g)} | f in a.fields && g in b.fields :: Decided(less, f, g)
    ensures SameUpToOrder(a, b)
  {
    var x := CanonicalFields(less, a, a.fields);
    assert x == CanonicalFields(less, b, b.fields);
    CanonicalAscends(less, a);
    AscendingDistinct(less, x);
    forall f | f in a.fields ensures HasKey(b.fields, f.key) {
      InCanonical(less, a, f);
      var _ := FromCanonical(less, b, Field(f.key, Canonicalize(less, f.value)));
    }
    forall g | g in b.fields ensures HasKey(a.fields, g.key) {
      InCanonical(less, b, g);
      var _ := FromCanonical(less, a, Field(g.key, Canonicalize(less, g.value)));
    }
    forall f, g | f in a.fields && g in b.fields ensures Agree(f, g) {
      assert Decided(less, f, g);
      InCanonical(less, a, f);
      InCanonical(less, b, g);
    }
  }

  lemma CanonicalAscends(less: Order, j: Json)
    requires IsOrder(less) && j.Obj? && DistinctFields(j.fields)
    ensures Ascending(less, CanonicalFields(less, j, j.fields))
  {
    CanonicalFieldsMembers(less, j, j.fields);
  }

  lemma InCanonical(less: Order, j: Json, f: Field)
    requires IsOrder(less) && j.Obj? && DistinctFields(j.fields) && f in j.fields && f.key != PROTO
    ensures Field(f.key, Canonicalize(less, f.value)) in CanonicalFields(less, j, j.fields)
  {
    CanonicalFieldsMembers(less, j, j.fields);
  }

  lemma FromCanonical(less: Order, j: Json, h: Field) returns (f: Field)
    requires IsOrder(less) && j.Obj? && DistinctFields(j.fields) && h in CanonicalFields(less, j, j.fields)
    ensures f in j.fields && h == Field(f.key, Canonicalize(less, f.value))
  {
    CanonicalFieldsMembers(less, j, j.fields);
    f :| f in j.fields && h == Field(f.key, Canonicalize(less, f.value));
  }

  // ------------------------------------------------------------------ the dropped key

  lemma {:induction false} StripFieldsMembers(owner: Json, fields: seq<Field>)
    requires DistinctFields(fields) && forall f | f in fields :: f.value < owner
    ensures DistinctFields(StripFields(owner, fields))
    ensures forall g :: g in StripFields(owner, fields) <==>
              exists f :: f in fields && f.key != PROTO && g == Field(f.key, Strip(f.value))
    decreases |fields|
  {
    if fields != [] {
      var first, rest := fields[0], fields[1..];
      assert fields == [first] + rest;
      StripFieldsMembers(owner, rest);
      forall f | f in rest ensures f.key != first.key {
        var k :| 0 <= k < |rest| && rest[k] == f;
        assert fields[k + 1].key != fields[0].key;
      }
      var stripped := StripFields(owner, rest);
      forall i | 0 <= i < |stripped| ensures stripped[i].key != first.key {
        assert stripped[i] in stripped;
      }
    }
  }

  lemma {:induction false} StripIsPlain(j: Json)
    requires WellFormed(j)
    ensures Plain(Strip(j))
    decreases j
  {
    match j
    case Arr(items) =>
      forall i | 0 <= i < |items| ensures Plain(Strip(items[i])) {
        StripIsPlain(items[i]);
      }
    case Obj(fields) =>
      StripFieldsMembers(j, fields);
      forall g | g in StripFields(j, fields) ensures g.key != PROTO && Plain(g.value) {
        var f :| f in fields && f.key != PROTO && g == Field(f.key, Strip(f.value));
        StripIsPlain(f.value);
      }
    case _ =>
  }

  lemma {:induction false} StripOfPlain(j: Json)
    requires NoProto(j)
    ensures Strip(j) == j
    decreases j, 1
  {
    match j
    case Arr(items) =>
      forall i | 0 <= i < |items| ensures Strip(items[i]) == items[i] {
        StripOfPlain(items[i]);
      }
    case Obj(fields) => StripFieldsOfPlain(j, fields);
    case _ =>
  }

  lemma {:induction false} StripFieldsOfPlain(owner: Json, fields: seq<Field>)
    requires forall f | f in fields :: f.value < owner && f.key != PROTO && NoProto(f.value)
    ensures StripFields(owner, fields) == fields
    decreases owner, 0, |fields|
  {
    if fields != [] {
      assert fields == [fields[0]] + fields[1..] && fields[0] in fields;
      StripOfPlain(fields[0].value);
      StripFieldsOfPlain(owner, fields[1..]);
    }
  }

  /** The dropped fields make no difference to the canonical form. */
  lemma {:induction false} CanonicalOfStrip(less: Order, j: Json)
    ensures Canonicalize(less, Strip(j)) == Canonicalize(less, j)
    decreases j, 1
  {
    match j
    case Arr(items) =>
      forall i | 0 <= i < |items| ensures Canonicalize(less, Strip(items[i])) == Canonicalize(less, items[i]) {
        CanonicalOfStrip(less, items[i]);
      }
    case Obj(fields) =>
      CanonicalFieldsOfStrip(less, j, Strip(j), fields);
    case _ =>
  }

  lemma {:induction false} CanonicalFieldsOfStrip(less: Order, owner: Json, stripped: Json, fields: seq<Field>)
    requires forall f | f in fields :: f.value < owner
    requires forall f | f in StripFields(owner, fields) :: f.value < stripped
    ensures CanonicalFields(less, stripped, StripFields(owner, fields)) == CanonicalFields(less, owner, fields)
    decreases owner, 0, |fields|
  {
    if fields != [] {
      var rest := fields[1..];
      assert fields == [fields[0]] + rest && fields[0] in fields;
      CanonicalOfStrip(less, fields[0].value);
      if fields[0].key != PROTO {
        var first := Field(fields[0].key, Strip(fields[0].value));
        assert StripFields(owner, fields) == [first] + StripFields(owner, rest);
        assert ([first] + StripFields(owner, rest))[1..] == StripFields(owner, rest);
      }
      CanonicalFieldsOfStrip(less, owner, stripped, rest);
    }
  }

  /** Two values share a canonical form exactly when they are equal up to key order and the dropped key. */
  lemma CanonicalFormsDecide(less: Order, a: Json, b: Json)
    requires IsOrder(less) && WellFormed(a) && WellFormed(b)
    ensures Canonicalize(less, a) == Canonicalize(less, b) <==> SameUpToOrder(Strip(a), Strip(b))
    ensures NoProto(a) && NoProto(b) ==> (Canonicalize(less, a) == Canonicalize(less, b) <==> SameUpToOrder(a, b))
  {
    CanonicalOfStrip(less, a);
    CanonicalOfStrip(less, b);
    StripIsPlain(a);
    StripIsPlain(b);
    PlainFormsDecide(less, Strip(a), Strip(b));
    if NoProto(a) && NoProto(b) {
      StripOfPlain(a);
      StripOfPlain(b);
    }
  }

  lemma {:induction false} SameKeepsNoProto(a: Json, b: Json)
    requires SameUpToOrder(a, b) && NoProto(b)
    ensures NoProto(a)
    decreases a
  {
    if a.Arr? && b.Arr? {
      forall item | item in a.items ensures NoProto(item) {
        var i :| 0 <= i < |a.items| && a.items[i] == item;
        assert b.items[i] in b.items;
        SameKeepsNoProto(a.items[i], b.items[i]);
      }
    } else if a.Obj? && b.Obj? {
      forall f | f in a.fields ensures f.key != PROTO && NoProto(f.value) {
        var g :| g in b.fields && g.key == f.key;
        assert Agree(f, g);
        SameKeepsNoProto(f.value, g.value);
      }
    }
  }

  /** A plain value that cannot be told from `a` although it differs in more than key order. */
  ghost predicate Confused(less: Order, a: Json, b: Json) {
    Plain(b) && Canonicalize(less, a) == Canonicalize(less, b) && !SameUpToOrder(a, b)
  }

  /** Canonical forms tell a value from every plain one exactly when it has no `__proto__` key itself. */
  lemma ConfusedIffProto(less: Order, a: Json)
    requires IsOrder(less) && WellFormed(a)
    ensures (exists b :: Confused(less, a, b)) <==> !NoProto(a)
  {
    if !NoProto(a) {
      var b := Strip(a);
      StripIsPlain(a);
      CanonicalOfStrip(less, a);
      if SameUpToOrder(a, b) { SameKeepsNoProto(a, b); }
      assert Confused(less, a, b);
    }
    forall b | Confused(less, a, b) ensures !NoProto(a) {
      CanonicalFormsDecide(less, a, b);
    }
  }

  /** The smallest case: an object with nothing but this key looks like the empty object. */
  lemma ProtoLooksEmpty(less: Order, value: Json)
    ensures Canonicalize(less, Obj([Field(PROTO, value)])) == Canonicalize(less, Obj([]))
    ensures !SameUpToOrder(Obj([Field(PROTO, value)]), Obj([]))
  {
    var j := Obj([Field(PROTO, value)]);
    assert j.fields[0] in j.fields;
    assert CanonicalFields(less, j, j.fields) == CanonicalFields(less, j, j.fields[1..]) == [];
  }

  /** Hashing of a canonical value, shortened: any function to texts. */
  type Hash = Json -> string

  predicate NoCollision(hash: Hash, a: Json, b: Json) {
    hash(a) == hash(b) ==> a == b
  }

  /** What identifies an action within a run. */
  datatype Call = Call(runId: string, step: int, toolId: string, args: Json, attempt: int)

  /** The hashed record; the id and the key differ only in the name they give the arguments. */
  function Record(name: string, c: Call): seq<Field> {
    [Field("runId", Str(c.runId)), Field("step", Num(c.step as real)), Field("toolId", Str(c.toolId)),
     Field(name, c.args), Field("attempt", Num(c.attempt as real))]
  }

  /** What is hashed for the idempotency key, and for the action id. */
  function KeyForm(less: Order, c: Call): Json { Canonicalize(less, Obj(Record("arguments", c))) }

  function IdForm(less: Order, c: Call): Json { Canonicalize(less, Obj(Record("args", c))) }

  function IdempotencyKeyFor(less: Order, hash: Hash, c: Call): string {
    "idem_" + hash(KeyForm(less, c))
  }

  function ActionId(less: Order, hash: Hash, c: Call): string {
    "act_" + hash(IdForm(less, c))
  }

  predicate SameCall(c: Call, d: Call) {
    c.runId == d.runId && c.step == d.step && c.toolId == d.toolId && c.attempt == d.attempt
  }

  lemma FieldsAgree(f: seq<Field>, g: seq<Field>)
    requires |f| == |g| && DistinctFields(f) && forall i | 0 <= i < |f| :: f[i].key == g[i].key
    requires forall i | 0 <= i < |f| :: SameUpToOrder(f[i].value, g[i].value)
    ensures SameUpToOrder(Obj(f), Obj(g))
  {
    SameKeys(f, g);
    SameKeys(g, f);
    forall x, y | x in f && y in g ensures Agree(x, y) {
      var i :| 0 <= i < |f| && f[i] == x;
      var k :| 0 <= k < |g| && g[k] == y;
      assert f[k].key == y.key;
      if x.key == y.key { assert i == k; }
    }
  }

  lemma SameKeys(f: seq<Field>, g: seq<Field>)
    requires |f| == |g| && forall i | 0 <= i < |f| :: f[i].key == g[i].key
    ensures forall x | x in f :: HasKey(g, x.key)
  {
    forall x | x in f ensures HasKey(g, x.key) {
      var i :| 0 <= i < |f| && f[i] == x;
      assert g[i] in g;
    }
  }

  lemma FieldsWereAgreeing(f: seq<Field>, g: seq<Field>, i: nat)
    requires SameUpToOrder(Obj(f), Obj(g)) && i < |f| && i < |g| && f[i].key == g[i].key
    ensures SameUpToOrder(f[i].value, g[i].value)
  {
    assert f[i] in f && g[i] in g;
    assert Agree(f[i], g[i]);
  }

  lemma RecordDecides(name: string, c: Call, d: Call)
    requires name == "arguments" || name == "args"
    ensures SameUpToOrder(Obj(Record(name, c)), Obj(Record(name, d)))
            <==> SameCall(c, d) && SameUpToOrder(c.args, d.args)
  {
    if SameUpToOrder(Obj(Record(name, c)), Obj(Record(name, d))) { RecordsSame(name, c, d); }
    if SameCall(c, d) && SameUpToOrder(c.args, d.args) { SameRecords(name, c, d); }
  }

  lemma RecordsSame(name: string, c: Call, d: Call)
    requires SameUpToOrder(Obj(Record(name, c)), Obj(Record(name, d)))
    ensures SameCall(c, d) && SameUpToOrder(c.args, d.args)
  {
    RecordPlace(name, c, d, 0);
    RecordPlace(name, c, d, 1);
    RecordPlace(name, c, d, 2);
    RecordPlace(name, c, d, 3);
    RecordPlace(name, c, d, 4);
  }

  lemma RecordPlace(name: string, c: Call, d: Call, i: nat)
    requires SameUpToOrder(Obj(Record(name, c)), Obj(Record(name, d))) && i < 5
    ensures SameUpToOrder(Record(name, c)[i].value, Record(name, d)[i].value)
  {
    FieldsWereAgreeing(Record(name, c), Record(name, d), i);
  }

  lemma SameRecords(name: string, c: Call, d: Call)
    requires name == "arguments" || name == "args"
    requires SameCall(c, d) && SameUpToOrder(c.args, d.args)
    ensures SameUpToOrder(Obj(Record(name, c)), Obj(Record(name, d)))
  {
    var f, g := Record(name, c), Record(name, d);
    RecordDistinct(name, c);
    assert forall i | 0 <= i < 5 && i != 3 :: f[i] == g[i] && SameUpToOrder(f[i].value, g[i].value);
    assert f[3].value == c.args && g[3].value == d.args;
    FieldsAgree(f, g);
  }

  lemma RecordDistinct(name: string, c: Call)
    requires name == "arguments" || name == "args"
    ensures DistinctFields(Record(name, c))
  {
  }

  lemma RecordWellFormed(name: string, c: Call)
    requires (name == "arguments" || name == "args") && WellFormed(c.args)
    ensures WellFormed(Obj(Record(name, c)))
  {
  }

  lemma StripRecord(name: string, c: Call)
    requires name == "arguments" || name == "args"
    ensures Strip(Obj(Record(name, c))) == Obj(Record(name, c.(args := Strip(c.args))))
  {
    var j, fields := Obj(Record(name, c)), Record(name, c);
    assert fields[4..] == [fields[4]] && fields[3..][1..] == fields[4..] && fields[2..][1..] == fields[3..];
    assert fields[1..][1..] == fields[2..] && fields[4..][1..] == [];
    assert StripFields(j, fields[4..]) == [fields[4]];
    assert StripFields(j, fields[3..]) == [Field(name, Strip(c.args))] + [fields[4]];
    assert StripFields(j, fields[2..]) == [fields[2]] + StripFields(j, fields[3..]);
    assert StripFields(j, fields[1..]) == [fields[1]] + StripFields(j, fields[2..]);
    assert StripFields(j, fields) == [fields[0]] + StripFields(j, fields[1..]);
    assert StripFields(j, fields) == Record(name, c.(args := Strip(c.args)));
  }

  /** Equal in everything that identifies an action, the arguments up to key order and the dropped key. */
  ghost predicate SameAction(c: Call, d: Call) {
    SameCall(c, d) && SameUpToOrder(Strip(c.args), Strip(d.args))
  }

  lemma RecordFormsDecide(less: Order, name: string, c: Call, d: Call)
    requires IsOrder(less) && WellFormed(c.args) && WellFormed(d.args) && (name == "arguments" || name == "args")
    ensures Canonicalize(less, Obj(Record(name, c))) == Canonicalize(less, Obj(Record(name, d))) <==> SameAction(c, d)
  {
    RecordWellFormed(name, c);
    RecordWellFormed(name, d);
    StripRecord(name, c);
    StripRecord(name, d);
    RecordDecides(name, c.(args := Strip(c.args)), d.(args := Strip(d.args)));
    CanonicalFormsDecide(less, Obj(Record(name, c)), Obj(Record(name, d)));
  }

  lemma PrefixKeepsApart(prefix: string, a: string, b: string)
    ensures prefix + a == prefix + b <==> a == b
  {
    assert (prefix + a)[|prefix|..] == a && (prefix + b)[|prefix|..] == b;
  }

  /** Two actions whose records do not collide get the same key exactly when run, step, tool and attempt agree and
      the arguments agree up to key order and the dropped key; without that key, exactly up to key order. */
  lemma KeysDecide(less: Order, hash: Hash, c: Call, d: Call)
    requires IsOrder(less) && WellFormed(c.args) && WellFormed(d.args)
    requires NoCollision(hash, KeyForm(less, c), KeyForm(less, d))
    ensures IdempotencyKeyFor(less, hash, c) == IdempotencyKeyFor(less, hash, d) <==> SameAction(c, d)
    ensures NoProto(c.args) && NoProto(d.args) ==>
              (SameAction(c, d) <==> SameCall(c, d) && SameUpToOrder(c.args, d.args))
  {
    PrefixKeepsApart("idem_", hash(KeyForm(less, c)), hash(KeyForm(less, d)));
    RecordFormsDecide(less, "arguments", c, d);
    if NoProto(c.args) && NoProto(d.args) {
      StripOfPlain(c.args);
      StripOfPlain(d.args);
    }
  }

  /** The action id distinguishes exactly what the idempotency key distinguishes. */
  lemma IdsDecide(less: Order, hash: Hash, c: Call, d: Call)
    requires IsOrder(less) && WellFormed(c.args) && WellFormed(d.args)
    requires NoCollision(hash, KeyForm(less, c), KeyForm(less, d))
              && NoCollision(hash, IdForm(less, c), IdForm(less, d))
    ensures ActionId(less, hash, c) == ActionId(less, hash, d)
            <==> IdempotencyKeyFor(less, hash, c) == IdempotencyKeyFor(less, hash, d)
  {
    PrefixKeepsApart("act_", hash(IdForm(less, c)), hash(IdForm(less, d)));
    RecordFormsDecide(less, "args", c, d);
    KeysDecide(less, hash, c, d);
  }

  /** A batch that `planWaves` accepts, having distinct action ids, has distinct idempotency keys too, unless two of
      the records hashed for the keys collide. */
  lemma DistinctIdsGiveDistinctKeys(less: Order, hash: Hash, calls: seq<Call>)
    requires IsOrder(less) && forall c | c in calls :: WellFormed(c.args)
    requires forall i, j | 0 <= i < j < |calls| :: NoCollision(hash, KeyForm(less, calls[i]), KeyForm(less, calls[j]))
    requires forall i, j | 0 <= i < j < |calls| :: ActionId(less, hash, calls[i]) != ActionId(less, hash, calls[j])
    ensures forall i, j | 0 <= i < j < |calls| ::
              IdempotencyKeyFor(less, hash, calls[i]) != IdempotencyKeyFor(less, hash, calls[j])
  {
    forall i, j | 0 <= i < j < |calls|
      ensures IdempotencyKeyFor(less, hash, calls[i]) != IdempotencyKeyFor(less, hash, calls[j])
    {
      KeysDecide(less, hash, calls[i], calls[j]);
      RecordFormsDecide(less, "args", calls[i], calls[j]);
    }
  }
}
