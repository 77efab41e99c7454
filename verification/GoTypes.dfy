/** Go types as the codec sees them through reflection, and their values. */
module GoTypes {
  import opened JsonText
  import Strings

  /** Basic types are read and written by the standard library; `KRaw` is `interface{}`, which keeps any
      JSON.  A container of pointers to basic types is left to the standard library as a whole: such an
      element is a `KPtr`, whose nil pointer is null.  `KOwn` is a struct, map or slice type with marshalers
      of its own, such as a time or `json.RawMessage`: the codec calls those for each value, and the value
      is the JSON that they write, which for the zero value is `zero`. */
  datatype Kind = KString | KNumber | KBool | KRaw | KPtr(to: Kind) | KOwn(zero: Json)

  datatype Schema =
    | Leaf(kind: Kind)
    | Ptr(elem: Schema)
    | Struct(fields: seq<Field>)
    | Map(elem: Schema)
    | Slice(elem: Schema)

  datatype Field = Field(goName: string, tag: string, schema: Schema)

  /** `NilV` is a nil pointer, map or slice. */
  datatype Value =
    | LeafV(j: Json) | NilV | PtrV(v: Value) | StructV(vals: seq<Value>)
    | MapV(m: map<string, Value>) | SliceV(items: seq<Value>)

  const ADD_FIELD := "AdditionalFields"
  const ADD_SCHEMA := Map(Leaf(KRaw))

  predicate IsAdd(f: Field) { f.goName == ADD_FIELD }

  /** Private fields start with a lowercase letter and are never written. */
  predicate Private(f: Field) { f.goName != "" && 'a' <= f.goName[0] <= 'z' }

  function ParseTag(tag: string): string {
    if tag == "" || tag[0] == ',' then "" else [tag[0]] + ParseTag(tag[1..])
  }

  function JsonName(f: Field): string {
    var name := ParseTag(f.tag);
    if name == "" || name == "-" then f.goName else name
  }

  predicate OmitEmpty(f: Field) { "omitempty" in Strings.Split(f.tag, ',') }

  function ZeroLeaf(k: Kind): Json {
    match k
    case KString => JStr("")
    case KNumber => JNum("0")
    case KBool => JBool(false)
    case KOwn(zero) => zero
    case _ => JNull
  }

  function Zero(s: Schema): Value
    decreases s, 1
  {
    match s
    case Leaf(k) => LeafV(ZeroLeaf(k))
    case Struct(fields) => StructV(ZeroFields(fields))
    case _ => NilV
  }

  function ZeroFields(fields: seq<Field>): (r: seq<Value>)
    ensures |r| == |fields|
    ensures forall i | 0 <= i < |fields| :: r[i] == Zero(fields[i].schema)
    decreases fields, 0
  {
    if fields == [] then [] else [Zero(fields[0].schema)] + ZeroFields(fields[1..])
  }

  predicate Own(s: Schema) { s.Leaf? && s.kind.KOwn? }

  predicate Basic(s: Schema) { s.Leaf? && !s.kind.KOwn? }

  /** Types that the codec walks itself, or has walk themselves, instead of leaving a container of them to
      the standard library. */
  predicate Composite(s: Schema) { s.Struct? || s.Map? || s.Slice? || Own(s) || (s.Ptr? && s.elem.Struct?) }

  predicate Fits(k: Kind, j: Json) {
    match k
    case KString => j.JStr?
    case KNumber => j.JNum?
    case KBool => j.JBool?
    case KRaw => true
    case KOwn(_) => true
    case KPtr(to) => j == JNull || Fits(to, j)
  }

  /** Null is a value of the kind, and not just no value at all. */
  predicate TakesNull(k: Kind) { k.KRaw? || k.KPtr? || k.KOwn? }

  /** The type stands only for an element of a container. */
  predicate ElementOnly(s: Schema) { s.Leaf? && s.kind.KPtr? }

  /** Pointers in containers lead to plain basic types, and zero values are written as JSON. */
  predicate PlainKind(k: Kind) {
    (k.KPtr? ==> k.to.KString? || k.to.KNumber? || k.to.KBool?) && (k.KOwn? ==> Plain(k.zero))
  }

  /** The index of the field that a member key leads to: the field with that JSON name,
      otherwise the field with that Go name. */
  function Target(fields: seq<Field>, key: string): (r: int)
    ensures -1 <= r < |fields|
  {
    var i := IndexOfJson(fields, key);
    if i >= 0 then IndexOfGo(fields, fields[i].goName) else IndexOfGo(fields, key)
  }

  function IndexOfJson(fields: seq<Field>, name: string): (r: int)
    ensures -1 <= r < |fields|
    ensures r >= 0 ==> JsonName(fields[r]) == name
    ensures r == -1 ==> forall f | f in fields :: JsonName(f) != name
  {
    if fields == [] then -1
    else if JsonName(fields[0]) == name then 0
    else var r := IndexOfJson(fields[1..], name); if r == -1 then -1 else r + 1
  }

  function IndexOfGo(fields: seq<Field>, name: string): (r: int)
    ensures -1 <= r < |fields|
    ensures r >= 0 ==> fields[r].goName == name
    ensures r == -1 ==> forall f | f in fields :: f.goName != name
  {
    if fields == [] then -1
    else if fields[0].goName == name then 0
    else var r := IndexOfGo(fields[1..], name); if r == -1 then -1 else r + 1
  }

  /** The struct has a field for unknown members, of the right type. */
  predicate HasAdd(fields: seq<Field>) {
    var a := IndexOfGo(fields, ADD_FIELD);
    a >= 0 && fields[a].schema == ADD_SCHEMA
  }

  /** Pointers lead to structs or basic types; containers hold basic or composite types, or pointers to them. */
  ghost predicate Shaped(s: Schema) {
    match s
    case Leaf(k) => PlainKind(k)
    case Ptr(e) => (e.Leaf? || e.Struct?) && Shaped(e) && !ElementOnly(e)
    case Map(e) => (e.Leaf? || Composite(e)) && Shaped(e)
    case Slice(e) => (e.Leaf? || Composite(e)) && Shaped(e)
    case Struct(fields) =>
      && (forall i | 0 <= i < |fields| ::
            Shaped(fields[i].schema) && (IsAdd(fields[i]) ==> fields[i].schema == ADD_SCHEMA))
      && (forall i | 0 <= i < |fields| :: !ElementOnly(fields[i].schema))
  }

  /** The types the codec supports in both directions: every struct keeps its unknown members,
      pointers lead to structs or basic types, names are unambiguous. */
  ghost predicate Supported(s: Schema) {
    match s
    case Leaf(k) => PlainKind(k)
    case Ptr(e) => (e.Leaf? || e.Struct?) && Supported(e) && !ElementOnly(e)
    case Map(e) => (e.Leaf? || Composite(e)) && Supported(e)
    case Slice(e) => (e.Leaf? || Composite(e)) && Supported(e)
    case Struct(fields) =>
      && (forall i | 0 <= i < |fields| :: Supported(fields[i].schema))
      && (forall i | 0 <= i < |fields| :: !ElementOnly(fields[i].schema))
      && HasAdd(fields)
      && (forall i, j | 0 <= i < j < |fields| ::
            fields[i].goName != fields[j].goName && JsonName(fields[i]) != JsonName(fields[j]))
  }

  /** `v` is a value of type `s`. */
  ghost predicate Conforms(s: Schema, v: Value) {
    match s
    case Leaf(k) => v.LeafV? && Fits(k, v.j) && Plain(v.j)
    case Ptr(e) => v.NilV? || (v.PtrV? && Conforms(e, v.v))
    case Map(e) => v.NilV? || (v.MapV? && forall k | k in v.m :: Conforms(e, v.m[k]))
    case Slice(e) => v.NilV? || (v.SliceV? && forall x | x in v.items :: Conforms(e, x))
    case Struct(fields) =>
      v.StructV? && |v.vals| == |fields| && forall i | 0 <= i < |fields| :: Conforms(fields[i].schema, v.vals[i])
  }

  /** Each field's own JSON name leads to that field. */
  lemma {:induction false} TargetOwn(fields: seq<Field>, i: nat)
    requires Supported(Struct(fields)) && i < |fields|
    ensures Target(fields, JsonName(fields[i])) == i
    ensures IndexOfGo(fields, fields[i].goName) == i
  {
    hide IndexOfGo, IndexOfJson, JsonName, ElementOnly, PlainKind, Composite, HasAdd;
  }

  predicate DistinctNames(fields: seq<Field>) {
    forall i, j | 0 <= i < j < |fields| :: fields[i].goName != fields[j].goName
  }

  lemma SupportedStruct(fields: seq<Field>)
    requires Supported(Struct(fields))
    ensures HasAdd(fields) && DistinctNames(fields)
  {
    hide HasAdd, ElementOnly, PlainKind, Composite, JsonName;
  }

  lemma {:induction false} AddSupported(fields: seq<Field>)
    requires Supported(Struct(fields))
    ensures var a := IndexOfGo(fields, ADD_FIELD);
      && a >= 0 && fields[a].schema == ADD_SCHEMA && !Private(fields[a])
      && forall i | 0 <= i < |fields| :: IsAdd(fields[i]) <==> i == a
  {
    SupportedStruct(fields);
    hide Supported, IndexOfGo;
  }

  lemma {:induction false} SupportedShaped(s: Schema)
    requires Supported(s)
    ensures Shaped(s)
  {
    match s
    case Leaf(_) =>
    case Ptr(e) => SupportedShaped(e);
    case Map(e) => SupportedShaped(e);
    case Slice(e) => SupportedShaped(e);
    case Struct(fields) =>
      AddSupported(fields);
      forall i | 0 <= i < |fields| ensures Shaped(fields[i].schema) { SupportedShaped(fields[i].schema); }
  }
}
