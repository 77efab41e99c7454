/** What a document says about fields and elements of basic types: strings, numbers and booleans. */
module BasicFields {
  import opened Wrappers
  import opened JsonText
  import opened JsonStream
  import opened GoTypes
  import opened Unmarshal
  import Preserve
  import RoundTrip

  predicate IsBasic(s: Schema) { s == Leaf(KString) || s == Leaf(KNumber) || s == Leaf(KBool) }

  /** A string for a string, a number for a number, a boolean for a boolean. */
  predicate OfSort(s: Schema, j: Json) {
    (s == Leaf(KString) && j.JStr?) || (s == Leaf(KNumber) && j.JNum?) || (s == Leaf(KBool) && j.JBool?)
  }

  function ZeroOf(s: Schema): Json {
    if s == Leaf(KString) then JStr("") else if s == Leaf(KNumber) then JNum("0") else JBool(false)
  }

  /** The key is the JSON name of field `i`, or its Go name and no field's JSON name. */
  predicate Names(fields: seq<Field>, key: string, i: nat) {
    && i < |fields|
    && (JsonName(fields[i]) == key || (fields[i].goName == key && forall f | f in fields :: JsonName(f) != key))
  }

  predicate Public(f: Field) { f.goName == "" || !('a' <= f.goName[0] <= 'z') }

  /** A key leads to the one field that it names, and to none if it names none. */
  lemma TargetIs(fields: seq<Field>, key: string)
    requires Supported(Struct(fields))
    ensures forall i: nat :: Target(fields, key) == i <==> Names(fields, key, i)
  {
    forall i: nat | i < |fields| ensures IndexOfGo(fields, fields[i].goName) == i { TargetOwn(fields, i); }
    assert forall i, k | 0 <= i < k < |fields| :: JsonName(fields[i]) != JsonName(fields[k]);
    assert forall i | 0 <= i < |fields| :: fields[i] in fields;
    hide Supported, JsonName, IndexOfGo, IndexOfJson;
  }

  // ----- fields -----

  /** One member for a basic field: null changes nothing, a value of the sort is stored, and all else fails. */
  lemma BasicMember(fields: seq<Field>, vals: seq<Value>, key: string, i: nat, j: Json)
    requires |vals| == |fields| && Supported(Struct(fields)) && Names(fields, key, i)
    requires Public(fields[i]) && IsBasic(fields[i].schema)
    ensures FromMember(fields, vals, Member(key, j)) ==
      if j == JNull then Some(vals) else if OfSort(fields[i].schema, j) then Some(vals[i := LeafV(j)]) else None
  {
    TargetIs(fields, key);
    assert vals[i := vals[i]] == vals;
  }

  /** Null for a field of a basic type changes nothing, wherever it stands in an object. */
  lemma {:induction false} NullKeeps(fields: seq<Field>, vals: seq<Value>, a: seq<Member>, key: string,
    b: seq<Member>, i: nat)
    requires |vals| == |fields| && Supported(Struct(fields)) && Names(fields, key, i)
    requires Public(fields[i]) && IsBasic(fields[i].schema)
    ensures FromMembers(fields, vals, a + [Member(key, JNull)] + b) == FromMembers(fields, vals, a + b)
  {
    MemberBetween(fields, vals, a, Member(key, JNull), b);
    RoundTrip.MembersAppend(fields, vals, a, b);
    var done := FromMembers(fields, vals, a);
    if done.Some? {
      BasicMember(fields, done.value, key, i, JNull);
    }
  }

  lemma {:induction false} MemberBetween(fields: seq<Field>, vals: seq<Value>, a: seq<Member>, m: Member,
    b: seq<Member>)
    requires |vals| == |fields|
    ensures FromMembers(fields, vals, a + [m] + b) ==
      match FromMembers(fields, vals, a)
      case None => None
      case Some(done) => match FromMember(fields, done, m) case None => None case Some(w) => FromMembers(fields, w, b)
  {
    assert a + [m] + b == a + ([m] + b) && ([m] + b)[1..] == b;
    RoundTrip.MembersAppend(fields, vals, a, [m] + b);
  }

  /** Any other JSON there fails the whole load. */
  lemma {:induction false} WrongSortFails(fields: seq<Field>, vals: seq<Value>, a: seq<Member>, key: string, j: Json,
    b: seq<Member>, i: nat)
    requires |vals| == |fields| && Supported(Struct(fields)) && Names(fields, key, i)
    requires Public(fields[i]) && IsBasic(fields[i].schema) && j != JNull && !OfSort(fields[i].schema, j)
    ensures FromMembers(fields, vals, a + [Member(key, j)] + b) == None
  {
    MemberBetween(fields, vals, a, Member(key, j), b);
    var done := FromMembers(fields, vals, a);
    if done.Some? {
      BasicMember(fields, done.value, key, i, j);
    }
  }

  /** What the last member for field `i` that is not null says, if there is one. */
  function LastGiven(fields: seq<Field>, members: seq<Member>, i: nat): Option<Json> {
    if members == [] then None
    else
      var m, before := members[|members| - 1], LastGiven(fields, members[..|members| - 1], i);
      if Names(fields, m.key, i) && m.val != JNull then Some(m.val) else before
  }

  /** After loading, a basic field holds what the last member for it that is not null said, or what it held
      before; and every such member was of its sort. */
  lemma {:induction false} LastDecides(fields: seq<Field>, vals: seq<Value>, members: seq<Member>, i: nat)
    requires |vals| == |fields| && Supported(Struct(fields)) && i < |fields|
    requires Public(fields[i]) && IsBasic(fields[i].schema) && FromMembers(fields, vals, members).Some?
    ensures var last := LastGiven(fields, members, i);
      FromMembers(fields, vals, members).value[i] == if last.Some? then LeafV(last.value) else vals[i]
    ensures forall m | m in members && Names(fields, m.key, i) :: m.val == JNull || OfSort(fields[i].schema, m.val)
  {
    hide Supported, Names, OfSort, IsBasic, Public, FromMember;
    if members != [] {
      var n := |members| - 1;
      var before, m := members[..n], members[n];
      assert before + [m] + [] == members;
      MemberBetween(fields, vals, before, m, []);
      LastDecides(fields, vals, before, i);
      if Names(fields, m.key, i) {
        BasicMember(fields, FromMembers(fields, vals, before).value, m.key, i, m.val);
      } else {
        OtherMember(fields, FromMembers(fields, vals, before).value, m, i);
      }
    }
  }

  lemma {:induction false} OtherMember(fields: seq<Field>, vals: seq<Value>, m: Member, i: nat)
    requires |vals| == |fields| && Supported(Struct(fields)) && i < |fields| && IsBasic(fields[i].schema)
    requires !Names(fields, m.key, i) && FromMember(fields, vals, m).Some?
    ensures FromMember(fields, vals, m).value[i] == vals[i]
  {
    TargetIs(fields, m.key);
    AddSupported(fields);
    hide Supported, Names, FromJson, Target, IndexOfGo;
  }

  /** The same for whole documents, as they are read from their text. */
  lemma NullKeepsText(fields: seq<Field>, cur: Value, a: seq<Member>, key: string, b: seq<Member>, i: nat)
    requires Supported(Struct(fields)) && Names(fields, key, i)
    requires Public(fields[i]) && IsBasic(fields[i].schema)
    ensures Loaded(fields, cur, JObj(a + [Member(key, JNull)] + b)) == Loaded(fields, cur, JObj(a + b))
  {
    var with, without := JObj(a + [Member(key, JNull)] + b), JObj(a + b);
    if cur.StructV? && |cur.vals| == |fields| {
      NullKeeps(fields, cur.vals, a, key, b, i);
    }
    assert FromJson(Struct(fields), cur, with) == FromJson(Struct(fields), cur, without);
    hide FromJson, Read, Text;
    Preserve.TextMeaning(fields, cur, with);
    Preserve.TextMeaning(fields, cur, without);
  }

  /** What the text of a document is decoded to. */
  function Loaded(fields: seq<Field>, cur: Value, j: Json): Option<Value> {
    match Read(Struct(fields), cur, Stream(Text(j), TopValue, [])) case None => None case Some((v, _)) => Some(v)
  }

  // ----- elements -----

  /** An element of a basic type is zero where the document has null. */
  function ElementOf(e: Schema, j: Json): Value { LeafV(if j == JNull then ZeroOf(e) else j) }

  lemma {:induction false} BasicElement(e: Schema, j: Json)
    requires IsBasic(e)
    ensures FromElem(e, j) == if j == JNull || OfSort(e, j) then Some(ElementOf(e, j)) else None
  {
  }

  /** A map of basic elements is read exactly if all of them are null or of the sort; each key holds what its
      last member says. */
  lemma {:induction false} MapOfBasics(e: Schema, members: seq<Member>)
    requires IsBasic(e)
    ensures FromMap(e, JNull) == Some(NilV)
    ensures FromMap(e, JObj(members)).Some? <==> forall x | x in members :: x.val == JNull || OfSort(e, x.val)
    ensures FromMap(e, JObj(members)).Some? ==>
      var v := FromMap(e, JObj(members)).value;
      && v.MapV? && (forall k :: k in v.m <==> Preserve.LastOf(members, k).Some?)
      && forall k | k in v.m :: v.m[k] == ElementOf(e, Preserve.LastOf(members, k).value)
  {
    EntriesOfBasics(e, map[], members);
  }

  /** What the members leave of `m`, key by key. */
  ghost predicate EntriesSet(e: Schema, m: map<string, Value>, members: seq<Member>, m': map<string, Value>) {
    forall k :: EntrySet(e, m, Preserve.LastOf(members, k), m', k)
  }

  predicate EntrySet(e: Schema, m: map<string, Value>, last: Option<Json>, m': map<string, Value>, k: string) {
    if last.Some? then k in m' && m'[k] == ElementOf(e, last.value)
    else (k in m' <==> k in m) && (k in m ==> m'[k] == m[k])
  }

  lemma {:induction false} EntriesOfBasics(e: Schema, m: map<string, Value>, members: seq<Member>)
    requires IsBasic(e)
    ensures FromEntries(e, m, members).Some? <==> forall x | x in members :: x.val == JNull || OfSort(e, x.val)
    ensures FromEntries(e, m, members).Some? ==> EntriesSet(e, m, members, FromEntries(e, m, members).value)
    decreases members
  {
    hide OfSort, IsBasic, FromElem, ElementOf;
    if members != [] {
      var x, rest := members[0], members[1..];
      BasicElement(e, x.val);
      assert members == [x] + rest;
      if FromElem(e, x.val).Some? {
        var m1 := m[x.key := ElementOf(e, x.val)];
        EntriesOfBasics(e, m1, rest);
        if FromEntries(e, m1, rest).Some? {
          FirstSet(e, m, x, rest, FromEntries(e, m1, rest).value);
        }
      }
    }
  }

  lemma FirstSet(e: Schema, m: map<string, Value>, x: Member, rest: seq<Member>, m': map<string, Value>)
    requires EntriesSet(e, m[x.key := ElementOf(e, x.val)], rest, m')
    ensures EntriesSet(e, m, [x] + rest, m')
  {
    hide ElementOf;
    var members := [x] + rest;
    assert members[1..] == rest;
    forall k ensures EntrySet(e, m, Preserve.LastOf(members, k), m', k) {
      assert EntrySet(e, m[x.key := ElementOf(e, x.val)], Preserve.LastOf(rest, k), m', k);
    }
  }

  /** A slice of basic elements, likewise, in the order of the document. */
  lemma {:induction false} SliceOfBasics(e: Schema, cur: Value, items: seq<Json>)
    requires IsBasic(e)
    ensures FromSlice(e, cur, JNull) == Some(NilV)
    ensures FromSlice(e, cur, JArr(items)) ==
      if forall x | x in items :: x == JNull || OfSort(e, x)
      then Some(SliceV(ElementsOf(e, items))) else None
  {
    ItemsOfBasics(e, [], items);
    assert [] + ElementsOf(e, items) == ElementsOf(e, items);
  }

  function ElementsOf(e: Schema, items: seq<Json>): seq<Value> {
    seq(|items|, n requires 0 <= n < |items| => ElementOf(e, items[n]))
  }

  lemma {:induction false} ItemsOfBasics(e: Schema, done: seq<Value>, items: seq<Json>)
    requires IsBasic(e)
    ensures FromItems(e, done, items) ==
      if forall x | x in items :: x == JNull || OfSort(e, x)
      then Some(done + ElementsOf(e, items)) else None
    decreases items
  {
    hide OfSort, IsBasic, FromElem, ElementOf;
    if items == [] {
      assert done + ElementsOf(e, items) == done;
    } else {
      BasicElement(e, items[0]);
      assert items == [items[0]] + items[1..];
      if FromElem(e, items[0]).Some? {
        ItemsOfBasics(e, done + [ElementOf(e, items[0])], items[1..]);
        assert done + ElementsOf(e, items) == done + [ElementOf(e, items[0])] + ElementsOf(e, items[1..]);
      }
    }
  }

  // ----- null elsewhere -----

  /** Null leaves a pointer to a basic type on what it led to, or on a zero value; it makes one to a type with
      its own unmarshaler nil. */
  lemma {:induction false} NullPointers(e: Schema, zero: Json, v: Value, cur: Value)
    requires IsBasic(e)
    ensures FromJson(Ptr(e), PtrV(v), JNull) == Some(PtrV(v))
    ensures FromJson(Ptr(e), NilV, JNull) == Some(PtrV(LeafV(ZeroOf(e))))
    ensures FromJson(Ptr(Leaf(KOwn(zero))), cur, JNull) == Some(NilV)
  {
    hide FromMap, FromSlice, FromMembers;
  }

  /** It makes a container of structs empty, one of basic types nil, and is no struct. */
  lemma {:induction false} NullContainers(e: Schema, fields: seq<Field>, cur: Value)
    requires IsBasic(e)
    ensures FromJson(Map(e), cur, JNull) == Some(NilV) == FromJson(Slice(e), cur, JNull)
    ensures FromJson(Map(Struct(fields)), cur, JNull) == Some(MapV(map[]))
    ensures FromJson(Slice(Struct(fields)), cur, JNull) == Some(SliceV([]))
    ensures FromJson(Struct(fields), cur, JNull) == None == FromJson(Ptr(Struct(fields)), cur, JNull)
  {
    hide FromEntries, FromItems, FromMembers, FromLeaf;
  }
}
