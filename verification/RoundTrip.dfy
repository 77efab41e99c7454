/** Decoding what the printer wrote: exactly when, and up to what, the value comes back. */
module RoundTrip {
  import opened Wrappers
  import opened JsonText
  import opened GoTypes
  import opened Marshal
  import opened Unmarshal

  /** What a value looks like after a round trip: nil containers come back empty, fields that are
      not written come back zero, an empty slice of composites inside a container comes back nil, and so
      does a pointer to a value that writes itself as null. */
  function Normal(s: Schema, v: Value): (r: Value)
    decreases v, 1
  {
    match s
    case Leaf(_) => v
    case Ptr(e) => if v.PtrV? && !(Own(e) && v.v == LeafV(JNull)) then PtrV(Normal(e, v.v)) else NilV
    case Struct(fields) => if v.StructV? && |v.vals| == |fields| then StructV(NormalFields(fields, v.vals)) else v
    case Map(e) => if v.MapV? then MapV(NormalMap(e, v)) else MapV(map[])
    case Slice(e) => if v.SliceV? then SliceV(NormalItems(e, v.items)) else SliceV([])
  }

  function NormalField(f: Field, v: Value): Value
    decreases v, 2
  {
    if Emits(f, v) then Normal(f.schema, v) else Zero(f.schema)
  }

  function NormalFields(fields: seq<Field>, vals: seq<Value>): (r: seq<Value>)
    requires |fields| == |vals|
    ensures |r| == |vals| && forall i | 0 <= i < |vals| :: r[i] == NormalField(fields[i], vals[i])
    decreases vals, 0
  {
    if vals == [] then [] else [NormalField(fields[0], vals[0])] + NormalFields(fields[1..], vals[1..])
  }

  function NormalMap(e: Schema, v: Value): map<string, Value>
    requires v.MapV?
    decreases v, 0
  {
    map k | k in v.m :: NormalElem(e, v.m[k])
  }

  function NormalItems(e: Schema, items: seq<Value>): (r: seq<Value>)
    ensures |r| == |items| && forall i | 0 <= i < |items| :: r[i] == NormalElem(e, items[i])
    decreases items, 0
  {
    if items == [] then [] else [NormalElem(e, items[0])] + NormalItems(e, items[1..])
  }

  function NormalElem(e: Schema, v: Value): Value
    decreases v, 2
  {
    if e.Slice? && Composite(e.elem) && (!v.SliceV? || v.items == []) then NilV else Normal(e, v)
  }

  /** The value is its own normal form: what is not written is zero, no container that is written is nil,
      inside containers an empty slice of composites is nil, and no pointer leads to a value that writes
      itself as null. */
  ghost predicate Settled(s: Schema, v: Value)
    decreases v, 1
  {
    match s
    case Leaf(_) => true
    case Ptr(e) => v.PtrV? ==> Settled(e, v.v) && !(Own(e) && v.v == LeafV(JNull))
    case Struct(fields) =>
      v.StructV? && |v.vals| == |fields| ==> forall i | 0 <= i < |fields| ::
        if Emits(fields[i], v.vals[i]) then Settled(fields[i].schema, v.vals[i])
        else v.vals[i] == Zero(fields[i].schema)
    case Map(e) => v.MapV? && forall k | k in v.m :: SettledElem(e, v.m[k])
    case Slice(e) => v.SliceV? && forall i | 0 <= i < |v.items| :: SettledElem(e, v.items[i])
  }

  ghost predicate SettledElem(e: Schema, v: Value)
    decreases v, 2
  {
    if e.Slice? && Composite(e.elem) && (!v.SliceV? || v.items == []) then v.NilV? else Settled(e, v)
  }

  lemma {:induction false} NormalIsSame(s: Schema, v: Value)
    requires Conforms(s, v)
    ensures Normal(s, v) == v <==> Settled(s, v)
    decreases v, 1, s
  {
    match s
    case Leaf(_) =>
    case Ptr(e) => if v.PtrV? { NormalIsSame(e, v.v); }
    case Struct(fields) =>
      forall i | 0 <= i < |fields|
        ensures Normal(fields[i].schema, v.vals[i]) == v.vals[i] <==> Settled(fields[i].schema, v.vals[i])
      {
        NormalIsSame(fields[i].schema, v.vals[i]);
      }
      SameFields(fields, v.vals);
    case Map(e) =>
      if v.MapV? {
        forall k | k in v.m
          ensures NormalElem(e, v.m[k]) == v.m[k] <==> SettledElem(e, v.m[k])
        {
          ElemIsSame(e, v.m[k]);
        }
        assert NormalMap(e, v) == v.m <==> forall k | k in v.m :: NormalMap(e, v)[k] == v.m[k];
      }
    case Slice(e) =>
      if v.SliceV? {
        forall i | 0 <= i < |v.items| ensures NormalElem(e, v.items[i]) == v.items[i] <==> SettledElem(e, v.items[i]) {
          assert v.items[i] in v.items;
          ElemIsSame(e, v.items[i]);
        }
        assert NormalItems(e, v.items) == v.items
          <==> forall i | 0 <= i < |v.items| :: NormalItems(e, v.items)[i] == v.items[i];
      }
  }

  lemma {:induction false} ElemIsSame(e: Schema, v: Value)
    requires Conforms(e, v)
    ensures NormalElem(e, v) == v <==> SettledElem(e, v)
    decreases v, 2
  {
    NormalIsSame(e, v);
  }

  lemma {:induction false} SameFields(fields: seq<Field>, vals: seq<Value>)
    requires |fields| == |vals|
    ensures NormalFields(fields, vals) == vals
      <==> forall i | 0 <= i < |fields| :: NormalField(fields[i], vals[i]) == vals[i]
  {
    assert forall i | 0 <= i < |fields| :: NormalFields(fields, vals)[i] == NormalField(fields[i], vals[i]);
  }

  /** Every written struct has something to write, and none of its unknown members carries a name
      that leads to one of its fields. */
  ghost predicate Clean(s: Schema, v: Value) {
    match s
    case Leaf(_) => true
    case Ptr(e) => v.PtrV? ==> Clean(e, v.v)
    case Struct(fields) =>
      && v.StructV? && |v.vals| == |fields|
      && (exists i | 0 <= i < |fields| :: Emits(fields[i], v.vals[i]))
      && (forall i | 0 <= i < |fields| :: Emits(fields[i], v.vals[i]) ==> Clean(fields[i].schema, v.vals[i]))
      && NoClash(fields, v.vals)
    case Map(e) => v.MapV? ==> forall k | k in v.m :: Clean(e, v.m[k])
    case Slice(e) => v.SliceV? ==> forall x | x in v.items :: Clean(e, x)
  }

  ghost predicate NoClash(fields: seq<Field>, vals: seq<Value>)
    requires |fields| == |vals|
  {
    forall i, k | 0 <= i < |fields| && IsAdd(fields[i]) && vals[i].MapV? && k in vals[i].m :: Target(fields, k) == -1
  }

  // ----- containers -----

  /** When every entry decodes to what `want` holds under its key, the entries build up part of `want`. */
  lemma {:induction false} EntriesAgree(e: Schema, m: map<string, Value>, members: seq<Member>, want: map<string,
    Value>)
    requires forall k | k in m :: k in want && m[k] == want[k]
    requires forall i | 0 <= i < |members| ::
      members[i].key in want && FromElem(e, members[i].val) == Some(want[members[i].key])
    ensures var r := FromEntries(e, m, members);
      r.Some? && (forall k | k in r.value :: k in want && r.value[k] == want[k]) && m.Keys <= r.value.Keys
    ensures forall i | 0 <= i < |members| :: members[i].key in FromEntries(e, m, members).value
    decreases members
  {
    if members != [] {
      EntriesAgree(e, m[members[0].key := want[members[0].key]], members[1..], want);
      assert forall i | 1 <= i < |members| :: members[i] == members[1..][i - 1];
    }
  }

  /** A key that no later entry carries keeps its value. */
  lemma {:induction false} EntriesKeep(e: Schema, m: map<string, Value>, members: seq<Member>, k: string)
    requires k in m && forall i | 0 <= i < |members| :: members[i].key != k
    ensures var r := FromEntries(e, m, members); r.Some? ==> k in r.value && r.value[k] == m[k]
    decreases members
  {
    if members != [] {
      var w := FromElem(e, members[0].val);
      if w.Some? { EntriesKeep(e, m[members[0].key := w.value], members[1..], k); }
    }
  }

  /** One entry that decodes to something else spoils the whole. */
  lemma {:induction false} EntriesDisagree(e: Schema, m: map<string, Value>, members: seq<Member>, i: nat,
    want: map<string, Value>)
    requires i < |members| && forall x, y | 0 <= x < y < |members| :: members[x].key != members[y].key
    requires members[i].key in want && FromElem(e, members[i].val) != Some(want[members[i].key])
    ensures FromEntries(e, m, members) != Some(want)
    decreases members
  {
    var w := FromElem(e, members[0].val);
    if w.Some? {
      var m' := m[members[0].key := w.value];
      if i == 0 {
        EntriesKeep(e, m', members[1..], members[0].key);
      } else {
        EntriesDisagree(e, m', members[1..], i - 1, want);
      }
    }
  }

  lemma {:induction false} ItemsAgree(e: Schema, done: seq<Value>, items: seq<Json>, want: seq<Value>)
    requires |items| == |want| && forall i | 0 <= i < |items| :: FromElem(e, items[i]) == Some(want[i])
    ensures FromItems(e, done, items) == Some(done + want)
    decreases items
  {
    if items == [] {
      assert done + want == done;
    } else {
      ItemsAgree(e, done + [want[0]], items[1..], want[1..]);
      assert done + [want[0]] + want[1..] == done + want;
    }
  }

  lemma {:induction false} ItemsKeep(e: Schema, done: seq<Value>, items: seq<Json>)
    ensures var r := FromItems(e, done, items);
      r.Some? ==> |r.value| == |done| + |items| && forall i | 0 <= i < |done| :: r.value[i] == done[i]
    decreases items
  {
    if items != [] {
      var w := FromElem(e, items[0]);
      if w.Some? {
        ItemsKeep(e, done + [w.value], items[1..]);
        assert forall i | 0 <= i < |done| :: (done + [w.value])[i] == done[i];
      }
    }
  }

  lemma {:induction false} ItemsDisagree(e: Schema, done: seq<Value>, items: seq<Json>, i: nat, want: seq<Value>)
    requires i < |items| && |want| == |done| + |items| && FromElem(e, items[i]) != Some(want[|done| + i])
    ensures FromItems(e, done, items) != Some(want)
    decreases items
  {
    var w := FromElem(e, items[0]);
    if w.Some? {
      var done' := done + [w.value];
      if i == 0 {
        ItemsKeep(e, done', items[1..]);
        assert done'[|done|] == w.value;
      } else {
        ItemsDisagree(e, done', items[1..], i - 1, want);
      }
    }
  }

  // ----- the theorem -----

  /** Decoding a printed value gives back that very value exactly if it is clean and settled. */
  lemma {:induction false} SameValueBack(s: Schema, v: Value, j: Json)
    requires Supported(s) && Conforms(s, v) && Represents(s, v, j)
    ensures FromJson(s, Zero(s), j) == Some(v) <==> Clean(s, v) && Settled(s, v)
  {
    hide FromJson, Clean, Settled, Represents, Normal, Conforms, Supported;
    RoundTrips(s, v, j);
    NormalIsSame(s, v);
  }

  /** Decoding a printed value gives back its normal form if and only if the value is clean; and never
      the value itself if it is not. */
  lemma {:induction false} RoundTrips(s: Schema, v: Value, j: Json)
    requires Supported(s) && Conforms(s, v) && Represents(s, v, j)
    ensures FromJson(s, Zero(s), j) == Some(Normal(s, v)) <==> Clean(s, v)
    ensures FromJson(s, Zero(s), j) == Some(v) ==> Clean(s, v)
    decreases v, 3
  {
    match s
    case Leaf(_) =>
    case Ptr(e) => RoundTrips(e, v.v, j);
    case Struct(fields) => StructRoundTrips(fields, v, j);
    case Map(e) => MapRoundTrips(e, v, j);
    case Slice(e) => SliceRoundTrips(e, v, j);
  }

  lemma {:induction false} ElemRoundTrips(e: Schema, v: Value, j: Json)
    requires Supported(e) && (Basic(e) || Composite(e)) && Conforms(e, v) && Represents(e, v, j)
    ensures FromElem(e, j) == Some(NormalElem(e, v)) <==> Clean(e, v)
    ensures FromElem(e, j) == Some(v) ==> Clean(e, v)
    decreases v, 4
  {
    RoundTrips(e, v, j);
    if e.Slice? { ItemsKeep(e.elem, [], j.items); }
  }

  lemma {:induction false} MapRoundTrips(e: Schema, v: Value, j: Json)
    requires Supported(Map(e)) && Conforms(Map(e), v) && Represents(Map(e), v, j)
    ensures FromMap(e, j) == Some(Normal(Map(e), v)) <==> Clean(Map(e), v)
    ensures FromMap(e, j) == Some(v) ==> Clean(Map(e), v)
    decreases v, 2
  {
    if v.MapV? {
      EntriesRoundTrip(e, v, j.members);
    }
  }

  lemma {:induction false} EntriesRoundTrip(e: Schema, v: Value, members: seq<Member>)
    requires Supported(Map(e)) && v.MapV? && Conforms(Map(e), v) && Represents(Map(e), v, JObj(members))
    ensures FromEntries(e, map[], members) == Some(NormalMap(e, v)) <==> forall k | k in v.m :: Clean(e, v.m[k])
    ensures FromEntries(e, map[], members) == Some(v.m) ==> forall k | k in v.m :: Clean(e, v.m[k])
    decreases v, 1
  {
    forall i | 0 <= i < |members|
      ensures members[i].key in v.m
      ensures ElemBack(e, v.m[members[i].key], members[i].val)
    {
      assert members[i] in members;
      ElemRoundTrips(e, v.m[members[i].key], members[i].val);
    }
    EntriesBack(e, v, members);
  }

  ghost predicate ElemBack(e: Schema, v: Value, j: Json) {
    (FromElem(e, j) == Some(NormalElem(e, v)) <==> Clean(e, v)) && (FromElem(e, j) == Some(v) ==> Clean(e, v))
  }

  lemma {:induction false} EntriesBack(e: Schema, v: Value, members: seq<Member>)
    requires v.MapV? && |members| == |v.m| && forall i, k | 0 <= i < k < |members| :: members[i].key != members[k].key
    requires forall i | 0 <= i < |members| :: members[i].key in v.m && ElemBack(e, v.m[members[i].key], members[i].val)
    ensures FromEntries(e, map[], members) == Some(NormalMap(e, v)) <==> forall k | k in v.m :: Clean(e, v.m[k])
    ensures FromEntries(e, map[], members) == Some(v.m) ==> forall k | k in v.m :: Clean(e, v.m[k])
  {
    hide Clean, FromElem, FromEntries, NormalElem;
    var want := NormalMap(e, v);
    ghost var good := set k | k in v.m && Clean(e, v.m[k]);
    assert |members| == |want| by { assert want.Keys == v.m.Keys && |want.Keys| == |want| && |v.m.Keys| == |v.m|; }
    EntriesIff(e, members, want, good);
    MemberKeys(v.m, members);
    if i :| 0 <= i < |members| && members[i].key !in good {
      EntriesDisagree(e, map[], members, i, v.m);
    }
    forall k | k in v.m ensures k in want.Keys && (k in good <==> Clean(e, v.m[k])) {}
  }

  lemma {:induction false} EntriesIff(e: Schema, members: seq<Member>, want: map<string, Value>, good: set<string>)
    requires |members| == |want|
    requires forall i, k | 0 <= i < k < |members| :: members[i].key != members[k].key
    requires forall i | 0 <= i < |members| ::
      members[i].key in want && (FromElem(e, members[i].val) == Some(want[members[i].key]) <==> members[i].key in good)
    ensures FromEntries(e, map[], members) == Some(want) <==> want.Keys <= good
  {
    MemberKeys(want, members);
    if i :| 0 <= i < |members| && members[i].key !in good {
      EntriesDisagree(e, map[], members, i, want);
    } else {
      EntriesAgree(e, map[], members, want);
      assert FromEntries(e, map[], members).value == want;
    }
  }

  /** A list of distinct keys of a map that is as long as the map has them all. */
  lemma MemberKeys(m: map<string, Value>, members: seq<Member>)
    requires |members| == |m| && forall i | 0 <= i < |members| :: members[i].key in m
    requires forall i, k | 0 <= i < k < |members| :: members[i].key != members[k].key
    ensures forall k | k in m :: exists i | 0 <= i < |members| :: members[i].key == k
  {
    var keys := DistinctKeys(members);
    assert keys <= m.Keys && |m.Keys| == |m|;
    if keys != m.Keys {
      var k :| k in m.Keys && k !in keys;
      assert |keys + {k}| <= |m.Keys| by { Subset(keys + {k}, m.Keys); }
    }
  }

  lemma Subset<T>(a: set<T>, b: set<T>)
    requires a <= b
    ensures |a| <= |b|
  {
    assert b == a + (b - a);
  }

  ghost function DistinctKeys(members: seq<Member>): (r: set<string>)
    ensures forall k :: k in r <==> exists i | 0 <= i < |members| :: members[i].key == k
    ensures (forall i, k | 0 <= i < k < |members| :: members[i].key != members[k].key) ==> |r| == |members|
  {
    if members == [] then {}
    else
      var n := |members| - 1;
      assert members == members[..n] + [members[n]];
      DistinctKeys(members[..n]) + {members[n].key}
  }

  lemma {:induction false} SliceRoundTrips(e: Schema, v: Value, j: Json)
    requires Supported(Slice(e)) && Conforms(Slice(e), v) && Represents(Slice(e), v, j)
    ensures FromSlice(e, SliceV([]), j) == Some(Normal(Slice(e), v)) <==> Clean(Slice(e), v)
    ensures FromSlice(e, SliceV([]), j) == Some(v) ==> Clean(Slice(e), v)
    decreases v, 2
  {
    if v.SliceV? {
      ItemsRoundTrip(e, v.items, j.items);
    }
  }

  lemma {:induction false} ItemsRoundTrip(e: Schema, vals: seq<Value>, items: seq<Json>)
    requires Supported(e) && (Basic(e) || Composite(e)) && forall x | x in vals :: Conforms(e, x)
    requires |items| == |vals| && forall i | 0 <= i < |items| :: Represents(e, vals[i], items[i])
    ensures FromItems(e, [], items) == Some(NormalItems(e, vals)) <==> forall x | x in vals :: Clean(e, x)
    ensures FromItems(e, [], items) == Some(vals) ==> forall x | x in vals :: Clean(e, x)
    decreases vals, 5
  {
    var want := NormalItems(e, vals);
    forall i | 0 <= i < |items|
      ensures FromElem(e, items[i]) == Some(want[i]) <==> Clean(e, vals[i])
      ensures FromElem(e, items[i]) == Some(vals[i]) ==> Clean(e, vals[i])
    {
      assert vals[i] in vals;
      ElemRoundTrips(e, vals[i], items[i]);
    }
    hide Clean, Conforms, Represents, FromElem, FromItems, Supported;
    ItemsIff(e, items, want);
    ItemsIff(e, items, vals);
    assert forall i | 0 <= i < |vals| :: vals[i] in vals;
  }

  lemma {:induction false} ItemsIff(e: Schema, items: seq<Json>, want: seq<Value>)
    requires |items| == |want|
    ensures FromItems(e, [], items) == Some(want)
      <==> forall i | 0 <= i < |items| :: FromElem(e, items[i]) == Some(want[i])
  {
    if i :| 0 <= i < |items| && FromElem(e, items[i]) != Some(want[i]) {
      ItemsDisagree(e, [], items, i, want);
    } else {
      ItemsAgree(e, [], items, want);
      assert [] + want == want;
    }
  }

  // ----- structs -----

  lemma {:induction false} StructRoundTrips(fields: seq<Field>, v: Value, j: Json)
    requires Supported(Struct(fields)) && Conforms(Struct(fields), v) && Represents(Struct(fields), v, j)
    ensures FromJson(Struct(fields), Zero(Struct(fields)), j) == Some(Normal(Struct(fields), v))
      <==> Clean(Struct(fields), v)
    ensures FromJson(Struct(fields), Zero(Struct(fields)), j) == Some(v) ==> Clean(Struct(fields), v)
    decreases v, 2
  {
    hide Supported, Conforms, Clean;
    SupportedStruct(fields);
    CleanStruct(fields, v);
    var members := if j.JStray? then [] else j.members;
    SomeMember(fields, v.vals, |fields|, members);
    if j.JObj? {
      assert FromJson(Struct(fields), Zero(Struct(fields)), j) ==
        var vals := FromMembers(fields, ZeroFields(fields), members);
        if vals.None? then None else Some(StructV(vals.value));
      hide FromJson, FromMembers, RepresentsFields;
      MembersRoundTrip(fields, v.vals, members);
    }
  }

  lemma {:induction false} CleanStruct(fields: seq<Field>, v: Value)
    requires v.StructV? && |v.vals| == |fields|
    ensures Clean(Struct(fields), v) <==>
      (exists i | 0 <= i < |fields| :: Emits(fields[i], v.vals[i])) && CleanUpTo(fields, v.vals, |fields|)
        && NoClash(fields, v.vals)
  {
    hide Emits, NoClash;
  }

  lemma {:induction false} MembersRoundTrip(fields: seq<Field>, vals: seq<Value>, members: seq<Member>)
    requires |fields| == |vals| && Supported(Struct(fields)) && Conforms(Struct(fields), StructV(vals))
    requires RepresentsFields(fields, vals, |fields|, members)
    ensures FromMembers(fields, ZeroFields(fields), members) == Some(NormalFields(fields, vals)) <==>
            CleanUpTo(fields, vals, |fields|) && NoClash(fields, vals)
    ensures FromMembers(fields, ZeroFields(fields), members) == Some(vals) ==>
            CleanUpTo(fields, vals, |fields|) && NoClash(fields, vals)
    decreases vals, 6
  {
    hide RepresentsFields, Conforms, Supported;
    if NoClash(fields, vals) {
      FieldsRoundTrip(fields, vals, |fields|, members);
      PartialEnd(fields, vals);
    } else {
      ClashFails(fields, vals, members);
    }
  }

  /** Something is written exactly when some field is. */
  lemma {:induction false} SomeMember(fields: seq<Field>, vals: seq<Value>, n: nat, members: seq<Member>)
    requires n <= |fields| == |vals| && RepresentsFields(fields, vals, n, members)
    ensures members != [] <==> exists i | 0 <= i < n :: Emits(fields[i], vals[i])
  {
    if n > 0 {
      var cut := |members| - OwnCount(fields[n - 1], vals[n - 1]);
      SomeMember(fields, vals, n - 1, members[..cut]);
      assert Emits(fields[n - 1], vals[n - 1]) && IsAdd(fields[n - 1]) ==> |vals[n - 1].m| > 0;
    }
  }

  ghost predicate CleanUpTo(fields: seq<Field>, vals: seq<Value>, n: nat)
    requires n <= |fields| == |vals|
  {
    forall i | 0 <= i < n :: Emits(fields[i], vals[i]) ==> Clean(fields[i].schema, vals[i])
  }

  /** The struct after the members of its first `n` fields have been decoded. */
  function Partial(fields: seq<Field>, vals: seq<Value>, n: nat): (r: seq<Value>)
    requires n <= |fields| == |vals|
    ensures |r| == |fields|
    ensures forall i | 0 <= i < |fields| ::
      r[i] == if i < n then NormalField(fields[i], vals[i]) else Zero(fields[i].schema)
  {
    NormalFields(fields[..n], vals[..n]) + ZeroFields(fields[n..])
  }

  lemma {:induction false} PartialEnd(fields: seq<Field>, vals: seq<Value>)
    requires |fields| == |vals|
    ensures Partial(fields, vals, |fields|) == NormalFields(fields, vals)
  {
  }

  lemma PartialStep(fields: seq<Field>, vals: seq<Value>, n: nat)
    requires n < |fields| == |vals|
    ensures Partial(fields, vals, n + 1) == Partial(fields, vals, n)[n := NormalField(fields[n], vals[n])]
  {
    var next := Partial(fields, vals, n)[n := NormalField(fields[n], vals[n])];
    forall i | 0 <= i < |fields| ensures Partial(fields, vals, n + 1)[i] == next[i] {}
  }

  lemma {:induction false} MembersAppend(fields: seq<Field>, vals: seq<Value>, a: seq<Member>, b: seq<Member>)
    requires |vals| == |fields|
    ensures FromMembers(fields, vals, a + b) ==
      match FromMembers(fields, vals, a) case None => None case Some(vals') => FromMembers(fields, vals', b)
    decreases a
  {
    if a == [] {
      assert a + b == b;
    } else {
      assert (a + b)[1..] == a[1..] + b;
      var next := FromMember(fields, vals, a[0]);
      if next.Some? { MembersAppend(fields, next.value, a[1..], b); }
    }
  }

  /** Some field among the first `n` did not come back. */
  ghost predicate Spoilt(fields: seq<Field>, vals: seq<Value>, n: nat, got: Option<seq<Value>>)
    requires n <= |fields| == |vals|
  {
    got.None? || (|got.value| == |fields| &&
      exists i | 0 <= i < n ::
        !IsAdd(fields[i]) && got.value[i] != NormalField(fields[i], vals[i]) && got.value[i] != vals[i])
  }

  ghost predicate FieldsBack(fields: seq<Field>, vals: seq<Value>, n: nat, got: Option<seq<Value>>)
    requires n <= |fields| == |vals|
  {
    if CleanUpTo(fields, vals, n) then got == Some(Partial(fields, vals, n)) else Spoilt(fields, vals, n, got)
  }

  /** Decoding the members of field `i` into `cur` gives `got`: only that field changes, and it comes
      back if it starts from zero and is clean. */
  ghost predicate FieldBack(fields: seq<Field>, vals: seq<Value>, i: nat, cur: seq<Value>, got: Option<seq<Value>>)
    requires i < |fields| == |vals| == |cur|
  {
    && (got.Some? ==> |got.value| == |fields| && forall k | 0 <= k < |fields| && k != i :: got.value[k] == cur[k])
    && (cur[i] == Zero(fields[i].schema) ==>
          if Emits(fields[i], vals[i]) ==> Clean(fields[i].schema, vals[i]) then
            got == Some(cur[i := NormalField(fields[i], vals[i])])
          else
            !IsAdd(fields[i]) &&
            (got.None? || (got.value[i] != NormalField(fields[i], vals[i]) && got.value[i] != vals[i])))
  }

  lemma {:induction false} NoFieldYet(fields: seq<Field>, vals: seq<Value>, members: seq<Member>)
    requires |fields| == |vals| && RepresentsFields(fields, vals, 0, members)
    ensures FieldsBack(fields, vals, 0, FromMembers(fields, ZeroFields(fields), members))
  {
    assert Partial(fields, vals, 0) == ZeroFields(fields);
  }

  lemma LastField(fields: seq<Field>, vals: seq<Value>, n: nat, members: seq<Member>)
    returns (before: seq<Member>, own: seq<Member>)
    requires 0 < n <= |fields| == |vals| && RepresentsFields(fields, vals, n, members)
    ensures members == before + own
    ensures RepresentsFields(fields, vals, n - 1, before) && OwnMembers(fields[n - 1], vals[n - 1], own)
  {
    var cut := |members| - OwnCount(fields[n - 1], vals[n - 1]);
    before, own := members[..cut], members[cut..];
  }

  lemma {:induction false} FieldsRoundTrip(fields: seq<Field>, vals: seq<Value>, n: nat, members: seq<Member>)
    requires n <= |fields| == |vals| && Supported(Struct(fields)) && Conforms(Struct(fields), StructV(vals))
    requires RepresentsFields(fields, vals, n, members) && NoClash(fields, vals)
    ensures FieldsBack(fields, vals, n, FromMembers(fields, ZeroFields(fields), members))
    decreases vals, 5, n
  {
    hide *;
    if n == 0 {
      NoFieldYet(fields, vals, members);
    } else {
      var before, own := LastField(fields, vals, n, members);
      FieldsRoundTrip(fields, vals, n - 1, before);
      var r0 := FromMembers(fields, ZeroFields(fields), before);
      if r0.Some? {
        FieldRoundTrip(fields, vals, n - 1, r0.value, own);
      }
      MembersAppend(fields, ZeroFields(fields), before, own);
      FieldsBackStep(fields, vals, n - 1, r0, FromMembers(fields, ZeroFields(fields), members));
    }
  }

  lemma FieldsBackStep(fields: seq<Field>, vals: seq<Value>, i: nat, before: Option<seq<Value>>,
    got: Option<seq<Value>>)
    requires i < |fields| == |vals| && FieldsBack(fields, vals, i, before)
    requires before.None? ==> got.None?
    requires before.Some? ==> |before.value| == |fields| && FieldBack(fields, vals, i, before.value, got)
    ensures FieldsBack(fields, vals, i + 1, got)
  {
    PartialStep(fields, vals, i);
    assert CleanUpTo(fields, vals, i + 1) <==>
      CleanUpTo(fields, vals, i) && (Emits(fields[i], vals[i]) ==> Clean(fields[i].schema, vals[i]));
    if got.Some? && !CleanUpTo(fields, vals, i) {
      var k :| 0 <= k < i && !IsAdd(fields[k]) && before.value[k] != NormalField(fields[k], vals[k])
        && before.value[k] != vals[k];
      assert got.value[k] == before.value[k];
    }
  }

  /** The members of one field touch that field only, and bring back its normal form if it is clean. */
  lemma {:induction false} FieldRoundTrip(fields: seq<Field>, vals: seq<Value>, i: nat, cur: seq<Value>,
    own: seq<Member>)
    requires i < |fields| == |cur| && Supported(Struct(fields)) && Conforms(Struct(fields), StructV(vals))
    requires OwnMembers(fields[i], vals[i], own) && NoClash(fields, vals)
    ensures FieldBack(fields, vals, i, cur, FromMembers(fields, cur, own))
    decreases vals, 4
  {
    var f, v := fields[i], vals[i];
    AddSupported(fields);
    if !Emits(f, v) {
      assert cur[i := cur[i]] == cur;
    } else if IsAdd(f) {
      BlockRoundTrips(fields, vals, i, cur, own);
    } else {
      TargetOwn(fields, i);
      RoundTrips(f.schema, v, own[0].val);
      assert own[1..] == [];
      var r := FromMember(fields, cur, own[0]);
      assert FromMembers(fields, cur, own) == r;
    }
  }

  lemma {:induction false} BlockRoundTrips(fields: seq<Field>, vals: seq<Value>, i: nat, cur: seq<Value>,
    own: seq<Member>)
    requires i < |fields| == |cur| && Supported(Struct(fields)) && Conforms(Struct(fields), StructV(vals))
    requires OwnMembers(fields[i], vals[i], own) && NoClash(fields, vals) && IsAdd(fields[i])
      && Emits(fields[i], vals[i])
    ensures FieldBack(fields, vals, i, cur, FromMembers(fields, cur, own))
    decreases vals, 3
  {
    var v := vals[i];
    AddSupported(fields);
    forall k | 0 <= k < |own| ensures Target(fields, own[k].key) == -1 && Plain(own[k].val) {
      var x := own[k];
      assert x in JObj(own).members && x.key in v.m;
      assert Represents(Leaf(KRaw), v.m[x.key], x.val) && Conforms(Leaf(KRaw), v.m[x.key]);
    }
    AddBlock(fields, cur, own);
    EntriesRoundTrip(Leaf(KRaw), v, own);
  }

  lemma {:induction false} RawElem(j: Json)
    ensures FromElem(Leaf(KRaw), j) == if Plain(j) then Some(LeafV(j)) else None
  {
    assert FromElem(Leaf(KRaw), j) == FromLeaf(KRaw, Zero(Leaf(KRaw)), j);
  }

  /** A block of unknown members is kept verbatim. */
  lemma {:induction false} AddBlock(fields: seq<Field>, cur: seq<Value>, own: seq<Member>)
    requires |cur| == |fields| && IndexOfGo(fields, ADD_FIELD) >= 0
    requires forall i | 0 <= i < |own| :: Target(fields, own[i].key) == -1 && Plain(own[i].val)
    ensures var a := IndexOfGo(fields, ADD_FIELD);
      var block := FromEntries(Leaf(KRaw), Known(cur[a]), own);
      block.Some? && FromMembers(fields, cur, own) == Some(if own == [] then cur else cur[a := MapV(block.value)])
    decreases own
  {
    if own != [] {
      var a, x := IndexOfGo(fields, ADD_FIELD), own[0];
      var next := cur[a := MapV(Known(cur[a])[x.key := LeafV(x.val)])];
      RawElem(x.val);
      assert FromMember(fields, cur, x) == Some(next);
      hide Target, Plain, FromElem, FromMember;
      AddBlock(fields, next, own[1..]);
      var block := MapV(FromEntries(Leaf(KRaw), Known(next[a]), own[1..]).value);
      assert next[a := block] == cur[a := block];
    }
  }

  function Known(add: Value): map<string, Value> { if add.MapV? then add.m else map[] }

  // ----- names that clash -----

  predicate WrittenBy(f: Field, v: Value, x: Member) {
    if IsAdd(f) then v.MapV? && x.key in v.m && v.m[x.key] == LeafV(x.val) else x.key == JsonName(f)
  }

  lemma {:induction false} OwnOrigin(f: Field, v: Value, own: seq<Member>, i: nat)
    requires i < |own| && OwnMembers(f, v, own) && (IsAdd(f) ==> f.schema == ADD_SCHEMA)
    ensures Emits(f, v) && WrittenBy(f, v, own[i])
  {
    hide Emits;
    if IsAdd(f) {
      assert Represents(ADD_SCHEMA, v, JObj(own)) && own[i] in JObj(own).members;
      assert Represents(Leaf(KRaw), v.m[own[i].key], own[i].val);
    }
  }

  /** Where a written member comes from. */
  lemma {:induction false} MemberOrigin(fields: seq<Field>, vals: seq<Value>, n: nat, members: seq<Member>, i: nat)
    requires n <= |fields| == |vals| && i < |members| && Supported(Struct(fields))
    requires RepresentsFields(fields, vals, n, members)
    ensures exists k | 0 <= k < n :: Emits(fields[k], vals[k]) && WrittenBy(fields[k], vals[k], members[i])
  {
    hide *;
    if n == 0 {
      NoMember(fields, vals, members);
    } else {
      var before, own := LastField(fields, vals, n, members);
      if i < |before| {
        MemberOrigin(fields, vals, n - 1, before, i);
      } else {
        AddSchema(fields);
        OwnOrigin(fields[n - 1], vals[n - 1], own, i - |before|);
        assert Emits(fields[n - 1], vals[n - 1]) && WrittenBy(fields[n - 1], vals[n - 1], members[i]);
      }
    }
  }

  lemma {:induction false} NoMember(fields: seq<Field>, vals: seq<Value>, members: seq<Member>)
    requires |fields| == |vals| && RepresentsFields(fields, vals, 0, members)
    ensures members == []
  {
  }

  lemma AddSchema(fields: seq<Field>)
    requires Supported(Struct(fields))
    ensures forall i | 0 <= i < |fields| :: IsAdd(fields[i]) ==> fields[i].schema == ADD_SCHEMA
  {
    AddSupported(fields);
  }

  /** No document contains itself. */
  function Size(j: Json): nat {
    match j
    case JObj(members) => 1 + SizeAll(members)
    case _ => 0
  }

  function SizeAll(members: seq<Member>): (r: nat)
    ensures forall x | x in members :: Size(x.val) <= r
  {
    if members == [] then 0 else Size(members[0].val) + SizeAll(members[1..])
  }

  /** What the entries of a raw map hold are the values of the members. */
  lemma {:induction false} RawEntries(m: map<string, Value>, members: seq<Member>)
    ensures var r := FromEntries(Leaf(KRaw), m, members);
      r.Some? ==> forall k | k in r.value ::
        (k in m && r.value[k] == m[k]) || exists x | x in members :: r.value[k] == LeafV(x.val)
    decreases members
  {
    if members != [] {
      assert members[0] in members && forall x | x in members[1..] :: x in members;
      RawElem(members[0].val);
      var w := FromElem(Leaf(KRaw), members[0].val);
      if w.Some? { RawEntries(m[members[0].key := w.value], members[1..]); }
    }
  }

  /** The unknown members collected so far: without a member that replaces the whole block, only keys
      that lead nowhere; with one, the last such member is not there under its own key. */
  ghost predicate Traceable(fields: seq<Field>, members: seq<Member>, add: Value) {
    var a := IndexOfGo(fields, ADD_FIELD);
    if forall i | 0 <= i < |members| :: Target(fields, members[i].key) != a then
      add.MapV? ==> forall k | k in add.m :: Target(fields, k) == -1
    else exists i | 0 <= i < |members| :: Target(fields, members[i].key) == a && Missing(add, members[i])
  }

  predicate Missing(add: Value, m: Member) { add.MapV? && m.key in add.m ==> add.m[m.key] != LeafV(m.val) }

  lemma {:induction false} AddTraceable(fields: seq<Field>, members: seq<Member>)
    requires Supported(Struct(fields))
    ensures var r := FromMembers(fields, ZeroFields(fields), members);
      r.Some? ==> Traceable(fields, members, r.value[IndexOfGo(fields, ADD_FIELD)])
    decreases |members|
  {
    AddSupported(fields);
    var a := IndexOfGo(fields, ADD_FIELD);
    if members != [] {
      var n := |members| - 1;
      var init, last := members[..n], members[n];
      assert members == init + [last];
      AddTraceable(fields, init);
      MembersAppend(fields, ZeroFields(fields), init, [last]);
      var r0 := FromMembers(fields, ZeroFields(fields), init);
      if r0.Some? {
        assert [last][1..] == [];
        assert FromMembers(fields, r0.value, [last]) == FromMember(fields, r0.value, last);
        TraceStep(fields, init, last, r0.value);
      }
    }
  }

  lemma {:induction false} NotInside(cur: Value, key: string, j: Json)
    requires FromJson(ADD_SCHEMA, cur, j).Some?
    ensures Missing(FromJson(ADD_SCHEMA, cur, j).value, Member(key, j))
  {
    assert FromJson(ADD_SCHEMA, cur, j) == FromMap(Leaf(KRaw), j);
    if j.JObj? { RawEntries(map[], j.members); }
  }

  lemma {:induction false} TraceStep(fields: seq<Field>, init: seq<Member>, last: Member, cur: seq<Value>)
    requires |cur| == |fields| && HasAdd(fields) && Traceable(fields, init, cur[IndexOfGo(fields, ADD_FIELD)])
    ensures var r := FromMember(fields, cur, last);
      r.Some? ==> Traceable(fields, init + [last], r.value[IndexOfGo(fields, ADD_FIELD)])
  {
    hide Traceable, Missing, FromJson;
    var a := IndexOfGo(fields, ADD_FIELD);
    var r := FromMember(fields, cur, last);
    if r.Some? {
      if Target(fields, last.key) == a {
        assert FromJson(ADD_SCHEMA, cur[a], last.val) == Some(r.value[a]);
        NotInside(cur[a], last.key, last.val);
      }
      TraceExtend(fields, init, last, cur[a], r.value[a]);
    }
  }

  lemma {:induction false} TraceExtend(fields: seq<Field>, init: seq<Member>, last: Member, before: Value, add: Value)
    requires HasAdd(fields) && Traceable(fields, init, before)
    requires var t := Target(fields, last.key);
      if t == IndexOfGo(fields, ADD_FIELD) then Missing(add, last)
      else add == before || (t == -1 && add == MapV(Known(before)[last.key := LeafV(last.val)]))
    ensures Traceable(fields, init + [last], add)
  {
    var a, all := IndexOfGo(fields, ADD_FIELD), init + [last];
    assert all[|init|] == last && forall i | 0 <= i < |init| :: all[i] == init[i];
    if Target(fields, last.key) == a {
      assert Missing(add, all[|init|]);
    } else if i :| 0 <= i < |init| && Target(fields, init[i].key) == a && Missing(before, init[i]) {
      assert Missing(add, all[i]);
    } else {
      assert forall i | 0 <= i < |all| :: Target(fields, all[i].key) != a;
    }
  }

  lemma {:induction false} ClashFails(fields: seq<Field>, vals: seq<Value>, members: seq<Member>)
    requires Supported(Struct(fields)) && |vals| == |fields| && !NoClash(fields, vals)
    requires RepresentsFields(fields, vals, |fields|, members)
    ensures FromMembers(fields, ZeroFields(fields), members) != Some(NormalFields(fields, vals))
    ensures FromMembers(fields, ZeroFields(fields), members) != Some(vals)
  {
    AddSupported(fields);
    hide Supported, RepresentsFields, Target, Normal;
    AddTraceable(fields, members);
    var a := IndexOfGo(fields, ADD_FIELD);
    var r := FromMembers(fields, ZeroFields(fields), members);
    if r == Some(NormalFields(fields, vals)) || r == Some(vals) {
      var k :| vals[a].MapV? && k in vals[a].m && Target(fields, k) != -1;
      RawNormal(vals[a]);
      assert NormalField(fields[a], vals[a]) == vals[a] == r.value[a];
      var i :| 0 <= i < |members| && Target(fields, members[i].key) == a && Missing(vals[a], members[i]);
      WrittenByAdd(fields, vals, members, i);
    }
  }

  lemma {:induction false} RawNormal(v: Value)
    requires v.MapV?
    ensures Normal(ADD_SCHEMA, v) == v
  {
    forall k | k in v.m ensures NormalElem(Leaf(KRaw), v.m[k]) == v.m[k] {
      assert Normal(Leaf(KRaw), v.m[k]) == v.m[k];
    }
    assert NormalMap(Leaf(KRaw), v) == v.m;
  }

  lemma {:induction false} WrittenByAdd(fields: seq<Field>, vals: seq<Value>, members: seq<Member>, i: nat)
    requires Supported(Struct(fields)) && |vals| == |fields| && i < |members|
    requires RepresentsFields(fields, vals, |fields|, members)
      && Target(fields, members[i].key) == IndexOfGo(fields, ADD_FIELD)
    ensures var a := IndexOfGo(fields, ADD_FIELD);
      a >= 0 && IsAdd(fields[a]) && WrittenBy(fields[a], vals[a], members[i])
  {
    AddSupported(fields);
    hide RepresentsFields, Supported;
    MemberOrigin(fields, vals, |fields|, members, i);
    var o :| 0 <= o < |fields| && WrittenBy(fields[o], vals[o], members[i]);
    TargetOwn(fields, o);
  }
}
