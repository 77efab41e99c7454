/** What the package is for: a document that is loaded into a struct and saved again keeps the members
    that the struct does not know. */
module Preserve {
  import opened Wrappers
  import opened JsonText
  import opened JsonStream
  import opened GoTypes
  import opened Marshal
  import opened Unmarshal
  import opened RoundTrip
  import Codec

  function AddIndex(fields: seq<Field>): int { IndexOfGo(fields, ADD_FIELD) }

  // ----- loaded values -----

  /** No member, at any depth, puts the name of a field among the unknown members. */
  ghost predicate Undisguised(s: Schema, j: Json)
    decreases j, s
  {
    match s
    case Leaf(_) => true
    case Ptr(e) => Undisguised(e, j)
    case Struct(fields) => j.JObj? ==> forall x | x in j.members ::
      if Target(fields, x.key) == AddIndex(fields) then
        x.val.JObj? ==> forall y | y in x.val.members :: Target(fields, y.key) == -1
      else Target(fields, x.key) >= 0 ==> Undisguised(fields[Target(fields, x.key)].schema, x.val)
    case Map(e) => j.JObj? ==> forall x | x in j.members :: Undisguised(e, x.val)
    case Slice(e) => j.JArr? ==> forall x | x in j.items :: Undisguised(e, x)
  }

  /** A value of type `s` in which, if `named` is false, no unknown member carries the name of a field. */
  ghost predicate Tidy(s: Schema, v: Value, named: bool) {
    match s
    case Leaf(k) => v.LeafV? && Fits(k, v.j) && Plain(v.j)
    case Ptr(e) => v.NilV? || (v.PtrV? && Tidy(e, v.v, named))
    case Map(e) => v.NilV? || (v.MapV? && forall k | k in v.m :: Tidy(e, v.m[k], named))
    case Slice(e) => v.NilV? || (v.SliceV? && forall i | 0 <= i < |v.items| :: Tidy(e, v.items[i], named))
    case Struct(fields) =>
      && v.StructV? && |v.vals| == |fields|
      && (forall i | 0 <= i < |fields| :: Tidy(fields[i].schema, v.vals[i], named))
      && (named || NoClash(fields, v.vals))
  }

  ghost predicate TidyFields(fields: seq<Field>, vals: seq<Value>, named: bool) {
    Tidy(Struct(fields), StructV(vals), named)
  }

  lemma {:induction false} TidyConforms(s: Schema, v: Value, named: bool)
    requires Tidy(s, v, named)
    ensures Conforms(s, v)
    decreases v, s
  {
    match s
    case Leaf(_) =>
    case Ptr(e) => if v.PtrV? { TidyConforms(e, v.v, named); }
    case Map(e) => if v.MapV? { forall k | k in v.m ensures Conforms(e, v.m[k]) { TidyConforms(e, v.m[k], named); } }
    case Slice(e) =>
      if v.SliceV? {
        forall x | x in v.items ensures Conforms(e, x) {
          var i :| 0 <= i < |v.items| && v.items[i] == x;
          TidyConforms(e, v.items[i], named);
        }
      }
    case Struct(fields) =>
      forall i | 0 <= i < |fields|
        ensures Conforms(fields[i].schema, v.vals[i])
      {
        TidyConforms(fields[i].schema, v.vals[i], named);
      }
  }

  lemma {:induction false} ZeroTidy(s: Schema, named: bool)
    requires Supported(s)
    ensures Tidy(s, Zero(s), named)
  {
    match s
    case Struct(fields) =>
      forall i | 0 <= i < |fields|
        ensures Tidy(fields[i].schema, Zero(fields[i].schema), named)
      {
        ZeroTidy(fields[i].schema, named);
      }
      AddSupported(fields);
    case _ =>
  }

  /** Loading any document leaves a value of the type; loading an undisguised one leaves it tidy. */
  lemma {:induction false} LoadTidy(s: Schema, cur: Value, j: Json, named: bool)
    requires Supported(s) && Tidy(s, cur, named) && (named || Undisguised(s, j)) && FromJson(s, cur, j).Some?
    ensures Tidy(s, FromJson(s, cur, j).value, named)
    decreases j, 3, s
  {
    match s
    case Leaf(_) =>
    case Ptr(e) =>
      ZeroTidy(e, named);
      LoadTidy(e, if cur.PtrV? then cur.v else Zero(e), j, named);
    case Struct(fields) => MembersTidy(fields, cur.vals, j.members, named);
    case Map(e) => MapTidy(e, j, named);
    case Slice(e) => SliceTidy(e, SliceV([]), j, named);
  }

  lemma {:induction false} MembersTidy(fields: seq<Field>, vals: seq<Value>, members: seq<Member>, named: bool)
    requires Supported(Struct(fields)) && |vals| == |fields| && TidyFields(fields, vals, named)
    requires (named || Undisguised(Struct(fields), JObj(members))) && FromMembers(fields, vals, members).Some?
    ensures TidyFields(fields, FromMembers(fields, vals, members).value, named)
    decreases members, 0
  {
    if members != [] {
      assert members[0] in JObj(members).members && forall x | x in members[1..] :: x in members;
      MemberTidy(fields, vals, members[0], named);
      MembersTidy(fields, FromMember(fields, vals, members[0]).value, members[1..], named);
    }
  }

  lemma {:induction false} MemberTidy(fields: seq<Field>, vals: seq<Value>, x: Member, named: bool)
    requires Supported(Struct(fields)) && |vals| == |fields| && TidyFields(fields, vals, named)
    requires named || Undisguised(Struct(fields), JObj([x]))
    requires FromMember(fields, vals, x).Some?
    ensures TidyFields(fields, FromMember(fields, vals, x).value, named)
    decreases x, 0
  {
    AddSupported(fields);
    var t, a := Target(fields, x.key), AddIndex(fields);
    assert x in JObj([x]).members;
    if t == a {
      assert FromJson(ADD_SCHEMA, vals[a], x.val) == FromMap(Leaf(KRaw), x.val);
      BlockTidy(fields, x.val, named);
      StoreTidy(fields, vals, a, FromMap(Leaf(KRaw), x.val).value, named);
    } else if t >= 0 {
      LoadTidy(fields[t].schema, vals[t], x.val, named);
      StoreTidy(fields, vals, t, FromJson(fields[t].schema, vals[t], x.val).value, named);
    } else {
      assert Tidy(ADD_SCHEMA, vals[a], named);
      assert Tidy(Leaf(KRaw), LeafV(x.val), named);
      StoreTidy(fields, vals, a, MapV(Known(vals[a])[x.key := LeafV(x.val)]), named);
    }
  }

  lemma {:induction false} StoreTidy(fields: seq<Field>, vals: seq<Value>, i: nat, w: Value, named: bool)
    requires Supported(Struct(fields)) && i < |vals| == |fields| && TidyFields(fields, vals, named)
    requires Tidy(fields[i].schema, w, named)
    requires i == AddIndex(fields) && !named && w.MapV? ==> forall k | k in w.m :: Target(fields, k) == -1
    ensures TidyFields(fields, vals[i := w], named)
  {
    AddSupported(fields);
    hide Supported, Target;
  }

  /** A member that replaces the whole block leaves a block, with the keys of its own object. */
  lemma {:induction false} BlockTidy(fields: seq<Field>, j: Json, named: bool)
    requires FromMap(Leaf(KRaw), j).Some?
    requires named || (j.JObj? ==> forall y | y in j.members :: Target(fields, y.key) == -1)
    ensures var add := FromMap(Leaf(KRaw), j).value;
      Tidy(ADD_SCHEMA, add, named) && (add.MapV? && !named ==> forall k | k in add.m :: Target(fields, k) == -1)
  {
    if j.JObj? { EntryKeys(map[], j.members); }
  }

  lemma {:induction false} EntryKeys(m: map<string, Value>, members: seq<Member>)
    requires FromEntries(Leaf(KRaw), m, members).Some? && forall k | k in m :: m[k].LeafV? && Plain(m[k].j)
    ensures var r := FromEntries(Leaf(KRaw), m, members).value; forall k | k in r ::
      r[k].LeafV? && Plain(r[k].j) && (k in m || exists x | x in members :: x.key == k)
    decreases members
  {
    if members != [] {
      assert members[0] in members && forall x | x in members[1..] :: x in members;
      RawElem(members[0].val);
      EntryKeys(m[members[0].key := FromElem(Leaf(KRaw), members[0].val).value], members[1..]);
    }
  }

  lemma {:induction false} MapTidy(e: Schema, j: Json, named: bool)
    requires Supported(Map(e)) && (named || Undisguised(Map(e), j)) && FromMap(e, j).Some?
    ensures Tidy(Map(e), FromMap(e, j).value, named)
    decreases j, 2
  {
    if j.JObj? { EntriesTidy(e, map[], j.members, named); }
  }

  lemma {:induction false} EntriesTidy(e: Schema, m: map<string, Value>, members: seq<Member>, named: bool)
    requires Supported(Map(e)) && (forall k | k in m :: Tidy(e, m[k], named))
      && (named || Undisguised(Map(e), JObj(members)))
    requires FromEntries(e, m, members).Some?
    ensures forall k | k in FromEntries(e, m, members).value :: Tidy(e, FromEntries(e, m, members).value[k], named)
    decreases members, 0
  {
    if members != [] {
      assert members[0] in JObj(members).members && forall x | x in members[1..] :: x in members;
      ElemTidy(e, members[0].val, named);
      EntriesTidy(e, m[members[0].key := FromElem(e, members[0].val).value], members[1..], named);
    }
  }

  lemma {:induction false} SliceTidy(e: Schema, cur: Value, j: Json, named: bool)
    requires Supported(Slice(e)) && Tidy(Slice(e), cur, named) && (named || Undisguised(Slice(e), j))
      && FromSlice(e, cur, j).Some?
    ensures Tidy(Slice(e), FromSlice(e, cur, j).value, named)
    decreases j, 2
  {
    if j.JArr? { ItemsTidy(e, [], j.items, named); }
  }

  lemma {:induction false} ItemsTidy(e: Schema, done: seq<Value>, items: seq<Json>, named: bool)
    requires Supported(Slice(e)) && (forall i | 0 <= i < |done| :: Tidy(e, done[i], named))
      && (named || Undisguised(Slice(e), JArr(items)))
    requires FromItems(e, done, items).Some?
    ensures forall i | 0 <= i < |FromItems(e, done, items).value| :: Tidy(e, FromItems(e, done, items).value[i], named)
    decreases items, 0
  {
    if items != [] {
      assert items[0] in JArr(items).items && forall x | x in items[1..] :: x in items;
      ElemTidy(e, items[0], named);
      ItemsTidy(e, done + [FromElem(e, items[0]).value], items[1..], named);
    }
  }

  lemma {:induction false} ElemTidy(e: Schema, j: Json, named: bool)
    requires Supported(e) && (named || Undisguised(e, j)) && FromElem(e, j).Some?
    ensures Tidy(e, FromElem(e, j).value, named)
    decreases j, 4
  {
    match e
    case Map(e') => MapTidy(e', j, named);
    case Slice(e') => SliceTidy(e', NilV, j, named);
    case _ =>
      ZeroTidy(e, named);
      LoadTidy(e, Zero(e), j, named);
  }

  // ----- saving again -----

  /** Every struct that is written has something to write. */
  ghost predicate Peopled(s: Schema, v: Value) {
    match s
    case Leaf(_) => true
    case Ptr(e) => v.PtrV? ==> Peopled(e, v.v)
    case Struct(fields) =>
      && v.StructV? && |v.vals| == |fields|
      && (exists i | 0 <= i < |fields| :: Emits(fields[i], v.vals[i]))
      && (forall i | 0 <= i < |fields| :: Emits(fields[i], v.vals[i]) ==> Peopled(fields[i].schema, v.vals[i]))
    case Map(e) => v.MapV? ==> forall k | k in v.m :: Peopled(e, v.m[k])
    case Slice(e) => v.SliceV? ==> forall i | 0 <= i < |v.items| :: Peopled(e, v.items[i])
  }

  lemma {:induction false} TidyClean(s: Schema, v: Value)
    requires Tidy(s, v, false)
    ensures Clean(s, v) <==> Peopled(s, v)
    decreases v, s
  {
    match s
    case Leaf(_) =>
    case Ptr(e) => if v.PtrV? { TidyClean(e, v.v); }
    case Map(e) =>
      if v.MapV? { forall k | k in v.m ensures Clean(e, v.m[k]) <==> Peopled(e, v.m[k]) { TidyClean(e, v.m[k]); } }
    case Slice(e) =>
      if v.SliceV? {
        forall i | 0 <= i < |v.items|
          ensures v.items[i] in v.items && (Clean(e, v.items[i]) <==> Peopled(e, v.items[i]))
        {
          TidyClean(e, v.items[i]);
        }
        assert (forall x | x in v.items :: Clean(e, x)) <==> forall i | 0 <= i < |v.items| :: Clean(e, v.items[i]);
      }
    case Struct(fields) =>
      forall i | 0 <= i < |fields|
        ensures Clean(fields[i].schema, v.vals[i]) <==> Peopled(fields[i].schema, v.vals[i])
      {
        TidyClean(fields[i].schema, v.vals[i]);
      }
  }

  /** Load, save, load.  What was saved from any loaded document loads back to the normal form of what was
      loaded, or to that very value, exactly as for any value; and if the document put no field's name among
      the unknown members, then all that can go wrong is a struct with nothing to write. */
  lemma {:induction false} LoadSaveLoad(fields: seq<Field>, j: Json, v: Value, saved: Json)
    requires Supported(Struct(fields))
    requires FromJson(Struct(fields), Zero(Struct(fields)), j) == Some(v) && Represents(Struct(fields), v, saved)
    ensures FromJson(Struct(fields), Zero(Struct(fields)), saved) == Some(Normal(Struct(fields), v))
      <==> Clean(Struct(fields), v)
    ensures FromJson(Struct(fields), Zero(Struct(fields)), saved) == Some(v)
      <==> Clean(Struct(fields), v) && Settled(Struct(fields), v)
    ensures Undisguised(Struct(fields), j) ==> (Clean(Struct(fields), v) <==> Peopled(Struct(fields), v))
  {
    var s := Struct(fields);
    hide Represents, Normal, Settled, Clean, Peopled, Supported, Zero, Tidy, Undisguised;
    ZeroTidy(s, true);
    LoadTidy(s, Zero(s), j, true);
    TidyConforms(s, v, true);
    RoundTrips(s, v, saved);
    SameValueBack(s, v, saved);
    if Undisguised(s, j) {
      ZeroTidy(s, false);
      LoadTidy(s, Zero(s), j, false);
      TidyClean(s, v);
    }
  }

  // ----- unknown members -----

  /** The value of the last member with this key. */
  function LastOf(members: seq<Member>, key: string): Option<Json> {
    if members == [] then None
    else
      var later := LastOf(members[1..], key);
      if later.Some? then later else if members[0].key == key then Some(members[0].val) else None
  }

  function Collected(add: Value, key: string): Option<Value> {
    if add.MapV? && key in add.m then Some(add.m[key]) else None
  }

  /** The index of the last member that leads to the collecting field. */
  function LastBlock(fields: seq<Field>, members: seq<Member>): (r: int)
    ensures -1 <= r < |members|
  {
    if members == [] then -1
    else
      var n := |members| - 1;
      if LeadsToBlock(fields, members[n].key) then n else LastBlock(fields, members[..n])
  }

  predicate LeadsToBlock(fields: seq<Field>, key: string) { Target(fields, key) == AddIndex(fields) }

  lemma {:induction false} LastBlockIs(fields: seq<Field>, members: seq<Member>)
    ensures LastBlock(fields, members) >= 0 ==> LeadsToBlock(fields, members[LastBlock(fields, members)].key)
    ensures forall i | LastBlock(fields, members) < i < |members| :: !LeadsToBlock(fields, members[i].key)
  {
    hide LeadsToBlock;
    if members != [] {
      LastBlockIs(fields, members[..|members| - 1]);
    }
  }

  /** What a member that leads to the collecting field itself holds under the key. */
  function InBlock(j: Json, key: string): Option<Json> { if j.JObj? then LastOf(j.members, key) else None }

  /** What loading collects under an unknown key: the last member with that key, if it comes after every
      member that leads to the collecting field; otherwise what the last such member holds in its object. */
  function Gathered(fields: seq<Field>, members: seq<Member>, key: string): Option<Json> {
    var b := LastBlock(fields, members);
    var later := LastOf(members[b + 1..], key);
    if later.Some? || b < 0 then later else InBlock(members[b].val, key)
  }

  lemma {:induction false} EntriesCollect(m: map<string, Value>, members: seq<Member>, key: string)
    requires FromEntries(Leaf(KRaw), m, members).Some?
    ensures Collected(MapV(FromEntries(Leaf(KRaw), m, members).value), key) ==
      var last := LastOf(members, key);
      if last.Some? then Some(LeafV(last.value)) else Collected(MapV(m), key)
    decreases members
  {
    if members != [] {
      RawElem(members[0].val);
      EntriesCollect(m[members[0].key := FromElem(Leaf(KRaw), members[0].val).value], members[1..], key);
    }
  }

  lemma {:induction false} BlockCollects(cur: Value, j: Json, key: string)
    requires FromJson(ADD_SCHEMA, cur, j).Some?
    ensures Collected(FromJson(ADD_SCHEMA, cur, j).value, key) ==
      var last := InBlock(j, key);
      if last.Some? then Some(LeafV(last.value)) else None
  {
    assert FromJson(ADD_SCHEMA, cur, j) == FromMap(Leaf(KRaw), j);
    if j.JObj? { EntriesCollect(map[], j.members, key); }
  }

  /** Without members that lead to the collecting field. */
  lemma {:induction false} PlainCollects(fields: seq<Field>, vals: seq<Value>, members: seq<Member>, key: string)
    requires Supported(Struct(fields)) && |vals| == |fields| && Target(fields, key) == -1
    requires forall i | 0 <= i < |members| :: !LeadsToBlock(fields, members[i].key)
    requires FromMembers(fields, vals, members).Some? && AddIndex(fields) >= 0
    ensures Collected(FromMembers(fields, vals, members).value[AddIndex(fields)], key) ==
      var last := LastOf(members, key);
      if last.Some? then Some(LeafV(last.value)) else Collected(vals[AddIndex(fields)], key)
    decreases members
  {
    if members != [] {
      assert !LeadsToBlock(fields, members[0].key);
      MemberCollects(fields, vals, members[0], key);
      hide FromMember, Target, Supported, Collected;
      PlainCollects(fields, FromMember(fields, vals, members[0]).value, members[1..], key);
    }
  }

  lemma {:induction false} MemberCollects(fields: seq<Field>, vals: seq<Value>, x: Member, key: string)
    requires Supported(Struct(fields)) && |vals| == |fields| && Target(fields, key) == -1
    requires Target(fields, x.key) != AddIndex(fields) && FromMember(fields, vals, x).Some? && AddIndex(fields) >= 0
    ensures Collected(FromMember(fields, vals, x).value[AddIndex(fields)], key) ==
      if x.key == key then Some(LeafV(x.val)) else Collected(vals[AddIndex(fields)], key)
  {
    hide FromJson, Supported;
  }

  /** Loading any document collects exactly that; only where no member leads to the collecting field does
      what the variable held before shine through. */
  lemma {:induction false} LoadCollects(fields: seq<Field>, vals: seq<Value>, members: seq<Member>, key: string)
    requires Supported(Struct(fields)) && |vals| == |fields| && Target(fields, key) == -1
    requires FromMembers(fields, vals, members).Some?
    ensures Collected(FromMembers(fields, vals, members).value[AddIndex(fields)], key) ==
      var g := Gathered(fields, members, key);
      if g.Some? then Some(LeafV(g.value))
      else if LastBlock(fields, members) < 0 then Collected(vals[AddIndex(fields)], key) else None
  {
    hide Supported, Target, Collected, LeadsToBlock, FromMembers, FromMember, HasAdd;
    hide LastOf, InBlock, LastBlock, AddIndex;
    HasBlock(fields);
    LastBlockIs(fields, members);
    var b := LastBlock(fields, members);
    if b < 0 {
      assert members[b + 1..] == members;
      PlainCollects(fields, vals, members, key);
    } else {
      var later := members[b + 1..];
      SplitAtBlock(fields, members, b);
      CollectsAfter(fields, vals, members[..b], members[b], later, key);
    }
  }

  lemma HasBlock(fields: seq<Field>)
    requires Supported(Struct(fields))
    ensures HasAdd(fields) && AddIndex(fields) >= 0
  {
    AddSupported(fields);
  }

  lemma SplitAtBlock(fields: seq<Field>, members: seq<Member>, b: nat)
    requires b < |members| && forall i | b < i < |members| :: !LeadsToBlock(fields, members[i].key)
    ensures var later := members[b + 1..];
      && members == members[..b] + ([members[b]] + later)
      && forall i | 0 <= i < |later| :: !LeadsToBlock(fields, later[i].key)
  {
    hide LeadsToBlock;
  }

  lemma {:induction false} CollectsAfter(fields: seq<Field>, vals: seq<Value>, before: seq<Member>, x: Member,
    later: seq<Member>, key: string)
    requires Supported(Struct(fields)) && |vals| == |fields| && Target(fields, key) == -1 && HasAdd(fields)
    requires LeadsToBlock(fields, x.key) && forall i | 0 <= i < |later| :: !LeadsToBlock(fields, later[i].key)
    requires FromMembers(fields, vals, before + ([x] + later)).Some?
    ensures Collected(FromMembers(fields, vals, before + ([x] + later)).value[AddIndex(fields)], key) ==
      var g := if LastOf(later, key).Some? then LastOf(later, key) else InBlock(x.val, key);
      if g.Some? then Some(LeafV(g.value)) else None
  {
    hide Supported, Target, Collected, FromMember, LastOf, InBlock;
    MembersAppend(fields, vals, before, [x] + later);
    var r0 := FromMembers(fields, vals, before).value;
    assert ([x] + later)[0] == x && ([x] + later)[1..] == later;
    BlockMember(fields, r0, x, key);
    PlainCollects(fields, FromMember(fields, r0, x).value, later, key);
  }

  lemma {:induction false} BlockMember(fields: seq<Field>, vals: seq<Value>, x: Member, key: string)
    requires HasAdd(fields) && |vals| == |fields| && Target(fields, x.key) == AddIndex(fields)
      && FromMember(fields, vals, x).Some?
    ensures Collected(FromMember(fields, vals, x).value[AddIndex(fields)], key) ==
      var last := InBlock(x.val, key);
      if last.Some? then Some(LeafV(last.value)) else None
  {
    hide FromJson, Target, InBlock;
    BlockCollects(vals[AddIndex(fields)], x.val, key);
  }

  /** Saving writes a member with an unknown key exactly for what was collected under it. */
  lemma {:induction false} SaveWrites(fields: seq<Field>, vals: seq<Value>, members: seq<Member>, key: string,
    raw: Json)
    requires Supported(Struct(fields)) && |vals| == |fields| && Target(fields, key) == -1
    requires RepresentsFields(fields, vals, |fields|, members)
    ensures Member(key, raw) in members <==> Collected(vals[AddIndex(fields)], key) == Some(LeafV(raw))
  {
    AddSupported(fields);
    hide RepresentsFields, Supported, Target;
    var a := AddIndex(fields);
    if Member(key, raw) in members {
      var i :| 0 <= i < |members| && members[i] == Member(key, raw);
      MemberOrigin(fields, vals, |fields|, members, i);
      var o :| 0 <= o < |fields| && WrittenBy(fields[o], vals[o], members[i]);
      TargetOwn(fields, o);
    }
    if Collected(vals[a], key) == Some(LeafV(raw)) {
      BlockWritten(fields, vals, |fields|, members, key, raw);
    }
  }

  lemma {:induction false} OwnBlock(f: Field, add: Value, own: seq<Member>, key: string, raw: Json)
    requires IsAdd(f) && f.schema == ADD_SCHEMA && !Private(f) && OwnMembers(f, add, own)
    requires Collected(add, key) == Some(LeafV(raw))
    ensures Member(key, raw) in own
  {
    assert Represents(ADD_SCHEMA, add, JObj(own));
    MemberKeys(add.m, own);
    var i :| 0 <= i < |own| && own[i].key == key;
    assert own[i] in JObj(own).members && Represents(Leaf(KRaw), add.m[key], own[i].val);
    assert own[i] == Member(key, raw);
  }

  lemma {:induction false} BlockWritten(fields: seq<Field>, vals: seq<Value>, n: nat, members: seq<Member>,
    key: string, raw: Json)
    requires Supported(Struct(fields)) && n <= |fields| == |vals| && RepresentsFields(fields, vals, n, members)
    requires AddIndex(fields) < n && Collected(vals[AddIndex(fields)], key) == Some(LeafV(raw))
    ensures Member(key, raw) in members
    decreases n
  {
    AddSupported(fields);
    var before, own := LastField(fields, vals, n, members);
    if AddIndex(fields) < n - 1 {
      hide RepresentsFields, OwnMembers, Supported;
      BlockWritten(fields, vals, n - 1, before, key, raw);
    } else {
      hide RepresentsFields, Supported;
      OwnBlock(fields[n - 1], vals[n - 1], own, key, raw);
      assert members == before + own;
    }
  }

  /** A document that is loaded and saved again has, under every key that the struct does not know, exactly
      what was gathered there. */
  lemma {:induction false} UnknownMembersSaved(fields: seq<Field>, cur: Value, j: Json, v: Value, saved: Json,
    key: string, raw: Json)
    requires Supported(Struct(fields)) && Target(fields, key) == -1 && j.JObj?
    requires cur.StructV? && |cur.vals| == |fields| && Collected(cur.vals[AddIndex(fields)], key) == None
    requires FromJson(Struct(fields), cur, j) == Some(v) && Represents(Struct(fields), v, saved)
    ensures Gathered(fields, j.members, key) == Some(raw) <==> saved.JObj? && Member(key, raw) in saved.members
  {
    hide *;
    LoadedMembers(fields, cur, j, v);
    SavedMembers(fields, v, saved);
    LoadCollects(fields, cur.vals, j.members, key);
    SaveWrites(fields, v.vals, if saved.JObj? then saved.members else [], key, raw);
  }

  lemma {:induction false} LoadedMembers(fields: seq<Field>, cur: Value, j: Json, v: Value)
    requires j.JObj? && cur.StructV? && |cur.vals| == |fields| && FromJson(Struct(fields), cur, j) == Some(v)
    ensures v.StructV? && FromMembers(fields, cur.vals, j.members) == Some(v.vals)
  {
  }

  lemma {:induction false} SavedMembers(fields: seq<Field>, v: Value, saved: Json)
    requires Represents(Struct(fields), v, saved)
    ensures v.StructV? && |v.vals| == |fields|
    ensures RepresentsFields(fields, v.vals, |fields|, if saved.JObj? then saved.members else [])
  {
  }

  /** What was saved has under this key the (last) value that what was loaded has there, and no other. */
  ghost predicate KeptUnder(j: Json, saved: Json, key: string)
    requires j.JObj?
  {
    forall raw :: LastOf(j.members, key) == Some(raw) <==> saved.JObj? && Member(key, raw) in saved.members
  }

  /** What was saved holds the unknown members of what was loaded, and no other. */
  ghost predicate KeepsUnknown(fields: seq<Field>, j: Json, saved: Json)
    requires j.JObj?
  {
    forall key | Target(fields, key) == -1 :: KeptUnder(j, saved, key)
  }

  /** The last member that leads to the collecting field, if there is one, says the same about the key as
      the members before it, unless a later member says something else. */
  predicate HarmlessUnder(fields: seq<Field>, members: seq<Member>, key: string) {
    var b := LastBlock(fields, members);
    b >= 0 ==> LastOf(members[b + 1..], key).Some? || InBlock(members[b].val, key) == LastOf(members[..b], key)
  }

  ghost predicate Harmless(fields: seq<Field>, members: seq<Member>) {
    forall key | Target(fields, key) == -1 :: HarmlessUnder(fields, members, key)
  }

  lemma {:induction false} LastOfAppend(a: seq<Member>, b: seq<Member>, key: string)
    ensures LastOf(a + b, key) == var later := LastOf(b, key); if later.Some? then later else LastOf(a, key)
    decreases a
  {
    if a == [] {
      assert a + b == b;
    } else {
      assert (a + b)[1..] == a[1..] + b;
      LastOfAppend(a[1..], b, key);
    }
  }

  lemma {:induction false} GatheredOrLost(fields: seq<Field>, members: seq<Member>, key: string)
    requires Target(fields, key) == -1 && AddIndex(fields) >= 0
    ensures Gathered(fields, members, key) == LastOf(members, key) <==> HarmlessUnder(fields, members, key)
  {
    LastBlockIs(fields, members);
    hide Target;
    var b := LastBlock(fields, members);
    if b < 0 {
      assert members[b + 1..] == members;
    } else {
      var before, x, later := members[..b], members[b], members[b + 1..];
      assert members == before + [x] + later && x.key != key;
      LastOfAppend(before + [x], later, key);
      LastOfAppend(before, [x], key);
      assert LastOf([x], key) == None;
    }
  }

  lemma ZeroCollects(fields: seq<Field>)
    requires Supported(Struct(fields))
    ensures var zero := Zero(Struct(fields));
      && zero.StructV? && |zero.vals| == |fields| && 0 <= AddIndex(fields) < |fields|
      && forall key :: Collected(zero.vals[AddIndex(fields)], key) == None
  {
    AddSupported(fields);
    hide Supported;
  }

  /** What the package is for, with its exact condition: loading and saving keeps the unknown members of a
      document exactly if no member that leads to the collecting field gets in their way. */
  lemma {:induction false} UnknownMembersKept(fields: seq<Field>, j: Json, v: Value, saved: Json)
    requires Supported(Struct(fields)) && j.JObj?
    requires FromJson(Struct(fields), Zero(Struct(fields)), j) == Some(v) && Represents(Struct(fields), v, saved)
    ensures KeepsUnknown(fields, j, saved) <==> Harmless(fields, j.members)
  {
    hide FromJson, Represents, Supported, Zero, Collected, Target, LastOf, HarmlessUnder, Gathered, AddIndex;
    ZeroCollects(fields);
    forall key | Target(fields, key) == -1 ensures KeptUnder(j, saved, key) <==> HarmlessUnder(fields, j.members, key) {
      forall raw
        ensures Gathered(fields, j.members, key) == Some(raw) <==> saved.JObj? && Member(key, raw) in saved.members
      {
        UnknownMembersSaved(fields, Zero(Struct(fields)), j, v, saved, key, raw);
      }
      SameOption(Gathered(fields, j.members, key), LastOf(j.members, key));
      GatheredOrLost(fields, j.members, key);
    }
  }

  lemma SameOption<T(!new)>(a: Option<T>, b: Option<T>)
    ensures a == b <==> forall x :: a == Some(x) <==> b == Some(x)
  {
    if a.Some? { assert a == Some(a.value); }
    if b.Some? { assert b == Some(b.value); }
  }

  const EXAMPLE := [Field(ADD_FIELD, "-", ADD_SCHEMA), Field("A", "a", Leaf(KString))]

  lemma ExampleNames()
    ensures Supported(Struct(EXAMPLE)) && AddIndex(EXAMPLE) == 0
    ensures Target(EXAMPLE, "x") == -1 && Target(EXAMPLE, "a") == 1 && Target(EXAMPLE, ADD_FIELD) == 0
  {
    assert |ADD_FIELD| == 16 && "a"[1..] == "" && "-"[1..] == "" && "x"[0] != "a"[0] && "x"[0] != "A"[0];
    assert JsonName(EXAMPLE[0]) == ADD_FIELD && JsonName(EXAMPLE[1]) == "a";
    assert EXAMPLE[1..] == [EXAMPLE[1]] && EXAMPLE[1..][1..] == [];
    assert IndexOfGo(EXAMPLE, "A") == 1 && IndexOfJson(EXAMPLE, "a") == 1;
  }

  /** A document that spells out an empty collection behind an unknown member loses that member. */
  lemma BlockDropsUnknown()
    ensures var j := JObj([Member("x", JNum("1")), Member("a", JStr("v")), Member(ADD_FIELD, JObj([]))]);
      && Supported(Struct(EXAMPLE)) && Target(EXAMPLE, "x") == -1
      && FromJson(Struct(EXAMPLE), Zero(Struct(EXAMPLE)), j) == Some(StructV([MapV(map[]), LeafV(JStr("v"))]))
      && !Harmless(EXAMPLE, j.members)
  {
    ExampleNames();
    hide Target, IndexOfGo, Supported;
    var members := [Member("x", JNum("1")), Member("a", JStr("v")), Member(ADD_FIELD, JObj([]))];
    assert members[1..] == [members[1], members[2]] && members[1..][1..] == [members[2]] && [members[2]][1..] == [];
    var zero := ZeroFields(EXAMPLE);
    var one := StoreAdditional(EXAMPLE, zero, "x", JNum("1"));
    var two := one[1 := LeafV(JStr("v"))];
    assert FromJson(ADD_SCHEMA, two[0], JObj([])) == FromMap(Leaf(KRaw), JObj([])) == Some(MapV(map[]));
    assert FromMember(EXAMPLE, zero, members[0]) == Some(one) && FromMember(EXAMPLE, one, members[1]) == Some(two);
    assert FromMember(EXAMPLE, two, members[2]) == Some(two[0 := MapV(map[])]);
    assert two[0 := MapV(map[])] == [MapV(map[]), LeafV(JStr("v"))];
    assert FromMembers(EXAMPLE, two, members[1..][1..]) == Some([MapV(map[]), LeafV(JStr("v"))]);
    assert FromMembers(EXAMPLE, one, members[1..]) == FromMembers(EXAMPLE, two, members[1..][1..]);
    assert FromMembers(EXAMPLE, zero, members) == FromMembers(EXAMPLE, one, members[1..]);
    assert LastBlock(EXAMPLE, members) == 2 && members[..2][0] == members[0] && LastOf(members[3..], "x") == None;
    assert !HarmlessUnder(EXAMPLE, members, "x");
  }

  lemma {:induction false} Loaded(fields: seq<Field>, j: Json, v: Value)
    requires Supported(Struct(fields)) && FromJson(Struct(fields), Zero(Struct(fields)), j) == Some(v)
    ensures Shaped(Struct(fields)) && Conforms(Struct(fields), v)
  {
    ZeroTidy(Struct(fields), true);
    LoadTidy(Struct(fields), Zero(Struct(fields)), j, true);
    TidyConforms(Struct(fields), v, true);
    SupportedShaped(Struct(fields));
  }

  lemma {:induction false} TextMeaning(fields: seq<Field>, cur: Value, j: Json)
    ensures Text(j) != []
    ensures var r := Unmarshal.Read(Struct(fields), cur, Stream(Text(j), TopValue, []));
      (match r case None => None case Some((v, _)) => Some(v)) == FromJson(Struct(fields), cur, j)
  {
    hide Read, FromJson, Text, TextThen;
    TextThenIsText(j, []);
    TextStart(j, []);
    assert Text(j) + [] == Text(j) && Before(j, [], TopValue, []) == Stream(Text(j), TopValue, []);
    ReadsText(Struct(fields), cur, j, [], TopValue, []);
  }

  /** `saved` is a document of what `j` was loaded as, and has kept the unknown members of `j` exactly if
      nothing in `j` got in their way. */
  ghost predicate SavedFrom(fields: seq<Field>, j: Json, saved: Json) {
    && j.JObj? && FromJson(Struct(fields), Zero(Struct(fields)), j).Some?
    && Represents(Struct(fields), FromJson(Struct(fields), Zero(Struct(fields)), j).value, saved)
    && (KeepsUnknown(fields, j, saved) <==> Harmless(fields, j.members))
  }

  /** The whole way through the package, for any document: decode it, encode what was decoded. */
  method LoadAndSave(fields: seq<Field>, j: Json) returns (r: Option<seq<Lex>>)
    requires Supported(Struct(fields))
    ensures match FromJson(Struct(fields), Zero(Struct(fields)), j)
      case None => r.None?
      case Some(v) => j.JObj? && (r.Some? <==> Printable(Struct(fields), v))
    ensures r.Some? ==> exists saved :: r.value == Text(saved) && SavedFrom(fields, j, saved)
  {
    OnlyObjects(fields, j);
    hide *;
    TextMeaning(fields, Zero(Struct(fields)), j);
    var v := Codec.UnmarshalValue(fields, Zero(Struct(fields)), Text(j));
    if v.None? { return None; }
    Loaded(fields, j, v.value);
    ghost var saved;
    r, saved := Codec.MarshalValue(fields, v.value);
    if r.Some? {
      UnknownMembersKept(fields, j, v.value, saved);
      Saved(fields, j, v.value, saved);
    }
  }

  lemma {:induction false} Saved(fields: seq<Field>, j: Json, v: Value, saved: Json)
    requires j.JObj? && FromJson(Struct(fields), Zero(Struct(fields)), j) == Some(v)
      && Represents(Struct(fields), v, saved)
    requires KeepsUnknown(fields, j, saved) <==> Harmless(fields, j.members)
    ensures SavedFrom(fields, j, saved)
  {
  }

  lemma {:induction false} OnlyObjects(fields: seq<Field>, j: Json)
    ensures FromJson(Struct(fields), Zero(Struct(fields)), j).Some? ==> j.JObj?
  {
  }
}
