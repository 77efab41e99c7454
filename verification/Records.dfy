/** Structs like those of the token cache: every field but the block of unknown members is left out when it
    is zero. */
module Records {
  import opened Wrappers
  import opened Strings
  import opened JsonText
  import opened GoTypes
  import opened Marshal
  import opened Unmarshal
  import opened RoundTrip

  datatype Column = Column(goName: string, jsonName: string, schema: Schema)

  const OMIT_EMPTY := ",omitempty"
  const BLOCK := Field(ADD_FIELD, "", ADD_SCHEMA)

  function FieldOf(col: Column): Field { Field(col.goName, col.jsonName + OMIT_EMPTY, col.schema) }

  function Fields(cols: seq<Column>): (r: seq<Field>)
    ensures |r| == |cols| + 1 && r[|cols|] == BLOCK && forall i | 0 <= i < |cols| :: r[i] == FieldOf(cols[i])
  {
    seq(|cols|, i requires 0 <= i < |cols| => FieldOf(cols[i])) + [BLOCK]
  }

  /** A struct with these values, and `add` as its block of unknown members. */
  function Record(row: seq<Value>, add: Value): Value { StructV(row + [add]) }

  predicate GoodName(name: string) { name != "" && name != "-" && ',' !in name && name != ADD_FIELD }

  /** A column that the codec can name, and that it writes. */
  ghost predicate GoodColumn(col: Column) {
    && GoodName(col.goName) && GoodName(col.jsonName) && !('a' <= col.goName[0] <= 'z')
    && Supported(col.schema) && !ElementOnly(col.schema)
  }

  ghost predicate Good(cols: seq<Column>) {
    && (forall i | 0 <= i < |cols| :: GoodColumn(cols[i]))
    && (forall i, k | 0 <= i < k < |cols| :: cols[i].goName != cols[k].goName)
    && (forall i, k | 0 <= i < k < |cols| :: cols[i].jsonName != cols[k].jsonName)
  }

  lemma {:induction false} TagName(name: string, rest: string)
    requires ',' !in name
    ensures ParseTag(name + ("," + rest)) == name
    decreases name
  {
    var tag := name + ("," + rest);
    if name != "" {
      assert tag[0] == name[0] && tag[1..] == name[1..] + ("," + rest);
      TagName(name[1..], rest);
    }
  }

  lemma ColumnTag(col: Column)
    requires GoodColumn(col)
    ensures var f := FieldOf(col); JsonName(f) == col.jsonName && OmitEmpty(f) && !IsAdd(f) && !Private(f)
  {
    var parts := [col.jsonName, "omitempty"];
    assert OMIT_EMPTY == "," + "omitempty";
    TagName(col.jsonName, "omitempty");
    SplitJoin(parts, ',');
    assert Join(parts, [',']) == col.jsonName + [','] + Join(parts[1..], [',']) && parts[1..] == ["omitempty"];
    assert Join(parts, [',']) == col.jsonName + OMIT_EMPTY;
    assert parts[1] in parts;
  }

  lemma RecordSupported(cols: seq<Column>)
    requires Good(cols)
    ensures Supported(Struct(Fields(cols)))
  {
    var fields := Fields(cols);
    forall i | 0 <= i < |cols| ensures JsonName(fields[i]) == cols[i].jsonName {
      assert GoodColumn(cols[i]);
      ColumnTag(cols[i]);
    }
    assert JsonName(BLOCK) == ADD_FIELD;
    assert fields[|cols|] in fields;
    hide JsonName;
    assert IndexOfGo(fields, ADD_FIELD) == |cols|;
  }

  // ----- records as values -----

  ghost predicate RowFits(cols: seq<Column>, row: seq<Value>) {
    |row| == |cols| && forall i | 0 <= i < |cols| :: Conforms(cols[i].schema, row[i])
  }

  /** Whether nil or empty, nothing of the block is written. */
  predicate NoBlock(add: Value) { add == NilV || add == MapV(map[]) }

  /** Column `i` of the row is written. */
  predicate Filled(cols: seq<Column>, row: seq<Value>, i: nat)
    requires i < |cols| == |row|
  {
    row[i] != Zero(cols[i].schema)
  }

  lemma WrittenColumns(cols: seq<Column>, row: seq<Value>, add: Value)
    requires Good(cols) && |row| == |cols| && NoBlock(add)
    ensures forall i | 0 <= i < |cols| :: Emits(Fields(cols)[i], row[i]) <==> Filled(cols, row, i)
    ensures !Emits(BLOCK, add)
  {
    forall i | 0 <= i < |cols| ensures Emits(Fields(cols)[i], row[i]) <==> Filled(cols, row, i) {
      ColumnTag(cols[i]);
    }
  }

  lemma RecordConforms(cols: seq<Column>, row: seq<Value>, add: Value)
    requires RowFits(cols, row) && NoBlock(add)
    ensures Conforms(Struct(Fields(cols)), Record(row, add))
  {
  }

  lemma RecordPrints(cols: seq<Column>, row: seq<Value>, add: Value)
    requires Good(cols) && |row| == |cols| && NoBlock(add)
    requires forall i | 0 <= i < |cols| && Filled(cols, row, i) :: Printable(cols[i].schema, row[i])
    ensures Printable(Struct(Fields(cols)), Record(row, add))
  {
    WrittenColumns(cols, row, add);
    hide Emits, Filled, Good, FieldOf;
  }

  /** A record is clean exactly if some column is written and all that are written are clean. */
  lemma RecordClean(cols: seq<Column>, row: seq<Value>, add: Value)
    requires Good(cols) && |row| == |cols| && NoBlock(add)
    ensures Clean(Struct(Fields(cols)), Record(row, add)) <==>
      && (exists i: nat | i < |cols| :: Filled(cols, row, i))
      && forall i | 0 <= i < |cols| && Filled(cols, row, i) :: Clean(cols[i].schema, row[i])
  {
    var fields, v := Fields(cols), Record(row, add);
    WrittenColumns(cols, row, add);
    NoColumnClashes(cols, row, add);
    CleanStruct(fields, v);
    hide Emits, Filled, Good, NoClash, Clean;
    if i: nat :| i < |cols| && Filled(cols, row, i) {
      assert Emits(fields[i], v.vals[i]);
    }
    if i :| 0 <= i < |fields| && Emits(fields[i], v.vals[i]) {
      assert Filled(cols, row, i);
    }
  }

  lemma NoColumnClashes(cols: seq<Column>, row: seq<Value>, add: Value)
    requires Good(cols) && |row| == |cols| && NoBlock(add)
    ensures NoClash(Fields(cols), Record(row, add).vals)
  {
    forall i | 0 <= i < |cols| ensures !IsAdd(Fields(cols)[i]) {
      assert GoodColumn(cols[i]);
    }
    hide Good, GoodColumn;
  }

  lemma RecordSettled(cols: seq<Column>, row: seq<Value>)
    requires Good(cols) && |row| == |cols|
    requires forall i | 0 <= i < |cols| && Filled(cols, row, i) :: Settled(cols[i].schema, row[i])
    ensures Settled(Struct(Fields(cols)), Record(row, NilV))
  {
    WrittenColumns(cols, row, NilV);
    hide Emits, Good;
  }

  /** A record with settled columns comes back from its document, with a nil block, exactly if it is clean. */
  lemma {:induction false} RecordBack(cols: seq<Column>, row: seq<Value>, add: Value, j: Json)
    requires Good(cols) && RowFits(cols, row) && NoBlock(add)
    requires forall i | 0 <= i < |cols| && Filled(cols, row, i) :: Settled(cols[i].schema, row[i])
    requires Represents(Struct(Fields(cols)), Record(row, add), j)
    ensures FromJson(Struct(Fields(cols)), Zero(Struct(Fields(cols))), j) == Some(Record(row, NilV))
      <==> Clean(Struct(Fields(cols)), Record(row, add))
  {
    var s := Struct(Fields(cols));
    RecordSupported(cols);
    RecordConforms(cols, row, add);
    RecordConforms(cols, row, NilV);
    RecordSettled(cols, row);
    SameNormal(cols, row, add);
    hide Settled, Clean, Conforms, Supported, Represents, Normal, FromJson, Zero, Good, RowFits;
    RoundTrips(s, Record(row, add), j);
    NormalIsSame(s, Record(row, NilV));
  }

  lemma SameNormal(cols: seq<Column>, row: seq<Value>, add: Value)
    requires Good(cols) && |row| == |cols| && NoBlock(add)
    ensures Normal(Struct(Fields(cols)), Record(row, add)) == Normal(Struct(Fields(cols)), Record(row, NilV))
  {
    var fields := Fields(cols);
    WrittenColumns(cols, row, add);
    hide Emits, Good, Zero;
    var a, b := NormalFields(fields, row + [add]), NormalFields(fields, row + [NilV]);
    forall i | 0 <= i < |fields| ensures a[i] == b[i] {
      if i == |cols| {
        assert NormalField(BLOCK, add) == Zero(ADD_SCHEMA) && !Emits(BLOCK, NilV);
      }
    }
    assert a == b;
  }

  /** A record without anything to write leaves a lone closing brace. */
  lemma {:induction false} EmptyRecord(cols: seq<Column>, row: seq<Value>, add: Value, j: Json)
    requires Good(cols) && |row| == |cols| && NoBlock(add)
    requires forall i | 0 <= i < |cols| :: !Filled(cols, row, i)
    requires Represents(Struct(Fields(cols)), Record(row, add), j)
    ensures j == JStray
  {
    var fields, vals := Fields(cols), row + [add];
    WrittenColumns(cols, row, add);
    hide Emits, Good, Filled;
    var members := if j.JStray? then [] else j.members;
    SomeMember(fields, vals, |fields|, members);
  }

  // ----- loading over something -----

  /** Every member leads to a public field that holds a map. */
  predicate IntoMaps(fields: seq<Field>, members: seq<Member>) {
    forall i | 0 <= i < |members| :: IntoMap(fields, members[i].key)
  }

  predicate IntoMap(fields: seq<Field>, key: string) {
    var t := Target(fields, key); t >= 0 && !Private(fields[t]) && fields[t].schema.Map?
  }

  ghost predicate Targeted(fields: seq<Field>, members: seq<Member>, i: int) {
    exists x | x in members :: Target(fields, x.key) == i
  }

  /** Such members replace what they lead to, so that it does not matter what was there; the rest stays. */
  lemma {:induction false} StartsAlike(fields: seq<Field>, a: seq<Value>, b: seq<Value>, members: seq<Member>)
    requires |a| == |b| == |fields| && IntoMaps(fields, members)
    ensures var ra, rb := FromMembers(fields, a, members), FromMembers(fields, b, members);
      && (ra.Some? <==> rb.Some?)
      && (ra.Some? ==> forall i | 0 <= i < |fields| ::
            if Targeted(fields, members, i) then ra.value[i] == rb.value[i]
            else ra.value[i] == a[i] && rb.value[i] == b[i])
    decreases members
  {
    if members != [] {
      var x, more := members[0], members[1..];
      var t := Target(fields, x.key);
      assert IntoMap(fields, x.key) && IntoMaps(fields, more);
      var e := fields[t].schema.elem;
      assert FromJson(fields[t].schema, a[t], x.val) == FromMap(e, x.val) == FromJson(fields[t].schema, b[t], x.val);
      var w := FromMap(e, x.val);
      if w.Some? {
        StartsAlike(fields, a[t := w.value], b[t := w.value], more);
        assert forall i :: Targeted(fields, members, i) <==> i == t || Targeted(fields, more, i) by {
          assert forall y :: y in members <==> y == x || y in more;
        }
      }
    }
  }

  /** One member that cannot be decoded spoils the whole. */
  lemma {:induction false} MemberFails(fields: seq<Field>, vals: seq<Value>, members: seq<Member>, k: nat)
    requires |vals| == |fields| && k < |members| && IntoMap(fields, members[k].key)
    requires FromMap(fields[Target(fields, members[k].key)].schema.elem, members[k].val) == None
    ensures FromMembers(fields, vals, members) == None
    decreases members
  {
    var r := FromMember(fields, vals, members[0]);
    if k > 0 {
      if r.Some? { MemberFails(fields, r.value, members[1..], k - 1); }
    } else {
      var t := Target(fields, members[0].key);
      assert FromJson(fields[t].schema, vals[t], members[0].val) == None;
    }
  }

  lemma {:induction false} EntryFails(e: Schema, m: map<string, Value>, members: seq<Member>, k: nat)
    requires k < |members| && FromElem(e, members[k].val) == None
    ensures FromEntries(e, m, members) == None
    decreases members
  {
    if k > 0 {
      var w := FromElem(e, members[0].val);
      if w.Some? { EntryFails(e, m[members[0].key := w.value], members[1..], k - 1); }
    }
  }

  /** A field that is written has a member of its own. */
  lemma {:induction false} FieldMember(fields: seq<Field>, vals: seq<Value>, n: nat, members: seq<Member>, i: nat)
    returns (k: nat)
    requires i < n <= |fields| == |vals| && RepresentsFields(fields, vals, n, members)
    requires Emits(fields[i], vals[i]) && !IsAdd(fields[i])
    ensures k < |members| && members[k].key == JsonName(fields[i])
      && Represents(fields[i].schema, vals[i], members[k].val)
    decreases n
  {
    var before, own := LastField(fields, vals, n, members);
    if i == n - 1 {
      k := |before|;
    } else {
      k := FieldMember(fields, vals, n - 1, before, i);
    }
  }

  /** The names of a struct's members: of its fields, those that are public, and not left out for being zero. */
  lemma {:induction false} MembersWritten(fields: seq<Field>, vals: seq<Value>, members: seq<Member>, i: nat)
    requires i < |fields| == |vals| && Supported(Struct(fields)) && NoClash(fields, vals)
    requires RepresentsFields(fields, vals, |fields|, members) && fields[i].goName != ADD_FIELD
    ensures (exists n | 0 <= n < |members| :: members[n].key == JsonName(fields[i])) <==>
      && (fields[i].goName == "" || !('a' <= fields[i].goName[0] <= 'z'))
      && !("omitempty" in Split(fields[i].tag, ',') && vals[i] == Zero(fields[i].schema))
  {
    hide JsonName, RepresentsFields, Zero, Split, NoClash, Supported;
    if n :| 0 <= n < |members| && members[n].key == JsonName(fields[i]) {
      MemberOrigin(fields, vals, |fields|, members, n);
      var k :| 0 <= k < |fields| && Emits(fields[k], vals[k]) && WrittenBy(fields[k], vals[k], members[n]);
      OwnName(fields, vals, i, k, members[n]);
    }
    if Emits(fields[i], vals[i]) {
      var n := FieldMember(fields, vals, |fields|, members, i);
    }
  }

  /** A member with a field's JSON name was written by that field. */
  lemma OwnName(fields: seq<Field>, vals: seq<Value>, i: nat, k: nat, x: Member)
    requires i < |fields| == |vals| && k < |fields| && Supported(Struct(fields)) && NoClash(fields, vals)
    requires x.key == JsonName(fields[i]) && WrittenBy(fields[k], vals[k], x)
    ensures k == i
  {
    TargetOwn(fields, i);
    if IsAdd(fields[k]) {
    } else {
      TargetOwn(fields, k);
    }
    hide Supported, Target, JsonName;
  }
}
