/** The printer: it appends to one shared buffer, follows every member and element with a comma,
    and truncates the last comma before it closes a brace or bracket. */
module Marshal {
  import opened JsonText
  import opened GoTypes
  import MapOrder

  /** The field is written: public, and neither an omitted zero value nor an empty block of unknown members. */
  predicate Emits(f: Field, v: Value) {
    !Private(f) && if IsAdd(f) then v.MapV? && v.m != map[] else !(OmitEmpty(f) && v == Zero(f.schema))
  }

  /** `j` is the document of `v`: struct members in field order, map members in some order. */
  ghost predicate Represents(s: Schema, v: Value, j: Json)
    decreases v, 1
  {
    match s
    case Leaf(_) => v.LeafV? && j == v.j
    case Ptr(e) => v.PtrV? && Represents(e, v.v, j)
    case Struct(fields) =>
      && v.StructV? && |v.vals| == |fields|
      && (j == JStray || (j.JObj? && j.members != []))
      && RepresentsFields(fields, v.vals, |fields|, if j.JStray? then [] else j.members)
    case Map(e) =>
      && j.JObj? && (v.NilV? || v.MapV?)
      && var m := if v.MapV? then v.m else map[];
      && |j.members| == |m|
      && (forall i, k | 0 <= i < k < |j.members| :: j.members[i].key != j.members[k].key)
      && (forall x | x in j.members :: x.key in m && Represents(e, m[x.key], x.val))
    case Slice(e) =>
      && j.JArr? && (v.NilV? || v.SliceV?)
      && |j.items| == (if v.SliceV? then |v.items| else 0)
      && (forall i | 0 <= i < |j.items| :: Represents(e, v.items[i], j.items[i]))
  }

  /** The members of the first `n` fields in order; the block of unknown members stands where its field stands. */
  ghost predicate RepresentsFields(fields: seq<Field>, vals: seq<Value>, n: nat, members: seq<Member>)
    requires n <= |fields| == |vals|
    decreases vals, 0, n
  {
    if n == 0 then members == []
    else
      var cut := |members| - OwnCount(fields[n - 1], vals[n - 1]);
      && 0 <= cut
      && RepresentsFields(fields, vals, n - 1, members[..cut])
      && OwnMembers(fields[n - 1], vals[n - 1], members[cut..])
  }

  function OwnCount(f: Field, v: Value): nat {
    if !Emits(f, v) then 0 else if IsAdd(f) then |v.m| else 1
  }

  /** The members that one field contributes. */
  ghost predicate OwnMembers(f: Field, v: Value, own: seq<Member>)
    decreases v, 2
  {
    && |own| == OwnCount(f, v)
    && (Emits(f, v) ==>
          if IsAdd(f) then Represents(f.schema, v, JObj(own))
          else own[0].key == JsonName(f) && Represents(f.schema, v, own[0].val))
  }

  /** The printer fails exactly on a nil pointer that it has to follow. */
  ghost predicate Printable(s: Schema, v: Value) {
    match s
    case Leaf(_) => true
    case Ptr(e) => v.PtrV? && Printable(e, v.v)
    case Struct(fields) =>
      v.StructV? && forall i | 0 <= i < |fields| && i < |v.vals| ::
        Emits(fields[i], v.vals[i]) ==> Printable(fields[i].schema, v.vals[i])
    case Map(e) => v.MapV? ==> forall k | k in v.m :: Printable(e, v.m[k])
    case Slice(e) => v.SliceV? ==> forall x | x in v.items :: Printable(e, x)
  }

  class Buffer {
    var data: seq<Lex>

    constructor ()
      ensures data == []
    { data := []; }

    method Write(chunk: seq<Lex>)
      modifies this
      ensures data == old(data) + chunk
    { data := data + chunk; }

    /** Drops the last byte. */
    method TruncateLast()
      requires data != []
      modifies this
      ensures data == old(data)[..|old(data)| - 1]
    { data := data[..|data| - 1]; }

    /** The standard encoder: the canonical text and a newline. */
    method Encode(j: Json)
      modifies this
      ensures data == old(data) + Text(j) + [Newline]
    { data := data + Text(j) + [Newline]; }
  }

  /** One more field extends the rendering of the fields before it. */
  lemma FieldStep(fields: seq<Field>, vals: seq<Value>, x: nat, before: seq<Member>, own: seq<Member>)
    requires x < |fields| == |vals| && RepresentsFields(fields, vals, x, before)
    requires OwnMembers(fields[x], vals[x], own)
    ensures RepresentsFields(fields, vals, x + 1, before + own)
  {
    assert (before + own)[..|before|] == before && (before + own)[|before|..] == own;
  }

  method MarshalStruct(fields: seq<Field>, v: Value, buf: Buffer) returns (ok: bool, ghost j: Json)
    requires Shaped(Struct(fields)) && Conforms(Struct(fields), v)
    modifies buf
    ensures ok <==> Printable(Struct(fields), v)
    ensures ok ==> Represents(Struct(fields), v, j) && buf.data == old(buf.data) + Text(j)
    decreases v, 1
  {
    hide OwnMembers, Text, TextThen;
    j := JStray;
    ghost var start, members := buf.data, [];
    buf.Write([LBrace]);
    for x := 0 to |fields|
      invariant RepresentsFields(fields, v.vals, x, members)
      invariant forall i | 0 <= i < x :: Emits(fields[i], v.vals[i]) ==> Printable(fields[i].schema, v.vals[i])
      invariant buf.data == start + [LBrace] + Trail(members)
    {
      ghost var own;
      ok, own := WriteField(fields[x], v.vals[x], buf);
      if !ok { return; }
      TrailBlock(start + [LBrace], members, own);
      FieldStep(fields, v.vals, x, members, own);
      members := members + own;
    }
    j := Close(buf, start, members);
    ok := true;
  }

  /** One turn of the field loop: nothing, the block of unknown members, or one member. */
  method WriteField(f: Field, v: Value, buf: Buffer) returns (ok: bool, ghost own: seq<Member>)
    requires Shaped(f.schema) && Conforms(f.schema, v) && (IsAdd(f) ==> f.schema == ADD_SCHEMA)
    modifies buf
    ensures ok <==> (Emits(f, v) ==> Printable(f.schema, v))
    ensures ok ==> OwnMembers(f, v, own) && buf.data == old(buf.data) + Trail(own)
    decreases v, 4
  {
    own := [];
    if !Emits(f, v) {
      return true, own;
    }
    if IsAdd(f) {
      own := WriteAddFields(v, buf);
      buf.Write([Comma]);
      TrailIsMembers(own);
      return true, own;
    }
    ghost var fj;
    ok, fj := WriteMember(JsonName(f), f.schema, v, buf);
    own := [Member(JsonName(f), fj)];
    TrailOne(own[0]);
  }

  /** Truncates the final comma, or the opening brace when nothing was written, and closes. */
  method Close(buf: Buffer, ghost start: seq<Lex>, ghost members: seq<Member>) returns (ghost j: Json)
    requires buf.data == start + [LBrace] + Trail(members)
    modifies buf
    ensures j == if members == [] then JStray else JObj(members)
    ensures buf.data == start + Text(j)
  {
    j := if members == [] then JStray else JObj(members);
    buf.TruncateLast();
    buf.Write([RBrace]);
    if members == [] {
      assert start + [LBrace] + Trail(members) == start + [LBrace];
    } else {
      TrailIsMembers(members);
      MembersThenSplit(members, [RBrace] + []);
    }
  }

  /** A quoted key, a value, and the comma that always follows. */
  method WriteMember(key: string, s: Schema, v: Value, buf: Buffer) returns (ok: bool, ghost j: Json)
    requires Shaped(s) && Conforms(s, v)
    modifies buf
    ensures ok <==> Printable(s, v)
    ensures ok ==> Represents(s, v, j) && buf.data == old(buf.data) + MemberText(Member(key, j)) + [Comma]
    decreases v, 3
  {
    hide Represents, Printable, Shaped, Conforms, Text;
    buf.Write([Str(key), Colon]);
    ok, j := MarshalValue(s, v, buf);
    buf.Write([Comma]);
  }

  /** `marshalStructField` without its comma, and the element cases of the two container encoders. */
  method MarshalValue(s: Schema, v: Value, buf: Buffer) returns (ok: bool, ghost j: Json)
    requires Shaped(s) && Conforms(s, v)
    modifies buf
    ensures ok <==> Printable(s, v)
    ensures ok ==> Represents(s, v, j) && buf.data == old(buf.data) + Text(j)
    decreases v, 2
  {
    j := JNull;
    match s {
      case Ptr(e) =>
        if v.NilV? { return false, j; }
        ok, j := MarshalValue(e, v.v, buf);
      case Struct(fields) => ok, j := MarshalStruct(fields, v, buf);
      case Map(e) => ok, j := MarshalMap(e, v, buf);
      case Slice(e) => ok, j := MarshalSlice(e, v, buf);
      case Leaf(k) =>
        if k.KOwn? {
          buf.Write(Text(v.j));
        } else {
          buf.Encode(v.j);
          buf.TruncateLast();
        }
        ok, j := true, v.j;
    }
  }

  /** `members` lists the entries of `m` under the given keys, in that order. */
  ghost predicate Lists(e: Schema, m: map<string, Value>, keys: seq<string>, members: seq<Member>) {
    && |members| <= |keys|
    && forall i | 0 <= i < |members| ::
         members[i].key == keys[i] && keys[i] in m && Represents(e, m[keys[i]], members[i].val)
  }

  lemma {:induction false} ListsStep(e: Schema, m: map<string, Value>, keys: seq<string>, members: seq<Member>, j: Json)
    requires Lists(e, m, keys, members) && |members| < |keys|
    requires keys[|members|] in m && Represents(e, m[keys[|members|]], j)
    ensures Lists(e, m, keys, members + [Member(keys[|members|], j)])
  {
  }

  lemma {:induction false} ListsAll(e: Schema, m: map<string, Value>, keys: seq<string>, members: seq<Member>)
    requires MapOrder.IsOrder(m, keys) && Lists(e, m, keys, members) && |members| == |m|
    ensures Represents(Map(e), MapV(m), JObj(members))
  {
  }

  method MarshalMap(e: Schema, v: Value, buf: Buffer) returns (ok: bool, ghost j: Json)
    requires Shaped(Map(e)) && Conforms(Map(e), v)
    modifies buf
    ensures ok <==> Printable(Map(e), v)
    ensures ok ==> Represents(Map(e), v, j) && buf.data == old(buf.data) + Text(j)
    decreases v, 1
  {
    if v.NilV? || v.m == map[] {
      buf.Write([LBrace]);
      buf.Write([RBrace]);
      return true, JObj([]);
    }
    if Basic(e) {
      var members := LeafMembers(e, v.m);
      buf.Encode(JObj(members));
      buf.TruncateLast();
      return true, JObj(members);
    }
    ok, j := EncodeMap(e, v, buf);
  }

  method EncodeMap(e: Schema, v: Value, buf: Buffer) returns (ok: bool, ghost j: Json)
    requires Shaped(Map(e)) && Conforms(Map(e), v) && v.MapV? && v.m != map[]
    modifies buf
    ensures ok <==> Printable(Map(e), v)
    ensures ok ==> Represents(Map(e), v, j) && buf.data == old(buf.data) + Text(j)
    decreases v, 0
  {
    j := JNull;
    ghost var start, members := buf.data, [];
    buf.Write([LBrace]);
    var keys := MapOrder.Range(v.m);
    for i := 0 to |keys|
      invariant |members| == i && Lists(e, v.m, keys, members)
      invariant forall x | 0 <= x < i :: Printable(e, v.m[keys[x]])
      invariant buf.data == start + [LBrace] + Trail(members)
    {
      ghost var vj;
      ok, vj := WriteMember(keys[i], e, v.m[keys[i]], buf);
      if !ok { return; }
      TrailMember(start + [LBrace], members, Member(keys[i], vj));
      ListsStep(e, v.m, keys, members, vj);
      members := members + [Member(keys[i], vj)];
    }
    ListsAll(e, v.m, keys, members);
    j := Close(buf, start, members);
    ok := true;
  }

  /** The standard encoder sorts the keys of a map; any order will do here. */
  method LeafMembers(e: Schema, m: map<string, Value>) returns (members: seq<Member>)
    requires Basic(e) && forall k | k in m :: Conforms(e, m[k])
    ensures Represents(Map(e), MapV(m), JObj(members))
  {
    members := [];
    var keys := MapOrder.Range(m);
    for i := 0 to |keys|
      invariant |members| == i && Lists(e, m, keys, members)
    {
      ListsStep(e, m, keys, members, m[keys[i]].j);
      members := members + [Member(keys[i], m[keys[i]].j)];
    }
    ListsAll(e, m, keys, members);
  }

  method MarshalSlice(e: Schema, v: Value, buf: Buffer) returns (ok: bool, ghost j: Json)
    requires Shaped(Slice(e)) && Conforms(Slice(e), v)
    modifies buf
    ensures ok <==> Printable(Slice(e), v)
    ensures ok ==> Represents(Slice(e), v, j) && buf.data == old(buf.data) + Text(j)
    decreases v, 1
  {
    if v.NilV? || v.items == [] {
      buf.Write([LBracket]);
      buf.Write([RBracket]);
      return true, JArr([]);
    }
    if Basic(e) {
      assert forall i | 0 <= i < |v.items| :: Conforms(e, v.items[i]) by {
        assert forall i | 0 <= i < |v.items| :: v.items[i] in v.items;
      }
      var whole := JArr(seq(|v.items|, i requires 0 <= i < |v.items| => v.items[i].j));
      buf.Encode(whole);
      buf.TruncateLast();
      return true, whole;
    }
    ok, j := EncodeSlice(e, v, buf);
  }

  lemma {:induction false} ItemsClosed(start: seq<Lex>, items: seq<Json>)
    requires items != []
    ensures var d := start + [LBracket] + TrailItems(items);
      d[..|d| - 1] + [RBracket] == start + Text(JArr(items))
  {
    TrailIsItems(items);
    ItemsThenSplit(items, [RBracket] + []);
  }

  method EncodeSlice(e: Schema, v: Value, buf: Buffer) returns (ok: bool, ghost j: Json)
    requires Shaped(Slice(e)) && Conforms(Slice(e), v) && v.SliceV? && v.items != []
    modifies buf
    ensures ok <==> Printable(Slice(e), v)
    ensures ok ==> Represents(Slice(e), v, j) && buf.data == old(buf.data) + Text(j)
    decreases v, 0
  {
    forall i | 0 <= i < |v.items| ensures Conforms(e, v.items[i]) {
      assert v.items[i] in v.items;
    }
    assert Shaped(e);
    hide Shaped, Conforms, Text, TextThen, TrailItems;
    j := JNull;
    ghost var start, items := buf.data, [];
    buf.Write([LBracket]);
    for i := 0 to |v.items|
      invariant |items| == i
      invariant forall x | 0 <= x < i :: Represents(e, v.items[x], items[x]) && Printable(e, v.items[x])
      invariant buf.data == start + [LBracket] + TrailItems(items)
    {
      ghost var xj;
      ok, xj := MarshalValue(e, v.items[i], buf);
      if !ok { return; }
      buf.Write([Comma]);
      TrailItem(start + [LBracket], items, xj);
      items := items + [xj];
    }
    ItemsClosed(start, items);
    buf.TruncateLast();
    buf.Write([RBracket]);
    j := JArr(items);
    ok := true;
  }

  method WriteRaw(key: string, raw: Json, buf: Buffer)
    modifies buf
    ensures buf.data == old(buf.data) + MemberText(Member(key, raw))
  {
    buf.Write([Str(key), Colon]);
    buf.Encode(raw);
    buf.TruncateLast();
  }

  /** The block of unknown members, separated, and not followed, by commas. */
  method WriteAddFields(v: Value, buf: Buffer) returns (ghost block: seq<Member>)
    requires v.MapV? && v.m != map[] && Conforms(ADD_SCHEMA, v)
    modifies buf
    ensures |block| == |v.m| > 0 && Represents(ADD_SCHEMA, v, JObj(block))
    ensures buf.data == old(buf.data) + MembersThen(block, [])
  {
    block := [];
    ghost var start := buf.data;
    var keys := MapOrder.Range(v.m);
    for x := 0 to |keys|
      invariant |block| == x && Lists(Leaf(KRaw), v.m, keys, block)
      invariant buf.data == start + if x == |keys| then MembersThen(block, []) else Trail(block)
    {
      ghost var member := Member(keys[x], v.m[keys[x]].j);
      WriteRaw(keys[x], v.m[keys[x]].j, buf);
      TrailMember(start, block, member);
      ListsStep(Leaf(KRaw), v.m, keys, block, member.val);
      block := block + [member];
      if x + 1 != |v.m| {
        buf.Write([Comma]);
      } else {
        TrailCut(buf.data, start, block);
      }
    }
    ListsAll(Leaf(KRaw), v.m, keys, block);
  }
}
